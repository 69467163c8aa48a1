/**
 * The script of a session: every model call said from the request, the answers before it and the job
 * results alone. Whatever the loop does, its calls are the script, and the model messages its answers.
 */
module PromptProvenance {
  import opened Prelude
  import opened Orchestration
  import opened Orchestrator

  // Where a session's answers come from.
  datatype Source = Source(env: Env, ends: nat -> Option<JobEnd>, request: string)

  // The report on the job of round `round`; the rounds before it have enqueued one job each.
  function RoundReport(x: Source, round: nat): Report
    requires round > 0
  {
    ReportOf(x.ends(round - 1), x.env.timeoutNote(round - 1))
  }

  function RoundText(x: Source, round: nat): string
    requires round > 0
  {
    ReportText(x.env, round - 1, RoundReport(x, round))
  }

  function Script(x: Source, n: nat): (calls: seq<Call>)
    ensures |calls| == n
    decreases n, 0
  {
    if n == 0 then [] else Script(x, n - 1) + [ScriptedCall(x, n - 1)]
  }

  // The answer to call `i` of the script.
  function Reply(x: Source, i: nat): Output
    decreases i + 1, 1
  {
    x.env.model(Script(x, i + 1))
  }

  // Three calls once, then patch, review and verdict of each round.
  function ScriptedCall(x: Source, i: nat): Call
    decreases i, 2
  {
    if i == 0 then SpecCall(x.request)
    else if i == 1 then CritiqueCall(x.request, TextOf(Reply(x, 0), SpecText))
    else if i == 2 then PlanCall(TextOf(Reply(x, 0), SpecText), TextOf(Reply(x, 1), ReviewText))
    else if i % 3 == 0 then
      PatchCall(i / 3, TextOf(Reply(x, 2), PlanText), TextOf(Reply(x, 1), ReviewText),
                if i == 3 then "" else TextOf(Reply(x, i - 2), ReviewText))
    else if i % 3 == 1 then
      Call(i / 3, ForReview(TextOf(Reply(x, i - 1), PatchText), RoundText(x, i / 3)),
           if RoundReport(x, i / 3).passed then Pass else NeedsRevision)
    else
      Call(i / 3, ForVerdict(TextOf(Reply(x, i - 1), ReviewText), RoundText(x, i / 3)),
           if RoundReport(x, i / 3).passed && Reply(x, i - 1).status == Pass then Pass else NeedsRevision)
  }

  // The messages that a model wrote.
  function ModelMessages(messages: seq<Message>): seq<Message> {
    if messages == [] then []
    else
      var last := messages[|messages| - 1];
      ModelMessages(messages[..|messages| - 1]) + if last.fromModel then [last] else []
  }

  // The messages that the first `n` answers of the script leave.
  function Answers(x: Source, n: nat): seq<Message> {
    if n == 0 then []
    else
      var c := ScriptedCall(x, n - 1);
      Answers(x, n - 1) + [Message(StepOf(c.prompt), true, c.round, Reply(x, n - 1))]
  }

  ghost predicate Follows(x: Source, w: World, n: nat) {
    w.calls == Script(x, n) && ModelMessages(w.messages) == Answers(x, n)
  }

  lemma OneMoreMessage(messages: seq<Message>, m: Message)
    ensures ModelMessages(messages + [m]) == ModelMessages(messages) + if m.fromModel then [m] else []
  {
    var longer := messages + [m];
    assert longer[..|longer| - 1] == messages;
  }

  // One more call of the script, without looking into what it asks.
  ghost predicate NextIs(x: Source, n: nat, c: Call) {
    && Script(x, n + 1) == Script(x, n) + [c]
    && Answers(x, n + 1) == Answers(x, n) + [Message(StepOf(c.prompt), true, c.round, Reply(x, n))]
    && Reply(x, n) == x.env.model(Script(x, n) + [c])
  }

  lemma ScriptGrows(x: Source, n: nat, c: Call)
    requires c == ScriptedCall(x, n)
    ensures NextIs(x, n, c)
  {
  }

  lemma NextFollows(x: Source, w: World, n: nat, c: Call)
    requires Follows(x, w, n) && NextIs(x, n, c)
    ensures Follows(x, Ask(x.env, w, c), n + 1) && Answer(x.env, w, c) == Reply(x, n)
  {
    OneMoreMessage(w.messages, Message(StepOf(c.prompt), true, c.round, Answer(x.env, w, c)));
  }

  lemma AskFollows(x: Source, w: World, n: nat, c: Call)
    requires Follows(x, w, n) && c == ScriptedCall(x, n)
    ensures Follows(x, Ask(x.env, w, c), n + 1) && Answer(x.env, w, c) == Reply(x, n)
  {
    ScriptGrows(x, n, c);
    NextFollows(x, w, n, c);
  }

  lemma NoteFollows(x: Source, w: World, n: nat, step: Step, round: nat, output: Output)
    requires Follows(x, w, n)
    ensures Follows(x, Note(w, step, round, output), n)
  {
    OneMoreMessage(w.messages, Message(step, false, round, output));
  }

  // ---- The stretches of a session ----

  // Between rounds: `round` of them are over, and the loop's variables hold the script's answers.
  ghost predicate AtRound(x: Source, w: World, round: nat, t: Texts, lastReview: string) {
    && Follows(x, w, 3 * round + 3) && w.jobs == round
    && t.critique == TextOf(Reply(x, 1), ReviewText) && t.plan == TextOf(Reply(x, 2), PlanText)
    && lastReview == if round == 0 then "" else TextOf(Reply(x, 3 * round + 1), ReviewText)
  }

  ghost predicate OnScript(x: Source, w: World) {
    Follows(x, w, |w.calls|)
  }

  // A round ends on the script, or leaves the loop between rounds again.
  ghost predicate EndsOnScript(x: Source, e: RoundEnd, r: nat, t: Texts) {
    if e.Ended? then OnScript(x, e.world) else AtRound(x, e.world, r, t, e.review)
  }

  lemma PrologueFollows(x: Source)
    ensures var (w, t) := Prologue(x.env, NEW_SESSION, x.request); AtRound(x, w, 0, t, "")
  {
    AskFollows(x, NEW_SESSION, 0, ScriptedCall(x, 0));
    var w1 := Ask(x.env, NEW_SESSION, ScriptedCall(x, 0));
    AskFollows(x, w1, 1, ScriptedCall(x, 1));
    AskFollows(x, Ask(x.env, w1, ScriptedCall(x, 1)), 2, ScriptedCall(x, 2));
  }

  lemma ScriptedRound(x: Source, r: nat)
    requires r > 0
    ensures ScriptedCall(x, 3 * r) == PatchCall(r, TextOf(Reply(x, 2), PlanText), TextOf(Reply(x, 1), ReviewText),
                                                if r == 1 then "" else TextOf(Reply(x, 3 * r - 2), ReviewText))
    ensures ScriptedCall(x, 3 * r + 1) == Call(r, ForReview(TextOf(Reply(x, 3 * r), PatchText), RoundText(x, r)),
                                               if RoundReport(x, r).passed then Pass else NeedsRevision)
    ensures ScriptedCall(x, 3 * r + 2) ==
            Call(r, ForVerdict(TextOf(Reply(x, 3 * r + 1), ReviewText), RoundText(x, r)),
                 if RoundReport(x, r).passed && Reply(x, 3 * r + 1).status == Pass then Pass else NeedsRevision)
  {
    assert (3 * r) / 3 == r && (3 * r + 1) / 3 == r && (3 * r + 2) / 3 == r;
  }

  lemma ImplementFollows(x: Source, w: World, r: nat, t: Texts, lastReview: string)
    requires r > 0 && AtRound(x, w, r - 1, t, lastReview)
    ensures var (w1, patch) := Implement(x.env, w, r, t.plan, t.critique, lastReview);
            Follows(x, w1, 3 * r + 1) && w1.jobs == r - 1 && patch == TextOf(Reply(x, 3 * r), PatchText)
  {
    ScriptedRound(x, r);
    AskFollows(x, w.(rounds := r), 3 * r, PatchCall(r, t.plan, t.critique, lastReview));
  }

  lemma TwoAsksFollow(x: Source, w: World, n: nat, first: Call, second: Call)
    requires Follows(x, w, n) && first == ScriptedCall(x, n) && second == ScriptedCall(x, n + 1)
    ensures Follows(x, Ask(x.env, Ask(x.env, w, first), second), n + 2) && Answer(x.env, w, first) == Reply(x, n)
  {
    AskFollows(x, w, n, first);
    AskFollows(x, Ask(x.env, w, first), n + 1, second);
  }

  function ReviewCall(r: nat, patch: string, text: string, passed: bool): Call {
    Call(r, ForReview(patch, text), if passed then Pass else NeedsRevision)
  }

  function VerdictCall(r: nat, reviewed: Output, text: string, passed: bool): Call {
    Call(r, ForVerdict(TextOf(reviewed, ReviewText), text), if passed && reviewed.status == Pass then Pass else NeedsRevision)
  }

  lemma JudgeIsTwoAsks(env: Env, w: World, r: nat, patch: string, job: nat, report: Report)
    ensures var text := ReportText(env, job, report);
            var w1 := Note(w, TestRunner, r, ReportOutput(env, job, report.passed, text));
            var reviewCall := ReviewCall(r, patch, text, report.passed);
            var reviewed, j := Answer(env, w1, reviewCall), Judge(env, w, r, patch, job, report);
            && j.world == Ask(env, Ask(env, w1, reviewCall), VerdictCall(r, reviewed, text, report.passed))
            && j.review == TextOf(reviewed, ReviewText)
  {
  }

  lemma ReportFollows(x: Source, w: World, r: nat, w1: World)
    requires r > 0 && Follows(x, w, 3 * r + 1)
    requires w1 == Note(w, TestRunner, r, ReportOutput(x.env, r - 1, RoundReport(x, r).passed, RoundText(x, r)))
    ensures Follows(x, w1, 3 * r + 1) && w1.jobs == w.jobs
  {
    NoteFollows(x, w, 3 * r + 1, TestRunner, r, ReportOutput(x.env, r - 1, RoundReport(x, r).passed, RoundText(x, r)));
  }

  lemma JudgedFollows(x: Source, n: nat, w1: World, first: Call, second: Call, j: Judged)
    requires Follows(x, w1, n) && first == ScriptedCall(x, n) && second == ScriptedCall(x, n + 1)
    requires j.world == Ask(x.env, Ask(x.env, w1, first), second) && j.review == TextOf(Answer(x.env, w1, first), ReviewText)
    ensures Follows(x, j.world, n + 2) && j.world.jobs == w1.jobs && j.review == TextOf(Reply(x, n), ReviewText)
  {
    TwoAsksFollow(x, w1, n, first, second);
  }

  // The two calls of a judgement, as the script and the orchestrator make them.
  lemma ScriptedJudgement(x: Source, w: World, w1: World, r: nat, patch: string, first: Call, second: Call, j: Judged)
    requires r > 0 && patch == TextOf(Reply(x, 3 * r), PatchText) && j == Judge(x.env, w, r, patch, r - 1, RoundReport(x, r))
    requires w1 == Note(w, TestRunner, r, ReportOutput(x.env, r - 1, RoundReport(x, r).passed, RoundText(x, r)))
    requires first == ReviewCall(r, patch, RoundText(x, r), RoundReport(x, r).passed) && Answer(x.env, w1, first) == Reply(x, 3 * r + 1)
    requires second == VerdictCall(r, Reply(x, 3 * r + 1), RoundText(x, r), RoundReport(x, r).passed)
    ensures j.world == Ask(x.env, Ask(x.env, w1, first), second) && j.review == TextOf(Answer(x.env, w1, first), ReviewText)
  {
    JudgeIsTwoAsks(x.env, w, r, patch, r - 1, RoundReport(x, r));
  }

  lemma JudgeFollows(x: Source, w: World, r: nat, patch: string, j: Judged)
    requires r > 0 && Follows(x, w, 3 * r + 1) && patch == TextOf(Reply(x, 3 * r), PatchText)
    requires j == Judge(x.env, w, r, patch, r - 1, RoundReport(x, r))
    ensures Follows(x, j.world, 3 * r + 3) && j.world.jobs == w.jobs && j.review == TextOf(Reply(x, 3 * r + 1), ReviewText)
  {
    var passed, text := RoundReport(x, r).passed, RoundText(x, r);
    var w1 := Note(w, TestRunner, r, ReportOutput(x.env, r - 1, passed, text));
    var first, second := ReviewCall(r, patch, text, passed), VerdictCall(r, Reply(x, 3 * r + 1), text, passed);
    ReportFollows(x, w, r, w1);
    ScriptedRound(x, r);
    AskFollows(x, w1, 3 * r + 1, first);
    ScriptedJudgement(x, w, w1, r, patch, first, second, j);
    JudgedFollows(x, 3 * r + 1, w1, first, second, j);
  }

  lemma JudgedEndsOnScript(x: Source, j: Judged, r: nat, t: Texts)
    requires r > 0 && Follows(x, j.world, 3 * r + 3) && j.world.jobs == r && j.review == TextOf(Reply(x, 3 * r + 1), ReviewText)
    requires t.critique == TextOf(Reply(x, 1), ReviewText) && t.plan == TextOf(Reply(x, 2), PlanText)
    ensures EndsOnScript(x, EndOf(j), r, t)
  {
  }

  lemma TestedIsJudged(x: Source, w1: World, r: nat, patch: string)
    requires r > 0 && w1.jobs == r - 1
    ensures Tested(x.env, w1, r, patch, x.ends(w1.jobs)) == EndOf(Judge(x.env, w1.(jobs := r), r, patch, r - 1, RoundReport(x, r)))
  {
  }

  lemma TestedFollows(x: Source, w1: World, r: nat, patch: string, t: Texts, e: RoundEnd)
    requires r > 0 && Follows(x, w1, 3 * r + 1) && w1.jobs == r - 1 && patch == TextOf(Reply(x, 3 * r), PatchText)
    requires t.critique == TextOf(Reply(x, 1), ReviewText) && t.plan == TextOf(Reply(x, 2), PlanText)
    requires e == EndOf(Judge(x.env, w1.(jobs := r), r, patch, r - 1, RoundReport(x, r)))
    ensures EndsOnScript(x, e, r, t)
  {
    var j := Judge(x.env, w1.(jobs := r), r, patch, r - 1, RoundReport(x, r));
    JudgeFollows(x, w1.(jobs := r), r, patch, j);
    JudgedEndsOnScript(x, j, r, t);
  }

  lemma RoundFollows(x: Source, approved: bool, w: World, r: nat, t: Texts, lastReview: string)
    requires r > 0 && AtRound(x, w, r - 1, t, lastReview)
    ensures EndsOnScript(x, OneRound(x.env, x.ends, approved, w, r, t, lastReview), r, t)
  {
    ImplementFollows(x, w, r, t, lastReview);
    var (w1, patch) := Implement(x.env, w, r, t.plan, t.critique, lastReview);
    var s := x.env.scan(patch, approved);
    if s.blocking {
      NoteFollows(x, w1, 3 * r + 1, CodeImplementer, r, ViolationOutput(x.env, s));
    } else {
      TestedIsJudged(x, w1, r, patch);
      TestedFollows(x, w1, r, patch, t, Tested(x.env, w1, r, patch, x.ends(w1.jobs)));
    }
  }

  lemma RoundsUnfold(x: Source, approved: bool, max: int, w: World, round: nat, t: Texts, lastReview: string, e: RoundEnd)
    requires round < max && e == OneRound(x.env, x.ends, approved, w, round + 1, t, lastReview)
    ensures Rounds(x.env, x.ends, approved, max, w, round, t, lastReview) == RestOf(x, approved, max, round + 1, t, e)
  {
  }

  lemma ClosedOnScript(x: Source, w: World, n: nat, status: SessionStatus, round: nat)
    requires Follows(x, w, n)
    ensures OnScript(x, Close(w, status, round))
  {
  }

  // The rest of the loop after round `r` ended as `e`.
  function RestOf(x: Source, approved: bool, max: int, r: nat, t: Texts, e: RoundEnd): World {
    if e.Ended? then Close(e.world, e.status, r) else Rounds(x.env, x.ends, approved, max, e.world, r, t, e.review)
  }

  lemma {:induction false} RestFollows(x: Source, approved: bool, max: int, r: nat, t: Texts, e: RoundEnd)
    requires 0 < r <= max && EndsOnScript(x, e, r, t)
    ensures OnScript(x, RestOf(x, approved, max, r, t, e))
    decreases max - r, 1
  {
    if e.Ended? {
      ClosedOnScript(x, e.world, |e.world.calls|, e.status, r);
    } else {
      RoundsFollow(x, approved, max, e.world, r, t, e.review);
    }
  }

  lemma {:induction false} RoundsFollow(x: Source, approved: bool, max: int, w: World, round: nat, t: Texts, lastReview: string)
    requires AtRound(x, w, round, t, lastReview)
    ensures OnScript(x, Rounds(x.env, x.ends, approved, max, w, round, t, lastReview))
    decreases max - round, 0
  {
    if round >= max {
      ClosedOnScript(x, w, 3 * round + 3, Revise, round);
    } else {
      var r, e := round + 1, OneRound(x.env, x.ends, approved, w, round + 1, t, lastReview);
      RoundFollows(x, approved, w, r, t, lastReview);
      RestFollows(x, approved, max, r, t, e);
      RoundsUnfold(x, approved, max, w, round, t, lastReview, e);
    }
  }

  /**
   * In every session the calls are the script: spec, critique and plan once, then in each round a patch
   * from plan, critique and the review before, a review of that patch with the round's own report, and a
   * verdict on that review; and the messages that models wrote are the script's answers, in order.
   */
  lemma SessionFollowsScript(x: Source, approved: bool, max: int)
    ensures OnScript(x, Session(x.env, x.ends, approved, max, x.request))
  {
    PrologueFollows(x);
    var (w, t) := Prologue(x.env, NEW_SESSION, x.request);
    RoundsFollow(x, approved, max, w, 0, t, "");
  }
}
