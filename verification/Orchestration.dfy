/**
 * What both orchestrators share: model calls, recorded messages, the test report of a finished
 * worker job, and the three stretches of work that either form is made of.
 */
module Orchestration {
  import opened Prelude

  const MAX_ROUNDS := 3

  datatype Verdict = Pass | Fail | NeedsRevision
  datatype Step = ProductSpec | CriticalReview | ImplementationPlan | CodeImplementer | TestRunner | CodeReviewer | QaJudge
  datatype Kind = SpecText | ReviewText | PlanText | PatchText | TestReportText
  datatype Artifact = Artifact(kind: Kind, content: string)
  datatype Output = Output(status: Verdict, summary: string, issues: seq<string>, artifacts: seq<Artifact>)

  // The user part of a prompt by what goes into it; `Render` is its text. The step follows from it.
  datatype Prompt =
    | ForSpec(request: string)
    | ForCritique(request: string, spec: string)
    | ForPlan(spec: string, critique: string)
    | ForPatch(plan: string, critique: string, lastReview: string)
    | ForReview(patch: string, report: string)
    | ForVerdict(review: string, report: string)

  function StepOf(p: Prompt): Step {
    match p
    case ForSpec(_) => ProductSpec
    case ForCritique(_, _) => CriticalReview
    case ForPlan(_, _) => ImplementationPlan
    case ForPatch(_, _, _) => CodeImplementer
    case ForReview(_, _) => CodeReviewer
    case ForVerdict(_, _) => QaJudge
  }

  function Render(p: Prompt): string {
    match p
    case ForSpec(request) => "User request:\n" + request
    case ForCritique(request, spec) => "User request:\n" + request + "\n\nSpec to review:\n" + spec
    case ForPlan(spec, critique) => "Spec:\n" + spec + "\n\nCritique:\n" + critique
    case ForPatch(plan, critique, lastReview) =>
      "Plan:\n" + plan + "\n\nCritique:\n" + critique + if lastReview == "" then "" else "\n\nPrevious review to address:\n" + lastReview
    case ForReview(patch, report) => "Patch:\n" + patch + "\n\n" + report
    case ForVerdict(review, report) => "Code review:\n" + review + "\n\n" + report
  }

  ghost predicate Shows(text: string, heading: string, part: string) {
    exists before, after :: text == before + (heading + part) + after
  }

  lemma ShowsLast(before: string, heading: string, part: string)
    ensures Shows((before + heading) + part, heading, part) && Shows(before + (heading + part), heading, part)
  {
    assert (before + heading) + part == before + (heading + part) + "";
    assert before + (heading + part) == before + (heading + part) + "";
  }

  lemma ShowsAlone(heading: string, part: string)
    ensures Shows(heading + part, heading, part)
  {
    ShowsLast("", heading, part);
    assert "" + (heading + part) == heading + part;
  }

  lemma ShowsStill(text: string, more: string, heading: string, part: string)
    requires Shows(text, heading, part)
    ensures Shows(text + more, heading, part)
  {
    var before, after :| text == before + (heading + part) + after;
    assert text + more == before + (heading + part) + (after + more);
  }

  lemma ShowsBoth(h1: string, p1: string, h2: string, p2: string)
    ensures Shows(h1 + p1 + h2 + p2, h1, p1) && Shows(h1 + p1 + h2 + p2, h2, p2)
  {
    ShowsAlone(h1, p1);
    ShowsStill(h1 + p1, h2, h1, p1);
    ShowsStill(h1 + p1 + h2, p2, h1, p1);
    ShowsLast(h1 + p1, h2, p2);
  }

  lemma ShowsThree(h1: string, p1: string, h2: string, p2: string, h3: string, p3: string)
    ensures var text := h1 + p1 + h2 + p2 + (h3 + p3); Shows(text, h1, p1) && Shows(text, h2, p2) && Shows(text, h3, p3)
  {
    ShowsBoth(h1, p1, h2, p2);
    ShowsStill(h1 + p1 + h2 + p2, h3 + p3, h1, p1);
    ShowsStill(h1 + p1 + h2 + p2, h3 + p3, h2, p2);
    ShowsLast(h1 + p1 + h2 + p2, h3, p3);
  }

  // The headings and parts that the text of a prompt is to show.
  ghost predicate ShowsParts(p: Prompt, text: string) {
    match p
    case ForSpec(request) => Shows(text, "User request:\n", request)
    case ForCritique(request, spec) => Shows(text, "User request:\n", request) && Shows(text, "\n\nSpec to review:\n", spec)
    case ForPlan(spec, critique) => Shows(text, "Spec:\n", spec) && Shows(text, "\n\nCritique:\n", critique)
    case ForPatch(plan, critique, lastReview) =>
      && Shows(text, "Plan:\n", plan) && Shows(text, "\n\nCritique:\n", critique)
      && (lastReview != "" ==> Shows(text, "\n\nPrevious review to address:\n", lastReview))
    case ForReview(patch, report) => Shows(text, "Patch:\n", patch) && Shows(text, "\n\n", report)
    case ForVerdict(review, report) => Shows(text, "Code review:\n", review) && Shows(text, "\n\n", report)
  }

  /** Every part that goes into a prompt stands in its text in full, under its own heading. */
  lemma PromptShowsItsParts(p: Prompt)
    ensures ShowsParts(p, Render(p))
  {
    match p
    case ForSpec(request) => ShowsAlone("User request:\n", request);
    case ForCritique(request, spec) => ShowsBoth("User request:\n", request, "\n\nSpec to review:\n", spec);
    case ForPlan(spec, critique) => ShowsBoth("Spec:\n", spec, "\n\nCritique:\n", critique);
    case ForPatch(plan, critique, lastReview) =>
      if lastReview == "" {
        ShowsBoth("Plan:\n", plan, "\n\nCritique:\n", critique);
      } else {
        ShowsThree("Plan:\n", plan, "\n\nCritique:\n", critique, "\n\nPrevious review to address:\n", lastReview);
      }
    case ForReview(patch, report) => ShowsBoth("Patch:\n", patch, "\n\n", report);
    case ForVerdict(review, report) => ShowsBoth("Code review:\n", review, "\n\n", report);
  }

  /** Two patches give the same review prompt text only if they are the same patch. */
  lemma ReviewTextShowsPatch(p: string, q: string, report: string)
    ensures Render(ForReview(p, report)) == Render(ForReview(q, report)) <==> p == q
  {
    var a, b := Render(ForReview(p, report)), Render(ForReview(q, report));
    if a == b {
      var head := "Patch:\n";
      assert |a| == |head| + |p| + 2 + |report| && |b| == |head| + |q| + 2 + |report|;
      forall i | 0 <= i < |p| ensures p[i] == q[i] {
        assert a[|head| + i] == p[i] && b[|head| + i] == q[i];
      }
    }
  }

  // A call as an adapter sees it; `mock` is the status of the answer it gives without a key.
  datatype Call = Call(round: nat, prompt: Prompt, mock: Verdict)
  datatype Message = Message(step: Step, fromModel: bool, round: nat, output: Output)

  datatype Scan = Scan(blocking: bool, fatal: bool, issues: seq<string>)

  // ---- Worker jobs and their reports ----

  datatype JobEnd = JobEnd(passed: bool, commands: seq<(string, Option<int>)>, note: string)
  datatype CommandResult = CommandResult(command: string, exitCode: Option<int>, note: string, executed: bool)
  datatype Report = Report(results: seq<CommandResult>, passed: bool)

  function BuildReport(end: JobEnd): (r: Report)
    ensures r.passed == end.passed && r.results != []
  {
    var results := seq(|end.commands|, i requires 0 <= i < |end.commands| => CommandResult(end.commands[i].0, end.commands[i].1, "", true));
    Report(if results == [] then [CommandResult("(sandbox worker)", Some(if end.passed then 0 else 1), end.note, true)] else results, end.passed)
  }

  /** A report has a line for every command of the job, or a single one that tells whether the job passed. */
  lemma ReportLines(end: JobEnd)
    ensures var lines := BuildReport(end).results;
            if end.commands == [] then |lines| == 1 && (lines[0].exitCode == Some(0) <==> end.passed)
            else |lines| == |end.commands|
                 && forall i | 0 <= i < |lines| :: lines[i].executed && (lines[i].command, lines[i].exitCode) == end.commands[i]
  {
    assert end.commands != [] ==> |seq(|end.commands|, i requires 0 <= i < |end.commands| => CommandResult(end.commands[i].0, end.commands[i].1, "", true))| > 0;
  }

  // The report of a wait that ran out of time never passes, and says that nothing was executed.
  function ReportOf(end: Option<JobEnd>, timeoutNote: string): (r: Report)
    ensures r.passed <==> end.Some? && end.value.passed
    ensures end == None ==> |r.results| == 1 && !r.results[0].executed && r.results[0].exitCode == None && r.results[0].note == timeoutNote
  {
    if end.Some? then BuildReport(end.value) else Report([CommandResult("(sandbox worker wait)", None, timeoutNote, false)], false)
  }

  // Adapters answer by the whole history of calls; scanning, redaction and fixed wordings are arbitrary functions.
  datatype Env = Env(
    model: seq<Call> -> Output,
    scan: (string, bool) -> Scan,
    redact: string -> string,
    format: Report -> string,
    jobText: nat -> string,
    timeoutNote: nat -> string,
    violationNote: bool -> string,
    reportNote: (bool, nat) -> string)

  function ReportText(env: Env, job: nat, report: Report): string {
    "[worker_job_id: " + env.jobText(job) + "]\n" + env.format(report)
  }

  /** The report text names the job and holds the formatted report in full. */
  lemma ReportTextShowsJob(env: Env, job: nat, report: Report)
    ensures Shows(ReportText(env, job, report), "[worker_job_id: ", env.jobText(job))
    ensures Shows(ReportText(env, job, report), "]\n", env.format(report))
  {
    ShowsBoth("[worker_job_id: ", env.jobText(job), "]\n", env.format(report));
  }

  // ---- The recorded world: one session ----

  datatype SessionStatus = Running | Passed | Failed | Revise
  // `jobs` counts the jobs enqueued; the k-th one is job k.
  datatype World = World(calls: seq<Call>, messages: seq<Message>, jobs: nat, status: SessionStatus, rounds: nat)

  const NEW_SESSION := World([], [], 0, Running, 0)

  function ArtifactOf(artifacts: seq<Artifact>, kind: Kind, otherwise: string): string {
    if artifacts == [] then otherwise
    else if artifacts[0].kind == kind then artifacts[0].content
    else ArtifactOf(artifacts[1..], kind, otherwise)
  }

  function TextOf(o: Output, kind: Kind): string {
    ArtifactOf(o.artifacts, kind, o.summary)
  }

  lemma {:induction false} FirstOfItsKind(artifacts: seq<Artifact>, kind: Kind, otherwise: string, i: nat)
    requires i <= |artifacts| && forall k | 0 <= k < i :: artifacts[k].kind != kind
    ensures i == |artifacts| ==> ArtifactOf(artifacts, kind, otherwise) == otherwise
    ensures i < |artifacts| && artifacts[i].kind == kind ==> ArtifactOf(artifacts, kind, otherwise) == artifacts[i].content
  {
    if i > 0 { FirstOfItsKind(artifacts[1..], kind, otherwise, i - 1); }
  }

  /** The text taken from an answer is its first artifact of the kind asked for, and the summary when there is none. */
  lemma TextIsFirstOfItsKind(o: Output, kind: Kind)
    ensures (forall a <- o.artifacts :: a.kind != kind) ==> TextOf(o, kind) == o.summary
    ensures forall i | 0 <= i < |o.artifacts| && o.artifacts[i].kind == kind && (forall k | 0 <= k < i :: o.artifacts[k].kind != kind) ::
              TextOf(o, kind) == o.artifacts[i].content
  {
    if forall a <- o.artifacts :: a.kind != kind { FirstOfItsKind(o.artifacts, kind, o.summary, |o.artifacts|); }
    forall i | 0 <= i < |o.artifacts| && o.artifacts[i].kind == kind && (forall k | 0 <= k < i :: o.artifacts[k].kind != kind)
      ensures TextOf(o, kind) == o.artifacts[i].content
    {
      FirstOfItsKind(o.artifacts, kind, o.summary, i);
    }
  }

  function Answer(env: Env, w: World, c: Call): Output {
    env.model(w.calls + [c])
  }

  function Ask(env: Env, w: World, c: Call): World {
    w.(calls := w.calls + [c], messages := w.messages + [Message(StepOf(c.prompt), true, c.round, Answer(env, w, c))])
  }

  function Note(w: World, step: Step, round: nat, output: Output): World {
    w.(messages := w.messages + [Message(step, false, round, output)])
  }

  function ViolationOutput(env: Env, s: Scan): Output {
    Output(if s.fatal then Fail else NeedsRevision, env.violationNote(s.fatal), s.issues, [])
  }

  function ReportOutput(env: Env, job: nat, passed: bool, text: string): Output {
    Output(if passed then Pass else NeedsRevision, env.reportNote(passed, job), [], [Artifact(TestReportText, text)])
  }

  function Close(w: World, status: SessionStatus, round: nat): World {
    w.(status := status, rounds := round)
  }

  // ---- The stretches of work ----

  datatype Texts = Texts(spec: string, critique: string, plan: string)

  function SpecCall(request: string): Call { Call(0, ForSpec(request), Pass) }
  function CritiqueCall(request: string, spec: string): Call { Call(0, ForCritique(request, spec), Pass) }
  function PlanCall(spec: string, critique: string): Call { Call(0, ForPlan(spec, critique), Pass) }

  // Specification, critique and plan: asked once.
  function Prologue(env: Env, w: World, request: string): (World, Texts) {
    var spec := TextOf(Answer(env, w, SpecCall(request)), SpecText);
    var w1 := Ask(env, w, SpecCall(request));
    var critique := TextOf(Answer(env, w1, CritiqueCall(request, spec)), ReviewText);
    var w2 := Ask(env, w1, CritiqueCall(request, spec));
    var plan := TextOf(Answer(env, w2, PlanCall(spec, critique)), PlanText);
    (Ask(env, w2, PlanCall(spec, critique)), Texts(spec, critique, plan))
  }

  function PatchCall(round: nat, plan: string, critique: string, lastReview: string): Call {
    Call(round, ForPatch(plan, critique, lastReview), Pass)
  }

  // Round `round` up to its patch.
  function Implement(env: Env, w: World, round: nat, plan: string, critique: string, lastReview: string)
    : (World, string)
  {
    var c := PatchCall(round, plan, critique, lastReview);
    var w1 := w.(rounds := round);
    (Ask(env, w1, c), TextOf(Answer(env, w1, c), PatchText))
  }

  function Blocked(env: Env, w: World, round: nat, s: Scan): World {
    Note(w, CodeImplementer, round, ViolationOutput(env, s))
  }

  datatype Judged = Judged(world: World, review: string, verdict: Verdict)

  // From a finished test job to the guarded verdict: report, code review, judge.
  function Judge(env: Env, w: World, round: nat, patch: string, job: nat, report: Report): Judged {
    var text := ReportText(env, job, report);
    var w1 := Note(w, TestRunner, round, ReportOutput(env, job, report.passed, text));
    var reviewCall := Call(round, ForReview(patch, text), if report.passed then Pass else NeedsRevision);
    var reviewed := Answer(env, w1, reviewCall);
    var review := TextOf(reviewed, ReviewText);
    var w2 := Ask(env, w1, reviewCall);
    var judgeCall := Call(round, ForVerdict(review, text), if report.passed && reviewed.status == Pass then Pass else NeedsRevision);
    var verdict := Answer(env, w2, judgeCall).status;
    Judged(Ask(env, w2, judgeCall), review, if !report.passed && verdict == Pass then NeedsRevision else verdict)
  }

  // ---- What the messages of a judged round say ----

  predicate IsReport(m: Message, round: nat, green: bool) {
    m.step == TestRunner && !m.fromModel && m.round == round && m.output.status == if green then Pass else NeedsRevision
  }

  predicate IsAnswer(m: Message, step: Step, round: nat) {
    m.step == step && m.fromModel && m.round == round
  }

  // A report, a review and a judge's answer are added; the verdict is the judge's, except that a red report never passes.
  ghost predicate JudgedBy(before: seq<Message>, after: seq<Message>, round: nat, green: bool, verdict: Verdict) {
    var n := |before|;
    && |after| == n + 3 && after[..n] == before
    && IsReport(after[n], round, green) && IsAnswer(after[n + 1], CodeReviewer, round) && IsAnswer(after[n + 2], QaJudge, round)
    && (verdict == Pass <==> after[n + 2].output.status == Pass && green)
    && (verdict == Fail <==> after[n + 2].output.status == Fail)
  }

  lemma JudgeMeans(env: Env, w: World, round: nat, patch: string, job: nat, report: Report)
    ensures var j := Judge(env, w, round, patch, job, report);
            JudgedBy(w.messages, j.world.messages, round, report.passed, j.verdict)
  {
  }

  // How the messages of a round end: the judge passed a green report; the judge failed it, or the patch was forbidden;
  // the judge did neither, or the patch needs approval.
  ghost predicate EndsGreenAndPassed(messages: seq<Message>, round: nat) {
    var n := |messages|;
    n >= 3 && IsReport(messages[n - 3], round, true) && IsAnswer(messages[n - 1], QaJudge, round) && messages[n - 1].output.status == Pass
  }

  ghost predicate EndsFailed(messages: seq<Message>, round: nat) {
    |messages| > 0
    && var m := messages[|messages| - 1];
       m.round == round && m.output.status == Fail && ((m.step == QaJudge && m.fromModel) || (m.step == CodeImplementer && !m.fromModel))
  }

  ghost predicate EndsUndecided(messages: seq<Message>, round: nat) {
    var n := |messages|;
    && n >= 3 && IsAnswer(messages[n - 1], QaJudge, round) && messages[n - 1].output.status != Fail
    && (IsReport(messages[n - 3], round, true) ==> messages[n - 1].output.status != Pass)
  }

  ghost predicate EndsInNeedOfApproval(messages: seq<Message>, round: nat) {
    |messages| > 0
    && var m := messages[|messages| - 1]; m.round == round && m.step == CodeImplementer && !m.fromModel && m.output.status == NeedsRevision
  }

  lemma JudgedEnds(before: seq<Message>, after: seq<Message>, round: nat, green: bool, verdict: Verdict)
    requires JudgedBy(before, after, round, green, verdict)
    ensures verdict == Pass <==> EndsGreenAndPassed(after, round)
    ensures verdict == Fail <==> EndsFailed(after, round)
    ensures verdict == NeedsRevision <==> EndsUndecided(after, round)
  {
  }

  // The repository object both orchestrators write to, and the adapters they ask.
  class Store {
    const env: Env
    var calls: seq<Call>
    var messages: seq<Message>
    var jobs: nat
    var status: SessionStatus
    var rounds: nat

    function State(): World
      reads this
    {
      World(calls, messages, jobs, status, rounds)
    }

    constructor (env: Env)
      ensures this.env == env && State() == NEW_SESSION
    {
      this.env := env;
      calls, messages, jobs, status, rounds := [], [], 0, Running, 0;
    }

    method RunStep(c: Call) returns (output: Output)
      modifies this
      ensures output == Answer(env, old(State()), c) && State() == Ask(env, old(State()), c)
    {
      calls := calls + [c];
      output := env.model(calls);
      messages := messages + [Message(StepOf(c.prompt), true, c.round, output)];
    }

    method RecordSystemMessage(step: Step, round: nat, output: Output)
      modifies this
      ensures State() == Note(old(State()), step, round, output)
    {
      messages := messages + [Message(step, false, round, output)];
    }

    method EnqueueTestJob() returns (job: nat)
      modifies this
      ensures job == old(jobs) && State() == old(State()).(jobs := job + 1)
    {
      job := jobs;
      jobs := jobs + 1;
    }

    // The three calls made once per session.
    method RunPrologue(request: string) returns (t: Texts)
      modifies this
      ensures (State(), t) == Prologue(env, old(State()), request)
    {
      var spec := RunStep(SpecCall(request));
      var specText := TextOf(spec, SpecText);
      var critique := RunStep(CritiqueCall(request, specText));
      var critiqueText := TextOf(critique, ReviewText);
      var plan := RunStep(PlanCall(specText, critiqueText));
      return Texts(specText, critiqueText, TextOf(plan, PlanText));
    }

    method RunJudgement(round: nat, patch: string, job: nat, report: Report) returns (review: string, verdict: Verdict)
      modifies this
      ensures Judged(State(), review, verdict) == Judge(env, old(State()), round, patch, job, report)
      ensures JudgedBy(old(messages), messages, round, report.passed, verdict)
    {
      JudgeMeans(env, State(), round, patch, job, report);
      var text := ReportText(env, job, report);
      RecordSystemMessage(TestRunner, round, ReportOutput(env, job, report.passed, text));
      var reviewed := RunStep(Call(round, ForReview(patch, text), if report.passed then Pass else NeedsRevision));
      review := TextOf(reviewed, ReviewText);
      var judge := RunStep(Call(round, ForVerdict(review, text), if report.passed && reviewed.status == Pass then Pass else NeedsRevision));
      verdict := judge.status;
      if !report.passed && verdict == Pass { verdict := NeedsRevision; }
    }
  }
}
