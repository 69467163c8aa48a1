/** The synchronous orchestrator: one bounded loop that waits for each test job in place. */
module Orchestrator {
  import opened Prelude
  import opened Orchestration

  // How one round ends: with a final status, or with a review for the next one.
  datatype RoundEnd = Ended(world: World, status: SessionStatus) | Again(world: World, review: string)

  function EndOf(j: Judged): RoundEnd {
    match j.verdict
    case Pass => Ended(j.world, Passed)
    case Fail => Ended(j.world, Failed)
    case NeedsRevision => Again(j.world, j.review)
  }

  // `end` is how the round's job ended, None when the wait for it timed out.
  function Tested(env: Env, w: World, r: nat, patch: string, end: Option<JobEnd>): RoundEnd {
    EndOf(Judge(env, w.(jobs := w.jobs + 1), r, patch, w.jobs, ReportOf(end, env.timeoutNote(w.jobs))))
  }

  function OneRound(env: Env, ends: nat -> Option<JobEnd>, approved: bool,
                    w: World, r: nat, t: Texts, lastReview: string): RoundEnd
  {
    var (w1, patch) := Implement(env, w, r, t.plan, t.critique, lastReview);
    var s := env.scan(patch, approved);
    if s.blocking then Ended(Blocked(env, w1, r, s), if s.fatal then Failed else Revise)
    else Tested(env, w1, r, patch, ends(w1.jobs))
  }

  // The rounds after `round`, as the loop runs them.
  function Rounds(env: Env, ends: nat -> Option<JobEnd>, approved: bool, max: int,
                  w: World, round: nat, t: Texts, lastReview: string): World
    decreases max - round
  {
    if round >= max then Close(w, Revise, round)
    else
      match OneRound(env, ends, approved, w, round + 1, t, lastReview)
      case Ended(w', status) => Close(w', status, round + 1)
      case Again(w', review) => Rounds(env, ends, approved, max, w', round + 1, t, review)
  }

  function Session(env: Env, ends: nat -> Option<JobEnd>, approved: bool, max: int, request: string): World {
    var (w, t) := Prologue(env, NEW_SESSION, request);
    Rounds(env, ends, approved, max, w, 0, t, "")
  }

  // ---- How a session ends, told from its messages ----

  // A blocked patch ends the round as forbidden or in need of approval; else the round's job and judge decide.
  ghost predicate RoundFollows(env: Env, ends: nat -> Option<JobEnd>, approved: bool, w: World, r: nat, e: RoundEnd) {
    var n := |w.messages|;
    && |e.world.messages| > n && e.world.messages[..n] == w.messages && IsAnswer(e.world.messages[n], CodeImplementer, r)
    && var s := env.scan(TextOf(e.world.messages[n].output, PatchText), approved);
       if s.blocking then
         && e.Ended? && e.status == (if s.fatal then Failed else Revise) && e.world.jobs == w.jobs
         && (if s.fatal then EndsFailed(e.world.messages, r) else EndsInNeedOfApproval(e.world.messages, r))
       else
         var green := ends(w.jobs).Some? && ends(w.jobs).value.passed;
         && e.world.jobs == w.jobs + 1 && |e.world.messages| == n + 4 && IsReport(e.world.messages[n + 1], r, green)
         && (e.Ended? && e.status == Passed <==> EndsGreenAndPassed(e.world.messages, r))
         && (e.Ended? && e.status == Failed <==> EndsFailed(e.world.messages, r))
         && (e.Again? <==> EndsUndecided(e.world.messages, r)) && (e.Ended? ==> e.status == Passed || e.status == Failed)
  }

  lemma PatchMeans(env: Env, w: World, r: nat, t: Texts, lastReview: string)
    ensures var (w1, patch) := Implement(env, w, r, t.plan, t.critique, lastReview);
            && |w1.messages| == |w.messages| + 1 && w1.messages[..|w.messages|] == w.messages && w1.jobs == w.jobs
            && IsAnswer(w1.messages[|w.messages|], CodeImplementer, r) && TextOf(w1.messages[|w.messages|].output, PatchText) == patch
  {
  }

  lemma BlockedMeans(env: Env, w1: World, r: nat, s: Scan)
    ensures var w2 := Blocked(env, w1, r, s);
            && |w2.messages| == |w1.messages| + 1 && w2.messages[..|w1.messages|] == w1.messages && w2.jobs == w1.jobs
            && (if s.fatal then EndsFailed(w2.messages, r) else EndsInNeedOfApproval(w2.messages, r))
  {
  }

  // What the job of a round and its judge make of the round.
  ghost predicate TestsFollow(before: seq<Message>, jobs: nat, r: nat, green: bool, e: RoundEnd) {
    var n := |before|;
    && e.world.jobs == jobs + 1 && |e.world.messages| == n + 3 && e.world.messages[..n] == before && IsReport(e.world.messages[n], r, green)
    && (e.Ended? && e.status == Passed <==> EndsGreenAndPassed(e.world.messages, r))
    && (e.Ended? && e.status == Failed <==> EndsFailed(e.world.messages, r))
    && (e.Again? <==> EndsUndecided(e.world.messages, r)) && (e.Ended? ==> e.status == Passed || e.status == Failed)
  }

  lemma JudgedRoundEnds(before: seq<Message>, jobs: nat, r: nat, green: bool, j: Judged)
    requires JudgedBy(before, j.world.messages, r, green, j.verdict) && j.world.jobs == jobs + 1
    ensures TestsFollow(before, jobs, r, green, EndOf(j))
  {
    JudgedEnds(before, j.world.messages, r, green, j.verdict);
  }

  lemma TestedMeans(env: Env, w1: World, r: nat, patch: string, end: Option<JobEnd>)
    ensures TestsFollow(w1.messages, w1.jobs, r, end.Some? && end.value.passed, Tested(env, w1, r, patch, end))
  {
    var report := ReportOf(end, env.timeoutNote(w1.jobs));
    var w2 := w1.(jobs := w1.jobs + 1);
    JudgeMeans(env, w2, r, patch, w1.jobs, report);
    JudgedRoundEnds(w1.messages, w1.jobs, r, report.passed, Judge(env, w2, r, patch, w1.jobs, report));
  }

  lemma PrefixAt(before: seq<Message>, middle: seq<Message>, after: seq<Message>)
    requires |middle| == |before| + 1 && |after| >= |middle| && middle[..|before|] == before && after[..|middle|] == middle
    ensures after[..|before|] == before && after[|before|] == middle[|before|]
  {
    assert after[..|before|] == after[..|middle|][..|before|];
  }

  lemma RoundMeans(env: Env, ends: nat -> Option<JobEnd>, approved: bool, w: World, r: nat, t: Texts, lastReview: string, e: RoundEnd)
    requires e == OneRound(env, ends, approved, w, r, t, lastReview)
    ensures RoundFollows(env, ends, approved, w, r, e)
  {
    var (w1, patch) := Implement(env, w, r, t.plan, t.critique, lastReview);
    PatchMeans(env, w, r, t, lastReview);
    var s := env.scan(patch, approved);
    if s.blocking { BlockedMeans(env, w1, r, s); } else { TestedMeans(env, w1, r, patch, ends(w1.jobs)); }
    PrefixAt(w.messages, w1.messages, e.world.messages);
  }

  // Passed iff the judge passed a green report in the last round; failed iff it failed it or the patch was forbidden;
  // else the session needs revision: for want of approval, or because no round is left.
  ghost predicate EndsByItsMessages(ends: nat -> Option<JobEnd>, max: int, w: World) {
    && (w.status == Passed <==> w.rounds > 0 && EndsGreenAndPassed(w.messages, w.rounds))
    && (w.status == Failed <==> w.rounds > 0 && EndsFailed(w.messages, w.rounds))
    && (w.status == Revise <==> w.rounds == 0 || EndsInNeedOfApproval(w.messages, w.rounds) || EndsUndecided(w.messages, w.rounds))
    && (w.rounds == 0 <==> max <= 0) && (max > 0 ==> w.rounds <= max)
    && (w.rounds > 0 && EndsUndecided(w.messages, w.rounds) ==> w.rounds == max)
    && (w.status == Passed ==> w.jobs > 0 && ends(w.jobs - 1).Some? && ends(w.jobs - 1).value.passed)
  }

  lemma EndedRoundMeans(env: Env, ends: nat -> Option<JobEnd>, approved: bool, max: int, w: World, r: nat, e: RoundEnd)
    requires RoundFollows(env, ends, approved, w, r, e) && e.Ended? && 0 < r <= max
    ensures EndsByItsMessages(ends, max, Close(e.world, e.status, r))
  {
  }

  lemma NoRoundLeftMeans(ends: nat -> Option<JobEnd>, max: int, w: World, round: nat)
    requires round >= max && (if round == 0 then true else round <= max && EndsUndecided(w.messages, round))
    ensures EndsByItsMessages(ends, max, Close(w, Revise, round))
  {
  }

  lemma NextRound(env: Env, ends: nat -> Option<JobEnd>, approved: bool, max: int, w: World, round: nat, t: Texts, lastReview: string)
    returns (e: RoundEnd)
    requires round < max
    ensures RoundFollows(env, ends, approved, w, round + 1, e)
    ensures Rounds(env, ends, approved, max, w, round, t, lastReview) ==
            if e.Ended? then Close(e.world, e.status, round + 1) else Rounds(env, ends, approved, max, e.world, round + 1, t, e.review)
  {
    e := OneRound(env, ends, approved, w, round + 1, t, lastReview);
    RoundMeans(env, ends, approved, w, round + 1, t, lastReview, e);
  }

  // The claim about the rounds that are left, quantified so that a proof unfolds them only where it names `w`.
  ghost predicate RestEnds(env: Env, ends: nat -> Option<JobEnd>, approved: bool, max: int,
                           w: World, round: nat, t: Texts, lastReview: string)
  {
    forall v: World :: v == w ==> EndsByItsMessages(ends, max, Rounds(env, ends, approved, max, v, round, t, lastReview))
  }

  lemma RestEndsNow(env: Env, ends: nat -> Option<JobEnd>, approved: bool, max: int,
                    w: World, round: nat, t: Texts, lastReview: string)
    requires round >= max && (if round == 0 then true else round <= max && EndsUndecided(w.messages, round))
    ensures RestEnds(env, ends, approved, max, w, round, t, lastReview)
  {
    NoRoundLeftMeans(ends, max, w, round);
  }

  lemma RestEndsWith(env: Env, ends: nat -> Option<JobEnd>, approved: bool, max: int,
                     w: World, round: nat, t: Texts, lastReview: string, e: RoundEnd)
    requires round < max && RoundFollows(env, ends, approved, w, round + 1, e)
    requires Rounds(env, ends, approved, max, w, round, t, lastReview) ==
             if e.Ended? then Close(e.world, e.status, round + 1) else Rounds(env, ends, approved, max, e.world, round + 1, t, e.review)
    requires e.Again? ==> RestEnds(env, ends, approved, max, e.world, round + 1, t, e.review)
    ensures RestEnds(env, ends, approved, max, w, round, t, lastReview)
  {
    if e.Ended? {
      EndedRoundMeans(env, ends, approved, max, w, round + 1, e);
    } else {
      assert EndsByItsMessages(ends, max, Rounds(env, ends, approved, max, e.world, round + 1, t, e.review));
    }
  }

  lemma {:induction false} RoundsMean(env: Env, ends: nat -> Option<JobEnd>, approved: bool, max: int,
                                      w: World, round: nat, t: Texts, lastReview: string)
    requires if round == 0 then true else round <= max && EndsUndecided(w.messages, round)
    ensures RestEnds(env, ends, approved, max, w, round, t, lastReview)
    decreases max - round
  {
    if round >= max {
      RestEndsNow(env, ends, approved, max, w, round, t, lastReview);
    } else {
      var e := NextRound(env, ends, approved, max, w, round, t, lastReview);
      if e.Again? { RoundsMean(env, ends, approved, max, e.world, round + 1, t, e.review); }
      RestEndsWith(env, ends, approved, max, w, round, t, lastReview, e);
    }
  }

  /** Every session ends as its last messages say, for any adapters, job results and number of rounds. */
  lemma SessionEndsByItsMessages(env: Env, ends: nat -> Option<JobEnd>, approved: bool, max: int, request: string)
    ensures EndsByItsMessages(ends, max, Session(env, ends, approved, max, request))
  {
    var (w, t) := Prologue(env, NEW_SESSION, request);
    RoundsMean(env, ends, approved, max, w, 0, t, "");
    assert EndsByItsMessages(ends, max, Rounds(env, ends, approved, max, w, 0, t, ""));
  }

  class SyncOrchestrator {
    const store: Store
    const ends: nat -> Option<JobEnd>
    const approved: bool
    const maxRounds: int

    constructor (store: Store, ends: nat -> Option<JobEnd>, approved: bool, requested: Option<int>)
      ensures this.store == store && this.ends == ends && this.approved == approved
      ensures maxRounds == (if requested.Some? && requested.value < 3 then requested.value else 3)
    {
      this.store, this.ends, this.approved := store, ends, approved;
      maxRounds := if requested.Some? && requested.value < MAX_ROUNDS then requested.value else MAX_ROUNDS;
    }

    // One round on the store: Some status when it ends the loop, else the review for the next one.
    method RunRound(round: nat, t: Texts, lastReview: string) returns (final: Option<SessionStatus>, review: string)
      modifies store
      ensures (if final.Some? then Ended(store.State(), final.value) else Again(store.State(), review)) ==
              OneRound(store.env, ends, approved, old(store.State()), round, t, lastReview)
    {
      store.rounds := round;
      var patch := store.RunStep(PatchCall(round, t.plan, t.critique, lastReview));
      var patchText := TextOf(patch, PatchText);
      var s := store.env.scan(patchText, approved);
      if s.blocking {
        store.RecordSystemMessage(CodeImplementer, round, ViolationOutput(store.env, s));
        return Some(if s.fatal then Failed else Revise), "";
      }
      var job := store.EnqueueTestJob();
      var verdict;
      review, verdict := store.RunJudgement(round, patchText, job, ReportOf(ends(job), store.env.timeoutNote(job)));
      final := match verdict case Pass => Some(Passed) case Fail => Some(Failed) case NeedsRevision => None;
    }

    /** The loop computes the session that the round-by-round description denotes, and it ends as its messages say. */
    method Run(request: string) returns (status: SessionStatus, rounds: nat)
      requires store.State() == NEW_SESSION
      modifies store
      ensures store.State() == Session(store.env, ends, approved, maxRounds, request)
      ensures status == store.status && rounds == store.rounds
      ensures EndsByItsMessages(ends, maxRounds, store.State())
    {
      SessionEndsByItsMessages(store.env, ends, approved, maxRounds, request);
      status, rounds := RunRounds(request);
    }

    // The calls made once, and the loop.
    method RunRounds(request: string) returns (status: SessionStatus, rounds: nat)
      requires store.State() == NEW_SESSION
      modifies store
      ensures store.State() == Session(store.env, ends, approved, maxRounds, request)
      ensures status == store.status && rounds == store.rounds
    {
      var t := store.RunPrologue(request);
      ghost var goal := Rounds(store.env, ends, approved, maxRounds, store.State(), 0, t, "");
      var finalStatus, lastReview, round, stop := Revise, "", 0, false;
      while round < maxRounds && !stop
        invariant stop ==> Close(store.State(), finalStatus, round) == goal
        invariant !stop ==> finalStatus == Revise && Rounds(store.env, ends, approved, maxRounds, store.State(), round, t, lastReview) == goal
        decreases !stop, maxRounds - round
      {
        round := round + 1;
        var final;
        final, lastReview := RunRound(round, t, lastReview);
        if final.Some? { finalStatus, stop := final.value, true; }
      }
      store.status, store.rounds := finalStatus, round;
      return finalStatus, round;
    }
  }
}
