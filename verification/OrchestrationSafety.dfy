/**
 * Reachable states of a resumable run: any order of resumes, job endings and cancels, one at a time.
 * A job's ending may be overwritten, as a late final write can.
 */
module OrchestrationSafety {
  import opened Prelude
  import opened Orchestration
  import opened AsyncOrchestrator

  datatype System = System(world: World, run: RunRow, ends: map<nat, JobEnd>)
  datatype Action = Resume | EndJob(job: nat, end: JobEnd) | Cancel

  function EndsOf(ends: map<nat, JobEnd>): nat -> Option<JobEnd> {
    job => if job in ends then Some(ends[job]) else None
  }

  function Next(env: Env, s: System, a: Action): System {
    match a
    case Resume =>
      var (w, run) := Resumed(env, EndsOf(s.ends), s.world, s.run);
      System(w, run, s.ends)
    case EndJob(job, end) => if job < s.world.jobs then s.(ends := s.ends[job := end]) else s
    case Cancel => s.(run := Cancelled(s.run))
  }

  function Reached(env: Env, max: int, request: string, approved: bool, actions: seq<Action>): System {
    if actions == [] then
      var (w, run) := Started(env, max, request, approved);
      System(w, run, map[])
    else Next(env, Reached(env, max, request, approved, actions[..|actions| - 1]), actions[|actions| - 1])
  }

  // ---- What is true of every reachable state ----

  // The last message is this round's patch, which the scan lets through.
  predicate EndsWithCleanPatch(env: Env, messages: seq<Message>, round: nat, approved: bool) {
    |messages| > 0
    && var m := messages[|messages| - 1];
       m.step == CodeImplementer && m.fromModel && m.round == round && !env.scan(TextOf(m.output, PatchText), approved).blocking
  }

  // The last four messages are a clean patch, a green test report, a review, and a judge that said pass.
  predicate EndsWithEarnedPass(env: Env, messages: seq<Message>, round: nat, approved: bool) {
    |messages| >= 4
    && var n := |messages|;
    && EndsWithCleanPatch(env, messages[..n - 3], round, approved)
    && messages[n - 3].step == TestRunner && !messages[n - 3].fromModel && messages[n - 3].round == round
      && messages[n - 3].output.status == Pass
    && messages[n - 2].step == CodeReviewer && messages[n - 2].fromModel && messages[n - 2].round == round
    && messages[n - 1].step == QaJudge && messages[n - 1].fromModel && messages[n - 1].round == round
      && messages[n - 1].output.status == Pass
  }

  // The last message says why the run failed: the judge did, or a forbidden operation in the patch.
  predicate EndsInFailure(messages: seq<Message>, round: nat) {
    |messages| > 0
    && var m := messages[|messages| - 1];
       && m.round == round && m.output.status == Fail
       && ((m.step == QaJudge && m.fromModel) || (m.step == CodeImplementer && !m.fromModel))
  }

  // The run is left to be revised: a patch that needs approval, or a last round the judge neither failed nor passed on a green report.
  predicate EndsUnresolved(messages: seq<Message>, round: nat, max: int) {
    |messages| > 0
    && var m := messages[|messages| - 1];
       && m.round == round
       && ((m.step == QaJudge && m.fromModel && m.output.status != Fail && round == max
            && |messages| >= 3 && !(m.output.status == Pass && IsReport(messages[|messages| - 3], round, true)))
           || (m.step == CodeImplementer && !m.fromModel && m.output.status == NeedsRevision))
  }

  predicate Waiting(env: Env, w: World, run: RunRow, approved: bool) {
    && run.status == WaitingForWorker && !run.finished
    && w.jobs == run.round && run.pending == Some(w.jobs - 1)
    && |w.calls| == 3 * run.round + 1
    && EndsWithCleanPatch(env, w.messages, run.round, approved)
  }

  predicate Ended(env: Env, w: World, run: RunRow, approved: bool) {
    && run.status.Terminal() && run.pending == None && run.finished
    && run.round - 1 <= w.jobs <= run.round
    && |w.calls| <= 3 * run.round + 3
    && (run.status == RunPassed ==> w.status == Passed && EndsWithEarnedPass(env, w.messages, run.round, approved))
    && (run.status == RunFailed ==> w.status == Failed && EndsInFailure(w.messages, run.round))
    && (run.status == RunNeedsRevision ==> w.status == Revise && EndsUnresolved(w.messages, run.round, run.maxRounds))
  }

  predicate Sound(env: Env, max: int, approved: bool, s: System) {
    && 1 <= s.run.round <= max == s.run.maxRounds && s.run.state.approved == approved
    && (Waiting(env, s.world, s.run, approved) || Ended(env, s.world, s.run, approved))
  }

  // Rounds still possible; zero once the run has ended.
  function RoundsLeft(run: RunRow): nat {
    if run.status.Terminal() || run.maxRounds < run.round then 0 else run.maxRounds - run.round + 1
  }

  // ---- One step ----

  lemma AdvanceEffect(env: Env, w: World, run: RunRow, r: nat, state: State)
    requires !run.finished && 1 <= r && w.jobs == r - 1 && |w.calls| == 3 * r
    ensures var (w', run') := Advance(env, w, run, r, state);
            && run'.round == r && run'.maxRounds == run.maxRounds && run'.state.approved == state.approved
            && (Waiting(env, w', run', state.approved) || Ended(env, w', run', state.approved))
            && run'.status != RunPassed
  {
    var (w', run') := Advance(env, w, run, r, state);
    if run'.status == WaitingForWorker {
      assert w'.messages[|w.messages|].step == CodeImplementer;
    }
  }

  lemma JudgeEffect(env: Env, w: World, round: nat, patch: string, job: nat, end: JobEnd, approved: bool)
    requires EndsWithCleanPatch(env, w.messages, round, approved)
    ensures var j := Judge(env, w, round, patch, job, BuildReport(end));
            && j.world.jobs == w.jobs && |j.world.calls| == |w.calls| + 2
            && (j.verdict == Pass ==> end.passed && EndsWithEarnedPass(env, j.world.messages, round, approved))
            && (j.verdict == Fail ==> EndsInFailure(j.world.messages, round))
            && (j.verdict == NeedsRevision ==> EndsUnresolved(j.world.messages, round, round))
  {
    var j := Judge(env, w, round, patch, job, BuildReport(end));
    assert j.world.messages[..|j.world.messages| - 3] == w.messages;
  }

  lemma FinalisedEffect(env: Env, w: World, row: RunRow, status: SessionStatus, state: State, approved: bool)
    requires w.jobs == row.round && |w.calls| == 3 * row.round + 3 && state.approved == approved && status != Running
    requires status == Passed ==> EndsWithEarnedPass(env, w.messages, row.round, approved)
    requires status == Failed ==> EndsInFailure(w.messages, row.round)
    requires status == Revise ==> EndsUnresolved(w.messages, row.round, row.maxRounds)
    ensures var (w', run') := Finalised(env, w, row, status, row.round, state);
            && Ended(env, w', run', approved) && run'.round == row.round && run'.maxRounds == row.maxRounds
              && run'.state.approved == approved
            && (run'.status == RunPassed <==> status == Passed)
  {
  }

  lemma DecidedEffect(env: Env, j: Judged, row: RunRow, state: State, approved: bool)
    requires !row.finished && 1 <= row.round <= row.maxRounds && state.approved == approved
    requires j.world.jobs == row.round && |j.world.calls| == 3 * row.round + 3
    requires j.verdict == Pass ==> EndsWithEarnedPass(env, j.world.messages, row.round, approved)
    requires j.verdict == Fail ==> EndsInFailure(j.world.messages, row.round)
    requires j.verdict == NeedsRevision ==> EndsUnresolved(j.world.messages, row.round, row.round)
    ensures var (w', run') := Decided(env, j, row, state);
            && row.round <= run'.round <= row.maxRounds == run'.maxRounds && run'.state.approved == approved
            && (Waiting(env, w', run', approved) || Ended(env, w', run', approved))
            && RoundsLeft(run') < row.maxRounds - row.round + 1
            && (run'.status == RunPassed ==> j.verdict == Pass && run'.round == row.round)
  {
    if j.verdict == NeedsRevision && row.round < row.maxRounds {
      AdvanceEffect(env, j.world, row, row.round + 1, state);
    } else {
      var status := match j.verdict case Pass => Passed case Fail => Failed case NeedsRevision => Revise;
      FinalisedEffect(env, j.world, row, status, state, approved);
    }
  }

  lemma ConsumeEffect(env: Env, w: World, run: RunRow, end: JobEnd, approved: bool)
    requires Waiting(env, w, run, approved) && 1 <= run.round <= run.maxRounds && run.state.approved == approved
    ensures var (w', run') := Consume(env, w, run, run.pending.value, end);
            && run.round <= run'.round <= run.maxRounds == run'.maxRounds && run'.state.approved == approved
            && (Waiting(env, w', run', approved) || Ended(env, w', run', approved))
            && RoundsLeft(run') < RoundsLeft(run)
            && (run'.status == RunPassed ==> end.passed && run'.round == run.round)
  {
    var job, report := run.pending.value, BuildReport(end);
    JudgeEffect(env, w, run.round, run.state.patch, job, end, approved);
    var j := Judge(env, w, run.round, run.state.patch, job, report);
    DecidedEffect(env, j, run.(step := Some(QaJudge)), run.state.(lastReport := ReportText(env, job, report), lastReview := j.review), approved);
  }

  lemma StartEffect(env: Env, max: int, request: string, approved: bool)
    requires max >= 1
    ensures var (w, run) := Started(env, max, request, approved);
            Sound(env, max, approved, System(w, run, map[])) && run.status != RunPassed
  {
    var (w, t) := Prologue(env, NEW_SESSION, request);
    var state := EmptyState(env, request, approved).(spec := t.spec, critique := t.critique, plan := t.plan);
    AdvanceEffect(env, w, NewRun(env, max, request, approved), 1, state);
  }

  // What one action keeps, and who may pass the run.
  ghost predicate Keeps(env: Env, max: int, approved: bool, s: System, a: Action, s': System) {
    && Sound(env, max, approved, s')
    && s.run.round <= s'.run.round && RoundsLeft(s'.run) <= RoundsLeft(s.run)
    && (s.run.status.Terminal() ==> s'.run == s.run && s'.world == s.world)
    && (a == Resume && Resumable(s.run, EndsOf(s.ends)) ==> RoundsLeft(s'.run) < RoundsLeft(s.run))
    && (s'.run.status == RunPassed && s.run.status != RunPassed ==>
          && a == Resume && s.run.pending == Some(s.world.jobs - 1)
          && s.world.jobs - 1 in s.ends && s.ends[s.world.jobs - 1].passed
          && s'.run.round == s.run.round == s.world.jobs)
  }

  lemma ResumeKeeps(env: Env, max: int, approved: bool, s: System, s': System)
    requires Sound(env, max, approved, s) && Resumable(s.run, EndsOf(s.ends)) && s' == Next(env, s, Resume)
    ensures Keeps(env, max, approved, s, Resume, s')
  {
    ConsumeEffect(env, s.world, s.run, s.ends[s.run.pending.value], approved);
  }

  lemma OtherKeeps(env: Env, max: int, approved: bool, s: System, a: Action, s': System)
    requires Sound(env, max, approved, s) && !(a == Resume && Resumable(s.run, EndsOf(s.ends))) && s' == Next(env, s, a)
    ensures Keeps(env, max, approved, s, a, s')
  {
  }

  /**
   * One action on a sound state: it stays sound, rounds never go back, an ended run never changes, a
   * resume that finds its job finished uses up a round, and only a resume of its round's passed job can pass the run.
   */
  lemma StepKeeps(env: Env, max: int, approved: bool, s: System, a: Action)
    requires Sound(env, max, approved, s)
    ensures Keeps(env, max, approved, s, a, Next(env, s, a))
  {
    if a == Resume && Resumable(s.run, EndsOf(s.ends)) {
      ResumeKeeps(env, max, approved, s, Next(env, s, a));
    } else {
      OtherKeeps(env, max, approved, s, a, Next(env, s, a));
    }
  }

  lemma {:induction false} ReachedIsSound(env: Env, max: int, request: string, approved: bool, actions: seq<Action>)
    requires max >= 1
    ensures Sound(env, max, approved, Reached(env, max, request, approved, actions))
  {
    if actions == [] {
      StartEffect(env, max, request, approved);
    } else {
      ReachedIsSound(env, max, request, approved, actions[..|actions| - 1]);
      StepKeeps(env, max, approved, Reached(env, max, request, approved, actions[..|actions| - 1]), actions[|actions| - 1]);
    }
  }

  // ---- Whole runs ----

  /**
   * Verdict safety: a passed run ends in a patch without a blocking violation, a green report on that
   * round's job and a judge that said pass; the last message of a failed or unresolved run says why. A
   * waiting run has its job pending; an ended one has none and a finish time.
   */
  lemma PassIsEarned(env: Env, max: int, request: string, approved: bool, actions: seq<Action>)
    requires max >= 1
    ensures var s := Reached(env, max, request, approved, actions);
            && (s.run.status == RunPassed ==> EndsWithEarnedPass(env, s.world.messages, s.run.round, approved))
            && (s.run.status == RunFailed ==> EndsInFailure(s.world.messages, s.run.round))
            && (s.run.status == RunNeedsRevision ==> EndsUnresolved(s.world.messages, s.run.round, max))
            && (s.run.status.Terminal() && s.run.status != RunCancelled && EndsWithEarnedPass(env, s.world.messages, s.run.round, approved) ==>
                  s.run.status == RunPassed)
            && (s.run.status == WaitingForWorker <==> s.run.pending.Some?)
            && (s.run.pending.Some? ==> s.run.pending.value == s.world.jobs - 1)
            && (s.run.status.Terminal() <==> s.run.finished)
  {
    ReachedIsSound(env, max, request, approved, actions);
  }

  // The run waits for a job that has ended: it is the one of the current round, and a resume follows report and judge.
  ghost predicate FollowsTheJudge(env: Env, max: int, approved: bool, s: System, s': System) {
    s.run.status == WaitingForWorker && s.world.jobs - 1 in s.ends ==>
      && s.run.pending == Some(s.world.jobs - 1) && s.world.jobs == s.run.round
      && s.run.maxRounds == max && s.run.state.approved == approved
      && ResumeFollows(env, s.world, s.run, s.ends[s.world.jobs - 1].passed, s'.world, s'.run)
  }

  lemma ResumeOfEnded(env: Env, s: System, job: nat, s': System)
    requires s.run.status == WaitingForWorker && s.run.pending == Some(job) && job in s.ends && s' == Next(env, s, Resume)
    ensures ResumeFollows(env, s.world, s.run, s.ends[job].passed, s'.world, s'.run)
  {
    ConsumeMeans(env, s.world, s.run, job, s.ends[job], s'.world, s'.run);
  }

  lemma ResumeStep(env: Env, max: int, approved: bool, s: System)
    requires Sound(env, max, approved, s)
    ensures FollowsTheJudge(env, max, approved, s, Next(env, s, Resume))
  {
    if s.run.status == WaitingForWorker && s.world.jobs - 1 in s.ends { ResumeOfEnded(env, s, s.world.jobs - 1, Next(env, s, Resume)); }
  }

  /**
   * Liveness of the verdict, in every reachable state: a resume that finds the current round's job ended and passed, and a
   * judge that passes it, leaves the run passed in that round; a judge that fails it leaves it failed; anything else
   * begins the next round, or leaves the run in need of revision after the last.
   */
  lemma ResumeFollowsTheJudge(env: Env, max: int, request: string, approved: bool, actions: seq<Action>)
    requires max >= 1
    ensures FollowsTheJudge(env, max, approved, Reached(env, max, request, approved, actions),
                            Reached(env, max, request, approved, actions + [Resume]))
  {
    ReachedIsSound(env, max, request, approved, actions);
    assert (actions + [Resume])[..|actions|] == actions;
    ResumeStep(env, max, approved, Reached(env, max, request, approved, actions));
  }

  // The resume that turns `s` into `s'`: it finds the last job, that of the run's round, ended and passed, and passes the run.
  predicate PassesTheRun(s: System, s': System) {
    && s.run.status == WaitingForWorker && s'.run.status == RunPassed
    && s.run.pending == Some(s.world.jobs - 1) && s.world.jobs == s.run.round == s'.run.round
    && s.world.jobs - 1 in s.ends && s.ends[s.world.jobs - 1].passed
  }

  // Action `n` passes the run, and leaves it as it is after all of `actions`.
  predicate PassedBy(env: Env, max: int, request: string, approved: bool, actions: seq<Action>, n: nat)
    requires n < |actions|
  {
    var s' := Reached(env, max, request, approved, actions[..n + 1]);
    && actions[n] == Resume && PassesTheRun(Reached(env, max, request, approved, actions[..n]), s')
    && s'.run == Reached(env, max, request, approved, actions).run && s'.world == Reached(env, max, request, approved, actions).world
  }

  lemma PassedByPrefix(env: Env, max: int, request: string, approved: bool, actions: seq<Action>, n: nat)
    requires max >= 1 && n + 1 < |actions| && PassedBy(env, max, request, approved, actions[..|actions| - 1], n)
    ensures PassedBy(env, max, request, approved, actions, n)
  {
    var before := actions[..|actions| - 1];
    assert before[..n] == actions[..n] && before[..n + 1] == actions[..n + 1];
    ReachedIsSound(env, max, request, approved, before);
    StepKeeps(env, max, approved, Reached(env, max, request, approved, before), actions[|actions| - 1]);
  }

  /**
   * A run that is passed was made so by one resume, which found the job of the run's final round ended and
   * passed; nothing about the run has changed since.
   */
  lemma {:induction false} PassNeedsAPassedJob(env: Env, max: int, request: string, approved: bool, actions: seq<Action>)
    requires max >= 1 && Reached(env, max, request, approved, actions).run.status == RunPassed
    ensures exists n :: 0 <= n < |actions| && PassedBy(env, max, request, approved, actions, n)
  {
    var last := |actions| - 1;
    if actions == [] {
      StartEffect(env, max, request, approved);
    } else if Reached(env, max, request, approved, actions[..last]).run.status == RunPassed {
      PassNeedsAPassedJob(env, max, request, approved, actions[..last]);
      var n :| 0 <= n < last && PassedBy(env, max, request, approved, actions[..last], n);
      PassedByPrefix(env, max, request, approved, actions, n);
    } else {
      ReachedIsSound(env, max, request, approved, actions[..last]);
      StepKeeps(env, max, approved, Reached(env, max, request, approved, actions[..last]), actions[last]);
      assert actions[..last + 1] == actions;
      assert PassedBy(env, max, request, approved, actions, last);
    }
  }

  function CountEffective(env: Env, max: int, request: string, approved: bool, actions: seq<Action>): nat {
    if actions == [] then 0
    else
      var before := Reached(env, max, request, approved, actions[..|actions| - 1]);
      CountEffective(env, max, request, approved, actions[..|actions| - 1])
      + if actions[|actions| - 1] == Resume && Resumable(before.run, EndsOf(before.ends)) then 1 else 0
  }

  /**
   * Bounded progress: rounds stay within 1..max, at most `max` jobs are enqueued and at most 3 + 3 * max
   * model calls made, and at most `max` resumes ever have an effect.
   */
  lemma {:induction false} ProgressIsBounded(env: Env, max: int, request: string, approved: bool, actions: seq<Action>)
    requires max >= 1
    ensures var s := Reached(env, max, request, approved, actions);
            && 1 <= s.run.round <= max && s.world.jobs <= max && |s.world.calls| <= 3 + 3 * max
            && CountEffective(env, max, request, approved, actions) + RoundsLeft(s.run) <= max
  {
    ReachedIsSound(env, max, request, approved, actions);
    if actions == [] {
      StartEffect(env, max, request, approved);
    } else {
      var before := actions[..|actions| - 1];
      ProgressIsBounded(env, max, request, approved, before);
      ReachedIsSound(env, max, request, approved, before);
      StepKeeps(env, max, approved, Reached(env, max, request, approved, before), actions[|actions| - 1]);
    }
  }

  // Rounds have not gone back, and an ended run is as it was.
  predicate Later(s: System, s': System) {
    s.run.round <= s'.run.round && (s.run.status.Terminal() ==> s'.run == s.run && s'.world == s.world)
  }

  lemma NextIsLater(env: Env, max: int, request: string, approved: bool, actions: seq<Action>, a: Action)
    requires max >= 1
    ensures Later(Reached(env, max, request, approved, actions), Reached(env, max, request, approved, actions + [a]))
  {
    assert (actions + [a])[..|actions|] == actions;
    ReachedIsSound(env, max, request, approved, actions);
    StepKeeps(env, max, approved, Reached(env, max, request, approved, actions), a);
  }

  /** Rounds never go back along a run, and once it has ended nothing about it changes. */
  lemma {:induction false} LaterStates(env: Env, max: int, request: string, approved: bool,
                                       actions: seq<Action>, more: seq<Action>)
    requires max >= 1
    ensures Later(Reached(env, max, request, approved, actions), Reached(env, max, request, approved, actions + more))
  {
    if more == [] {
      assert actions + more == actions;
    } else {
      var before, last := more[..|more| - 1], more[|more| - 1];
      LaterStates(env, max, request, approved, actions, before);
      NextIsLater(env, max, request, approved, actions + before, last);
      assert actions + more == actions + before + [last];
    }
  }
}
