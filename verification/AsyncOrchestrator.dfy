/**
 * The resumable orchestrator. A run row carries the state between rounds, redacted; `Start` works up
 * to the first test job, and every `Resume` from one finished test job to the next.
 */
module AsyncOrchestrator {
  import opened Prelude
  import opened Orchestration

  datatype RunStatus = Active | WaitingForWorker | RunPassed | RunFailed | RunNeedsRevision | RunCancelled {
    predicate Terminal() {
      this != Active && this != WaitingForWorker
    }
  }

  datatype State = State(
    request: string, spec: string, critique: string, plan: string, patch: string,
    lastReview: string, lastReport: string, approved: bool)

  const REPORT_LIMIT: nat := 8000

  function Clip(s: string): string {
    if |s| <= REPORT_LIMIT then s else s[..REPORT_LIMIT]
  }

  function RedactState(env: Env, s: State): State {
    State(env.redact(s.request), env.redact(s.spec), env.redact(s.critique), env.redact(s.plan), env.redact(s.patch),
          env.redact(s.lastReview), Clip(env.redact(s.lastReport)), s.approved)
  }

  // What a row stores of a state: every text redacted, of the report at most 8000 characters, the approval as it is.
  ghost predicate Scrubs(env: Env, s: State, stored: State) {
    && stored.request == env.redact(s.request) && stored.spec == env.redact(s.spec) && stored.critique == env.redact(s.critique)
    && stored.plan == env.redact(s.plan) && stored.patch == env.redact(s.patch) && stored.lastReview == env.redact(s.lastReview)
    && stored.approved == s.approved && |stored.lastReport| <= 8000 && stored.lastReport <= env.redact(s.lastReport)
    && (|env.redact(s.lastReport)| <= 8000 ==> stored.lastReport == env.redact(s.lastReport))
    && (|env.redact(s.lastReport)| > 8000 ==> |stored.lastReport| == 8000)
  }

  function EmptyState(env: Env, request: string, approved: bool): State {
    State(env.redact(request), "", "", "", "", "", "", approved)
  }

  datatype RunRow = RunRow(
    status: RunStatus, round: nat, maxRounds: int, step: Option<Step>, pending: Option<nat>, state: State, finished: bool)

  function RunStatusOf(status: SessionStatus): RunStatus {
    match status
    case Passed => RunPassed
    case Failed => RunFailed
    case _ => RunNeedsRevision
  }

  // ---- What each method does to the world and the row ----

  function Finalised(env: Env, w: World, run: RunRow, status: SessionStatus, round: nat, state: State): (World, RunRow)
  {
    (Close(w, status, round), run.(status := RunStatusOf(status), step := None, pending := None, finished := true, state := RedactState(env, state)))
  }

  function Advance(env: Env, w: World, run: RunRow, round: nat, state: State): (World, RunRow) {
    var (w1, patch) := Implement(env, w, round, state.plan, state.critique, state.lastReview);
    var row := run.(round := round, step := Some(CodeImplementer), state := RedactState(env, state));
    var state1 := state.(patch := patch);
    var s := env.scan(patch, state.approved);
    if s.blocking then Finalised(env, Blocked(env, w1, round, s), row, if s.fatal then Failed else Revise, round, state1)
    else (w1.(jobs := w1.jobs + 1),
          row.(status := WaitingForWorker, step := Some(TestRunner), pending := Some(w1.jobs), state := RedactState(env, state1)))
  }

  function NewRun(env: Env, max: int, request: string, approved: bool): RunRow {
    RunRow(Active, 1, max, Some(ProductSpec), None, RedactState(env, EmptyState(env, request, approved)), false)
  }

  function Started(env: Env, max: int, request: string, approved: bool): (World, RunRow) {
    var (w, t) := Prologue(env, NEW_SESSION, request);
    var state := EmptyState(env, request, approved).(spec := t.spec, critique := t.critique, plan := t.plan);
    Advance(env, w, NewRun(env, max, request, approved), 1, state)
  }

  predicate Resumable(run: RunRow, ends: nat -> Option<JobEnd>) {
    run.status == WaitingForWorker && run.pending.Some? && ends(run.pending.value).Some?
  }

  function Decided(env: Env, j: Judged, row: RunRow, state: State): (World, RunRow) {
    match j.verdict
    case Pass => Finalised(env, j.world, row, Passed, row.round, state)
    case Fail => Finalised(env, j.world, row, Failed, row.round, state)
    case NeedsRevision =>
      if row.round < row.maxRounds then Advance(env, j.world, row, row.round + 1, state)
      else Finalised(env, j.world, row, Revise, row.round, state)
  }

  // A resume that finds the pending job finished; `end` is how it did.
  function Consume(env: Env, w: World, run: RunRow, job: nat, end: JobEnd): (World, RunRow) {
    var report := BuildReport(end);
    var j := Judge(env, w, run.round, run.state.patch, job, report);
    Decided(env, j, run.(step := Some(QaJudge)), run.state.(lastReport := ReportText(env, job, report), lastReview := j.review))
  }

  function Resumed(env: Env, ends: nat -> Option<JobEnd>, w: World, run: RunRow): (World, RunRow) {
    if Resumable(run, ends) then Consume(env, w, run, run.pending.value, ends(run.pending.value).value) else (w, run)
  }

  function Cancelled(run: RunRow): RunRow {
    if run.status.Terminal() then run else run.(status := RunCancelled, pending := None, finished := true)
  }

  // ---- What each method answers, told from the messages it adds ----

  // The run has ended in this round, and the session with it.
  ghost predicate ClosedAs(w: World, run: RunRow, round: nat, status: RunStatus) {
    && run.status == status && run.round == round && run.pending == None && run.finished
    && w.rounds == round
    && w.status == (if status == RunPassed then Passed else if status == RunFailed then Failed else Revise)
  }

  // A round up to its job: a blocked patch ends the run, forbidden or for want of approval; another enqueues and waits.
  ghost predicate RoundBegins(env: Env, before: seq<Message>, jobs: nat, round: nat, approved: bool, w: World, run: RunRow) {
    var n := |before|;
    && |w.messages| > n && w.messages[..n] == before && IsAnswer(w.messages[n], CodeImplementer, round)
    && var s := env.scan(TextOf(w.messages[n].output, PatchText), approved);
       if s.blocking then w.jobs == jobs && ClosedAs(w, run, round, if s.fatal then RunFailed else RunNeedsRevision)
       else w.jobs == jobs + 1 && run.status == WaitingForWorker && run.pending == Some(jobs) && run.round == round && |w.messages| == n + 1
  }

  // A resume that finds its job ended: the report, the review and the judge's answer are added. A pass of a green report
  // passes the run in its round, a fail fails it; anything else begins the next round, or ends the run after the last.
  ghost predicate ResumeFollows(env: Env, before: World, run: RunRow, green: bool, w: World, run': RunRow) {
    var n := |before.messages|;
    && |w.messages| >= n + 3 && w.messages[..n] == before.messages
    && IsReport(w.messages[n], run.round, green) && IsAnswer(w.messages[n + 1], CodeReviewer, run.round)
    && IsAnswer(w.messages[n + 2], QaJudge, run.round)
    && var judge := w.messages[n + 2].output.status;
       if judge == Pass && green then ClosedAs(w, run', run.round, RunPassed) && w.jobs == before.jobs
       else if judge == Fail then ClosedAs(w, run', run.round, RunFailed) && w.jobs == before.jobs
       else if run.round < run.maxRounds then RoundBegins(env, w.messages[..n + 3], before.jobs, run.round + 1, run.state.approved, w, run')
       else ClosedAs(w, run', run.round, RunNeedsRevision) && w.jobs == before.jobs
  }

  lemma AdvanceMeans(env: Env, w: World, run: RunRow, round: nat, state: State)
    ensures var (w', run') := Advance(env, w, run, round, state);
            RoundBegins(env, w.messages, w.jobs, round, state.approved, w', run')
  {
    var (w1, patch) := Implement(env, w, round, state.plan, state.critique, state.lastReview);
    assert w1.messages[..|w.messages|] == w.messages && IsAnswer(w1.messages[|w.messages|], CodeImplementer, round);
    var (w', run') := Advance(env, w, run, round, state);
    assert w'.messages[..|w.messages|] == w.messages;
  }

  lemma SamePrefix(before: seq<Message>, judged: seq<Message>, after: seq<Message>)
    requires |judged| == |before| + 3 && judged[..|before|] == before && |after| >= |judged| && after[..|judged|] == judged
    ensures after[..|before|] == before && after[|before|] == judged[|before|]
    ensures after[|before| + 1] == judged[|before| + 1] && after[|before| + 2] == judged[|before| + 2]
  {
    assert after[..|before|] == after[..|judged|][..|before|];
  }

  // The world of a verdict, and what is decided on it: another round, or the end.
  lemma AnotherRoundMeans(env: Env, before: World, run: RunRow, green: bool, j: Judged, row: RunRow, state: State, w': World, run': RunRow)
    requires JudgedBy(before.messages, j.world.messages, run.round, green, j.verdict) && j.world.jobs == before.jobs
    requires row.round == run.round < run.maxRounds == row.maxRounds && state.approved == run.state.approved
    requires j.verdict == NeedsRevision && (w', run') == Advance(env, j.world, row, row.round + 1, state)
    ensures ResumeFollows(env, before, run, green, w', run')
  {
    AdvanceMeans(env, j.world, row, row.round + 1, state);
    SamePrefix(before.messages, j.world.messages, w'.messages);
  }

  lemma LastRoundMeans(env: Env, before: World, run: RunRow, green: bool, j: Judged, row: RunRow, state: State,
                       status: SessionStatus, w': World, run': RunRow)
    requires JudgedBy(before.messages, j.world.messages, run.round, green, j.verdict) && j.world.jobs == before.jobs
    requires row.round == run.round && row.maxRounds == run.maxRounds
    requires if j.verdict == Pass then status == Passed else if j.verdict == Fail then status == Failed
             else status == Revise && run.round >= run.maxRounds
    requires (w', run') == Finalised(env, j.world, row, status, row.round, state)
    ensures ResumeFollows(env, before, run, green, w', run')
  {
  }

  function StatusOf(verdict: Verdict): SessionStatus {
    match verdict case Pass => Passed case Fail => Failed case NeedsRevision => Revise
  }

  lemma DecidedCases(env: Env, j: Judged, row: RunRow, state: State)
    ensures Decided(env, j, row, state) ==
            if j.verdict == NeedsRevision && row.round < row.maxRounds then Advance(env, j.world, row, row.round + 1, state)
            else Finalised(env, j.world, row, StatusOf(j.verdict), row.round, state)
  {
  }

  lemma DecidedMeans(env: Env, before: World, run: RunRow, green: bool, j: Judged, row: RunRow, state: State, w': World, run': RunRow)
    requires JudgedBy(before.messages, j.world.messages, run.round, green, j.verdict) && j.world.jobs == before.jobs
    requires row.round == run.round && row.maxRounds == run.maxRounds && state.approved == run.state.approved
    requires (w', run') == if j.verdict == NeedsRevision && row.round < row.maxRounds then Advance(env, j.world, row, row.round + 1, state)
                           else Finalised(env, j.world, row, StatusOf(j.verdict), row.round, state)
    ensures ResumeFollows(env, before, run, green, w', run')
  {
    if j.verdict == NeedsRevision && row.round < row.maxRounds {
      AnotherRoundMeans(env, before, run, green, j, row, state, w', run');
    } else {
      LastRoundMeans(env, before, run, green, j, row, state, StatusOf(j.verdict), w', run');
    }
  }

  lemma ConsumeMeans(env: Env, w: World, run: RunRow, job: nat, end: JobEnd, w': World, run': RunRow)
    requires (w', run') == Consume(env, w, run, job, end)
    ensures ResumeFollows(env, w, run, end.passed, w', run')
  {
    var report := BuildReport(end);
    JudgeMeans(env, w, run.round, run.state.patch, job, report);
    var j := Judge(env, w, run.round, run.state.patch, job, report);
    DecidedCases(env, j, run.(step := Some(QaJudge)),
                 run.state.(lastReport := ReportText(env, job, report), lastReview := j.review));
    DecidedMeans(env, w, run, end.passed, j, run.(step := Some(QaJudge)),
                 run.state.(lastReport := ReportText(env, job, report), lastReview := j.review), w', run');
  }

  class AsyncOrchestrator {
    const store: Store
    const maxRounds: int
    var run: RunRow

    constructor (store: Store, requested: Option<int>)
      ensures this.store == store
      ensures maxRounds == (if requested.Some? && requested.value < 3 then requested.value else 3)
    {
      this.store := store;
      maxRounds := if requested.Some? && requested.value < MAX_ROUNDS then requested.value else MAX_ROUNDS;
      run := RunRow(Active, 1, 0, None, None, State("", "", "", "", "", "", "", false), false);
    }

    method Finalise(status: SessionStatus, round: nat, state: State)
      modifies this`run, store
      ensures (store.State(), run) == Finalised(store.env, old(store.State()), old(run), status, round, state)
      ensures Scrubs(store.env, state, run.state)
    {
      store.status, store.rounds := status, round;
      run := run.(status := RunStatusOf(status), step := None, pending := None, finished := true, state := RedactState(store.env, state));
    }

    method ImplementAndEnqueue(round: nat, state: State)
      modifies this`run, store
      ensures (store.State(), run) == Advance(store.env, old(store.State()), old(run), round, state)
      ensures RoundBegins(store.env, old(store.messages), old(store.jobs), round, state.approved, store.State(), run)
      ensures Scrubs(store.env, state.(patch := TextOf(store.messages[|old(store.messages)|].output, PatchText)), run.state)
    {
      AdvanceMeans(store.env, store.State(), run, round, state);
      store.rounds := round;
      run := run.(round := round, step := Some(CodeImplementer), state := RedactState(store.env, state));
      var patch := store.RunStep(PatchCall(round, state.plan, state.critique, state.lastReview));
      var patched := state.(patch := TextOf(patch, PatchText));
      var s := store.env.scan(patched.patch, state.approved);
      if s.blocking {
        store.RecordSystemMessage(CodeImplementer, round, ViolationOutput(store.env, s));
        Finalise(if s.fatal then Failed else Revise, round, patched);
        return;
      }
      var job := store.EnqueueTestJob();
      run := run.(status := WaitingForWorker, step := Some(TestRunner), pending := Some(job), state := RedactState(store.env, patched));
    }

    method Start(request: string, approved: bool)
      requires store.State() == NEW_SESSION
      modifies this`run, store
      ensures (store.State(), run) == Started(store.env, maxRounds, request, approved)
      ensures |store.messages| > 3 && RoundBegins(store.env, store.messages[..3], 0, 1, approved, store.State(), run)
      ensures IsAnswer(store.messages[0], ProductSpec, 0) && IsAnswer(store.messages[1], CriticalReview, 0)
              && IsAnswer(store.messages[2], ImplementationPlan, 0)
      ensures run.maxRounds == maxRounds
    {
      run := NewRun(store.env, maxRounds, request, approved);
      var t := store.RunPrologue(request);
      ghost var asked := store.messages;
      ImplementAndEnqueue(1, EmptyState(store.env, request, approved).(spec := t.spec, critique := t.critique, plan := t.plan));
      assert |asked| == 3 && store.messages[..3] == asked;
      assert forall i :: 0 <= i < 3 ==> store.messages[i] == asked[i];
    }

    // What follows the guarded verdict of a round: the end of the run, or the next round.
    method Decide(verdict: Verdict, state: State)
      modifies this`run, store
      ensures (store.State(), run) == Decided(store.env, Judged(old(store.State()), state.lastReview, verdict), old(run), state)
    {
      var round := run.round;
      if verdict == Pass {
        Finalise(Passed, round, state);
      } else if verdict == Fail {
        Finalise(Failed, round, state);
      } else if round < run.maxRounds {
        ImplementAndEnqueue(round + 1, state);
      } else {
        Finalise(Revise, round, state);
      }
    }

    // One call of resume; `ends` is the job table as it is read.
    method Resume(ends: nat -> Option<JobEnd>) returns (stillWaiting: bool)
      modifies this`run, store
      ensures (store.State(), run) == Resumed(store.env, ends, old(store.State()), old(run))
      ensures stillWaiting <==> !old(run).status.Terminal() && !Resumable(old(run), ends)
      ensures if old(run).status == WaitingForWorker && old(run).pending.Some? && ends(old(run).pending.value).Some?
              then ResumeFollows(store.env, old(store.State()), old(run), ends(old(run).pending.value).value.passed, store.State(), run)
              else store.State() == old(store.State()) && run == old(run)
    {
      if run.status.Terminal() { return false; }
      if run.status != WaitingForWorker || run.pending == None { return true; }
      var job := run.pending.value;
      if ends(job) == None { return true; }
      ghost var (w', run') := Consume(store.env, store.State(), run, job, ends(job).value);
      ConsumeMeans(store.env, store.State(), run, job, ends(job).value, w', run');
      var state, report := run.state, BuildReport(ends(job).value);
      var review, verdict := store.RunJudgement(run.round, state.patch, job, report);
      run := run.(step := Some(QaJudge));
      Decide(verdict, state.(lastReport := ReportText(store.env, job, report), lastReview := review));
      return false;
    }

    method Cancel() returns (cancelled: bool)
      modifies this`run
      ensures run == Cancelled(old(run)) && (cancelled <==> !old(run).status.Terminal())
      ensures cancelled <==> old(run).status == Active || old(run).status == WaitingForWorker
      ensures if cancelled then run == old(run).(status := RunCancelled, pending := None, finished := true) else run == old(run)
    {
      if run.status.Terminal() { return false; }
      run := run.(status := RunCancelled, pending := None, finished := true);
      return true;
    }
  }
}
