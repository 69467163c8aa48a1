/**
 * The resumable orchestrator refines the loop: started and resumed once per finished job, it asks the
 * same questions and records the same messages, exactly when redaction keeps the texts it reads back.
 */
module OrchestrationRefinement {
  import opened Prelude
  import opened Orchestration
  import opened Orchestrator
  import opened AsyncOrchestrator

  // `n` resumes in a row.
  function Drive(env: Env, ends: nat -> Option<JobEnd>, w: World, run: RunRow, n: nat): (World, RunRow)
    decreases n
  {
    if n == 0 then (w, run)
    else
      var (w', run') := Resumed(env, ends, w, run);
      Drive(env, ends, w', run', n - 1)
  }

  // Every text that is persisted and read back in the rounds after `round` survives redaction: the
  // patch of each tested round, and plan and critique when another round follows.
  predicate TextsKept(env: Env, ends: nat -> Option<JobEnd>, approved: bool, max: int,
                      w: World, round: nat, t: Texts, lastReview: string)
    decreases max - round
  {
    round < max ==>
      var (w1, patch) := Implement(env, w, round + 1, t.plan, t.critique, lastReview);
      !env.scan(patch, approved).blocking ==>
        && env.redact(patch) == patch
        && match Tested(env, w1, round + 1, patch, ends(w1.jobs))
           case Ended(_, _) => true
           case Again(w', review) =>
             round + 1 < max ==>
               && env.redact(t.plan) == t.plan && env.redact(t.critique) == t.critique
               && TextsKept(env, ends, approved, max, w', round + 1, t, review)
  }

  predicate SessionKept(env: Env, ends: nat -> Option<JobEnd>, approved: bool, max: int, request: string) {
    var (w, t) := Prologue(env, NEW_SESSION, request);
    TextsKept(env, ends, approved, max, w, 0, t, "")
  }

  // The row of a run that ended as the session `w` did.
  predicate EndsAs(row: RunRow, w: World) {
    row.status == RunStatusOf(w.status) && row.round == w.rounds && row.pending == None && row.finished
  }

  // The state at the start of a round holds the texts the loop has in its variables.
  predicate Carries(state: State, t: Texts, lastReview: string, approved: bool) {
    state.plan == t.plan && state.critique == t.critique && state.lastReview == lastReview && state.approved == approved
  }

  // ---- Calls only grow ----

  lemma JudgeCalls(env: Env, w: World, round: nat, patch: string, job: nat, report: Report)
    ensures var j := Judge(env, w, round, patch, job, report);
            && j.world.jobs == w.jobs && w.calls <= j.world.calls && |j.world.calls| == |w.calls| + 2
            && j.world.calls[|w.calls|].prompt == ForReview(patch, ReportText(env, job, report))
  {
  }

  lemma {:induction false} LoopGrows(env: Env, ends: nat -> Option<JobEnd>, approved: bool, max: int,
                                     w: World, round: nat, t: Texts, lastReview: string)
    ensures var w' := Rounds(env, ends, approved, max, w, round, t, lastReview); w.calls <= w'.calls && w.jobs <= w'.jobs
    decreases max - round
  {
    if round < max {
      var (w1, patch) := Implement(env, w, round + 1, t.plan, t.critique, lastReview);
      if !env.scan(patch, approved).blocking {
        JudgeCalls(env, w1.(jobs := w1.jobs + 1), round + 1, patch, w1.jobs, ReportOf(ends(w1.jobs), env.timeoutNote(w1.jobs)));
        match Tested(env, w1, round + 1, patch, ends(w1.jobs))
        case Again(w', review) => LoopGrows(env, ends, approved, max, w', round + 1, t, review);
        case Ended(_, _) =>
      }
    }
  }

  lemma AdvanceGrows(env: Env, w: World, run: RunRow, round: nat, state: State)
    ensures var w' := Advance(env, w, run, round, state).0;
            w.calls <= w'.calls && |w'.calls| == |w.calls| + 1
              && w'.calls[|w.calls|] == PatchCall(round, state.plan, state.critique, state.lastReview)
  {
  }

  lemma ConsumeGrows(env: Env, w: World, run: RunRow, job: nat, end: JobEnd)
    ensures var j, w' := Judge(env, w, run.round, run.state.patch, job, BuildReport(end)), Consume(env, w, run, job, end).0;
            w.calls <= j.world.calls <= w'.calls
  {
    var report := BuildReport(end);
    JudgeCalls(env, w, run.round, run.state.patch, job, report);
    var j := Judge(env, w, run.round, run.state.patch, job, report);
    AdvanceGrows(env, j.world, run.(step := Some(QaJudge)), run.round + 1,
                 run.state.(lastReport := ReportText(env, job, report), lastReview := j.review));
  }

  lemma {:induction false} DriveGrows(env: Env, ends: nat -> Option<JobEnd>, w: World, run: RunRow, n: nat)
    ensures w.calls <= Drive(env, ends, w, run, n).0.calls
    decreases n
  {
    if n > 0 {
      if Resumable(run, ends) { ConsumeGrows(env, w, run, run.pending.value, ends(run.pending.value).value); }
      var (w', run') := Resumed(env, ends, w, run);
      DriveGrows(env, ends, w', run', n - 1);
    }
  }

  // ---- One tested round, side by side ----

  // The loop's continuation after the tests of round `r`.
  function LoopAfterTests(env: Env, ends: nat -> Option<JobEnd>, approved: bool, max: int,
                          r: nat, t: Texts, e: RoundEnd): World
  {
    match e
    case Ended(w', status) => Close(w', status, r)
    case Again(w', review) => Rounds(env, ends, approved, max, w', r, t, review)
  }

  // A resume went on to the round after `r`, from the loop's world and with the loop's texts.
  ghost predicate EntersRound(env: Env, approved: bool, max: int, r: nat, t: Texts,
                              world: World, review: string, w': World, row': RunRow, state: State, mid: RunRow)
  {
    Carries(state, t, review, approved) && mid.maxRounds == max && (w', row') == Advance(env, world, mid, r + 1, state)
  }

  // What one resume after the tests of round `r` has to show, given how the loop's round ended.
  ghost predicate MatchesRound(env: Env, ends: nat -> Option<JobEnd>, approved: bool, max: int,
                               r: nat, t: Texts, e: RoundEnd, w': World, row': RunRow)
  {
    if e.Again? && r < max then
      exists state, mid :: EntersRound(env, approved, max, r, t, e.world, e.review, w', row', state, mid)
    else w' == LoopAfterTests(env, ends, approved, max, r, t, e) && EndsAs(row', w')
  }

  lemma FollowsTests(env: Env, ends: nat -> Option<JobEnd>, approved: bool, max: int,
                     w1: World, row: RunRow, patch: string, t: Texts)
    requires ends(w1.jobs).Some?
    requires row.status == WaitingForWorker && row.pending == Some(w1.jobs) && 1 <= row.round <= max == row.maxRounds
    requires row.state.patch == patch && row.state.approved == approved
    requires Tested(env, w1, row.round, patch, ends(w1.jobs)).Again? && row.round < max ==>
               row.state.plan == t.plan && row.state.critique == t.critique
    ensures var e := Tested(env, w1, row.round, patch, ends(w1.jobs));
            var (w', row') := Resumed(env, ends, w1.(jobs := w1.jobs + 1), row);
            MatchesRound(env, ends, approved, max, row.round, t, e, w', row')
  {
    var report := BuildReport(ends(w1.jobs).value);
    var j := Judge(env, w1.(jobs := w1.jobs + 1), row.round, patch, w1.jobs, report);
    var state := row.state.(lastReport := ReportText(env, w1.jobs, report), lastReview := j.review);
    var mid := row.(step := Some(QaJudge));
    if j.verdict == NeedsRevision && row.round < max {
      var (w', row') := Resumed(env, ends, w1.(jobs := w1.jobs + 1), row);
      assert EntersRound(env, approved, max, row.round, t, j.world, j.review, w', row', state, mid);
    }
  }

  // ---- Whole runs ----

  ghost predicate AllEnd(ends: nat -> Option<JobEnd>) {
    forall k: nat :: ends(k).Some?
  }

  // From world `w` and row `run`, resuming once per job of the loop's remaining run `goal` ends as it does.
  ghost predicate ReachedBy(env: Env, ends: nat -> Option<JobEnd>, w: World, run: RunRow, jobsSoFar: nat, goal: World) {
    && jobsSoFar <= goal.jobs
    && Drive(env, ends, w, run, goal.jobs - jobsSoFar).0 == goal
      && EndsAs(Drive(env, ends, w, run, goal.jobs - jobsSoFar).1, goal)
  }

  lemma ResumeThenReach(env: Env, ends: nat -> Option<JobEnd>, w: World, run: RunRow,
                        w': World, run': RunRow, jobsSoFar: nat, goal: World)
    requires Resumed(env, ends, w, run) == (w', run') && ReachedBy(env, ends, w', run', jobsSoFar + 1, goal)
    ensures ReachedBy(env, ends, w, run, jobsSoFar, goal)
  {
    var n := goal.jobs - jobsSoFar;
    assert Drive(env, ends, w, run, n) == Drive(env, ends, w', run', n - 1);
  }

  lemma TestedJobs(env: Env, w1: World, r: nat, patch: string, end: Option<JobEnd>)
    ensures Tested(env, w1, r, patch, end).world.jobs == w1.jobs + 1
  {
  }

  // What `Advance` leaves, next to the loop's own first half of the round.
  lemma AdvanceShape(env: Env, w: World, run: RunRow, r: nat, state: State,
                     t: Texts, lastReview: string, approved: bool)
    requires Carries(state, t, lastReview, approved)
    ensures var (w1, patch) := Implement(env, w, r, t.plan, t.critique, lastReview);
            var (wA, row) := Advance(env, w, run, r, state);
            var s := env.scan(patch, approved);
            && w1.jobs == w.jobs
            && (if s.blocking then wA == Close(Blocked(env, w1, r, s), if s.fatal then Failed else Revise, r) && EndsAs(row, wA) && wA.jobs == w.jobs
                else && wA == w1.(jobs := w1.jobs + 1) && row.status == WaitingForWorker && row.pending == Some(w1.jobs)
                     && row.round == r && row.maxRounds == run.maxRounds && row.state.approved == approved
                     && row.state.patch == env.redact(patch) && row.state.plan == env.redact(t.plan)
                       && row.state.critique == env.redact(t.critique))
  {
  }

  lemma LoopShape(env: Env, ends: nat -> Option<JobEnd>, approved: bool, max: int,
                  w: World, r: nat, t: Texts, lastReview: string)
    requires 1 <= r <= max
    ensures var (w1, patch) := Implement(env, w, r, t.plan, t.critique, lastReview);
            var s := env.scan(patch, approved);
            Rounds(env, ends, approved, max, w, r - 1, t, lastReview) ==
              if s.blocking then Close(Blocked(env, w1, r, s), if s.fatal then Failed else Revise, r)
              else LoopAfterTests(env, ends, approved, max, r, t, Tested(env, w1, r, patch, ends(w1.jobs)))
  {
  }

  lemma RoundOver(env: Env, ends: nat -> Option<JobEnd>, approved: bool, max: int,
                  r: nat, t: Texts, e: RoundEnd, row': RunRow)
    requires !(e.Again? && r < max) && EndsAs(row', LoopAfterTests(env, ends, approved, max, r, t, e))
    ensures var goal := LoopAfterTests(env, ends, approved, max, r, t, e); ReachedBy(env, ends, goal, row', e.world.jobs, goal)
  {
    assert LoopAfterTests(env, ends, approved, max, r, t, e) == Close(e.world, if e.Again? then Revise else e.status, r);
  }

  lemma {:induction false} NextRound(env: Env, ends: nat -> Option<JobEnd>, approved: bool, max: int, r: nat,
                                     t: Texts, e: RoundEnd, w': World, row': RunRow, state: State, mid: RunRow)
    requires AllEnd(ends) && 1 <= r < max && e.Again?
             && EntersRound(env, approved, max, r, t, e.world, e.review, w', row', state, mid)
    requires TextsKept(env, ends, approved, max, e.world, r, t, e.review)
    ensures ReachedBy(env, ends, w', row', e.world.jobs, LoopAfterTests(env, ends, approved, max, r, t, e))
    decreases max - r, 0
  {
    Follows(env, ends, approved, max, e.world, mid, r + 1, state, t, e.review);
  }

  lemma {:induction false} FollowsRound(env: Env, ends: nat -> Option<JobEnd>, approved: bool, max: int,
                                        r: nat, t: Texts, e: RoundEnd, w': World, row': RunRow)
    requires AllEnd(ends) && 1 <= r <= max && MatchesRound(env, ends, approved, max, r, t, e, w', row')
    requires e.Again? && r < max ==> TextsKept(env, ends, approved, max, e.world, r, t, e.review)
    ensures ReachedBy(env, ends, w', row', e.world.jobs, LoopAfterTests(env, ends, approved, max, r, t, e))
    decreases max - r, 1
  {
    if e.Again? && r < max {
      var state, mid :| EntersRound(env, approved, max, r, t, e.world, e.review, w', row', state, mid);
      NextRound(env, ends, approved, max, r, t, e, w', row', state, mid);
    } else {
      RoundOver(env, ends, approved, max, r, t, e, row');
    }
  }

  lemma {:induction false} FollowsFromTests(env: Env, ends: nat -> Option<JobEnd>, approved: bool, max: int,
                                            w1: World, row: RunRow, patch: string,
                                            t: Texts, e: RoundEnd, w': World, row': RunRow)
    requires AllEnd(ends) && row.status == WaitingForWorker && row.pending == Some(w1.jobs)
             && 1 <= row.round <= max == row.maxRounds
    requires row.state.patch == patch && row.state.approved == approved && e == Tested(env, w1, row.round, patch, ends(w1.jobs))
    requires (w', row') == Resumed(env, ends, w1.(jobs := w1.jobs + 1), row)
    requires e.Again? && row.round < max ==>
               row.state.plan == t.plan && row.state.critique == t.critique
                 && TextsKept(env, ends, approved, max, e.world, row.round, t, e.review)
    ensures ReachedBy(env, ends, w', row', w1.jobs + 1, LoopAfterTests(env, ends, approved, max, row.round, t, e))
    decreases max - row.round, 2
  {
    FollowsTests(env, ends, approved, max, w1, row, patch, t);
    TestedJobs(env, w1, row.round, patch, ends(w1.jobs));
    FollowsRound(env, ends, approved, max, row.round, t, e, w', row');
  }

  lemma {:induction false} Follows(env: Env, ends: nat -> Option<JobEnd>, approved: bool, max: int,
                                   w: World, run: RunRow, r: nat, state: State, t: Texts, lastReview: string)
    requires AllEnd(ends) && 1 <= r <= max == run.maxRounds && Carries(state, t, lastReview, approved)
    requires TextsKept(env, ends, approved, max, w, r - 1, t, lastReview)
    ensures var (wA, row) := Advance(env, w, run, r, state);
            ReachedBy(env, ends, wA, row, w.jobs, Rounds(env, ends, approved, max, w, r - 1, t, lastReview))
    decreases max - r, 3
  {
    var (w1, patch) := Implement(env, w, r, t.plan, t.critique, lastReview);
    var (wA, row) := Advance(env, w, run, r, state);
    AdvanceShape(env, w, run, r, state, t, lastReview, approved);
    LoopShape(env, ends, approved, max, w, r, t, lastReview);
    if !env.scan(patch, approved).blocking {
      var e := Tested(env, w1, r, patch, ends(w1.jobs));
      var (w', row') := Resumed(env, ends, wA, row);
      FollowsFromTests(env, ends, approved, max, w1, row, patch, t, e, w', row');
      ResumeThenReach(env, ends, wA, row, w', row', w.jobs, LoopAfterTests(env, ends, approved, max, r, t, e));
    }
  }

  // ---- Where a text is changed by redaction, the questions differ ----

  ghost predicate Diverged(env: Env, ends: nat -> Option<JobEnd>, w: World, run: RunRow, jobsSoFar: nat, goal: World) {
    jobsSoFar <= goal.jobs && Drive(env, ends, w, run, goal.jobs - jobsSoFar).0.calls != goal.calls
  }

  lemma ResumeThenDiverge(env: Env, ends: nat -> Option<JobEnd>, w: World, run: RunRow,
                          w': World, run': RunRow, jobsSoFar: nat, goal: World)
    requires Resumed(env, ends, w, run) == (w', run') && Diverged(env, ends, w', run', jobsSoFar + 1, goal)
    ensures Diverged(env, ends, w, run, jobsSoFar, goal)
  {
    var n := goal.jobs - jobsSoFar;
    assert Drive(env, ends, w, run, n) == Drive(env, ends, w', run', n - 1);
  }

  lemma SplitHere(env: Env, ends: nat -> Option<JobEnd>, w': World, run': RunRow, jobs: nat, goal: World, at: nat)
    requires jobs <= goal.jobs && at < |w'.calls| && at < |goal.calls| && w'.calls[at] != goal.calls[at]
    ensures Diverged(env, ends, w', run', jobs, goal)
  {
    DriveGrows(env, ends, w', run', goal.jobs - jobs);
  }

  lemma LoopAsksForPatch(env: Env, ends: nat -> Option<JobEnd>, approved: bool, max: int,
                         w: World, round: nat, t: Texts, lastReview: string)
    requires round < max
    ensures var goal := Rounds(env, ends, approved, max, w, round, t, lastReview);
            |w.calls| < |goal.calls| && goal.calls[|w.calls|] == PatchCall(round + 1, t.plan, t.critique, lastReview)
  {
    LoopShape(env, ends, approved, max, w, round + 1, t, lastReview);
    var (w1, patch) := Implement(env, w, round + 1, t.plan, t.critique, lastReview);
    if !env.scan(patch, approved).blocking {
      LoopAfterTestsGrows(env, ends, approved, max, w1, round + 1, patch, t);
    }
  }

  lemma LoopAfterTestsGrows(env: Env, ends: nat -> Option<JobEnd>, approved: bool, max: int,
                            w1: World, r: nat, patch: string, t: Texts)
    ensures var goal := LoopAfterTests(env, ends, approved, max, r, t, Tested(env, w1, r, patch, ends(w1.jobs)));
            && w1.calls <= goal.calls && |w1.calls| < |goal.calls| && w1.jobs + 1 <= goal.jobs
            && goal.calls[|w1.calls|].prompt == ForReview(patch, ReportText(env, w1.jobs, ReportOf(ends(w1.jobs), env.timeoutNote(w1.jobs))))
  {
    JudgeCalls(env, w1.(jobs := w1.jobs + 1), r, patch, w1.jobs, ReportOf(ends(w1.jobs), env.timeoutNote(w1.jobs)));
    var e := Tested(env, w1, r, patch, ends(w1.jobs));
    if e.Again? { LoopGrows(env, ends, approved, max, e.world, r, t, e.review); }
  }

  lemma ResumeAsksForReview(env: Env, ends: nat -> Option<JobEnd>, w: World, run: RunRow)
    requires Resumable(run, ends)
    ensures var w', job := Resumed(env, ends, w, run).0, run.pending.value;
            && |w.calls| < |w'.calls|
            && w'.calls[|w.calls|].prompt == ForReview(run.state.patch, ReportText(env, job, BuildReport(ends(job).value)))
  {
    var job := run.pending.value;
    JudgeCalls(env, w, run.round, run.state.patch, job, BuildReport(ends(job).value));
    ConsumeGrows(env, w, run, job, ends(job).value);
  }

  // The next round starts from other texts than the loop's.
  lemma OtherTextsDiverge(env: Env, ends: nat -> Option<JobEnd>, approved: bool, max: int,
                          r: nat, t: Texts, kept: Texts, e: RoundEnd, w': World, row': RunRow)
    requires 1 <= r < max && e.Again? && (kept.plan != t.plan || kept.critique != t.critique)
    requires MatchesRound(env, ends, approved, max, r, kept, e, w', row')
    ensures Diverged(env, ends, w', row', e.world.jobs, LoopAfterTests(env, ends, approved, max, r, t, e))
  {
    var state, mid :| EntersRound(env, approved, max, r, kept, e.world, e.review, w', row', state, mid);
    AdvanceGrows(env, e.world, mid, r + 1, state);
    LoopAsksForPatch(env, ends, approved, max, e.world, r, t, e.review);
    LoopGrows(env, ends, approved, max, e.world, r, t, e.review);
    SplitHere(env, ends, w', row', e.world.jobs, LoopAfterTests(env, ends, approved, max, r, t, e), |e.world.calls|);
  }

  lemma {:induction false} SameTextsDiverge(env: Env, ends: nat -> Option<JobEnd>, approved: bool, max: int,
                                            r: nat, t: Texts, e: RoundEnd, w': World, row': RunRow)
    requires AllEnd(ends) && 1 <= r < max && e.Again? && MatchesRound(env, ends, approved, max, r, t, e, w', row')
    requires !TextsKept(env, ends, approved, max, e.world, r, t, e.review)
    ensures Diverged(env, ends, w', row', e.world.jobs, LoopAfterTests(env, ends, approved, max, r, t, e))
    decreases max - r, 0
  {
    var state, mid :| EntersRound(env, approved, max, r, t, e.world, e.review, w', row', state, mid);
    Diverges(env, ends, approved, max, e.world, mid, r + 1, state, t, e.review);
  }

  lemma OtherPatchDiverges(env: Env, ends: nat -> Option<JobEnd>, approved: bool, max: int,
                           w1: World, row: RunRow, patch: string, t: Texts, w': World, row': RunRow)
    requires Resumable(row, ends) && row.pending == Some(w1.jobs) && row.state.patch != patch
    requires (w', row') == Resumed(env, ends, w1.(jobs := w1.jobs + 1), row)
    ensures Diverged(env, ends, w', row', w1.jobs + 1, LoopAfterTests(env, ends, approved, max, row.round, t, Tested(env, w1, row.round, patch, ends(w1.jobs))))
  {
    LoopAfterTestsGrows(env, ends, approved, max, w1, row.round, patch, t);
    ResumeAsksForReview(env, ends, w1.(jobs := w1.jobs + 1), row);
    SplitHere(env, ends, w', row', w1.jobs + 1,
              LoopAfterTests(env, ends, approved, max, row.round, t, Tested(env, w1, row.round, patch, ends(w1.jobs))), |w1.calls|);
  }

  lemma {:induction false} DivergesAfterTests(env: Env, ends: nat -> Option<JobEnd>,
                                              approved: bool, max: int, w1: World, row: RunRow,
                                              t: Texts, e: RoundEnd, w': World, row': RunRow)
    requires AllEnd(ends) && row.status == WaitingForWorker && row.pending == Some(w1.jobs)
             && 1 <= row.round < max == row.maxRounds
    requires row.state.approved == approved && e == Tested(env, w1, row.round, row.state.patch, ends(w1.jobs)) && e.Again?
    requires (w', row') == Resumed(env, ends, w1.(jobs := w1.jobs + 1), row)
    requires row.state.plan != t.plan || row.state.critique != t.critique || !TextsKept(env, ends, approved, max, e.world, row.round, t, e.review)
    ensures Diverged(env, ends, w', row', w1.jobs + 1, LoopAfterTests(env, ends, approved, max, row.round, t, e))
    decreases max - row.round, 1
  {
    TestedJobs(env, w1, row.round, row.state.patch, ends(w1.jobs));
    var kept := Texts(t.spec, row.state.critique, row.state.plan);
    FollowsTests(env, ends, approved, max, w1, row, row.state.patch, kept);
    if kept != t {
      OtherTextsDiverge(env, ends, approved, max, row.round, t, kept, e, w', row');
    } else {
      SameTextsDiverge(env, ends, approved, max, row.round, t, e, w', row');
    }
  }

  lemma {:induction false} Diverges(env: Env, ends: nat -> Option<JobEnd>, approved: bool, max: int,
                                    w: World, run: RunRow, r: nat, state: State, t: Texts, lastReview: string)
    requires AllEnd(ends) && 1 <= r <= max == run.maxRounds && Carries(state, t, lastReview, approved)
    requires !TextsKept(env, ends, approved, max, w, r - 1, t, lastReview)
    ensures var (wA, row) := Advance(env, w, run, r, state);
            Diverged(env, ends, wA, row, w.jobs, Rounds(env, ends, approved, max, w, r - 1, t, lastReview))
    decreases max - r, 2
  {
    var (w1, patch) := Implement(env, w, r, t.plan, t.critique, lastReview);
    var (wA, row) := Advance(env, w, run, r, state);
    AdvanceShape(env, w, run, r, state, t, lastReview, approved);
    LoopShape(env, ends, approved, max, w, r, t, lastReview);
    var e := Tested(env, w1, r, patch, ends(w1.jobs));
    var (w', row') := Resumed(env, ends, wA, row);
    if env.redact(patch) != patch {
      OtherPatchDiverges(env, ends, approved, max, w1, row, patch, t, w', row');
    } else {
      DivergesAfterTests(env, ends, approved, max, w1, row, t, e, w', row');
    }
    ResumeThenDiverge(env, ends, wA, row, w', row', w.jobs, LoopAfterTests(env, ends, approved, max, r, t, e));
  }

  /**
   * For any adapters, any job results and at least one round: started and resumed once per job of the
   * loop's run, the resumable orchestrator asks the same questions as the loop iff redaction keeps every
   * text it reads back; and then it also records the same messages and ends with the same status and round.
   */
  lemma AsyncRefinesSync(env: Env, ends: nat -> Option<JobEnd>, approved: bool, max: int, request: string)
    requires AllEnd(ends) && max >= 1
    ensures var loop := Session(env, ends, approved, max, request);
            var (w, row) := Started(env, max, request, approved);
            var (w', row') := Drive(env, ends, w, row, loop.jobs);
            && (w'.calls == loop.calls <==> SessionKept(env, ends, approved, max, request))
            && (SessionKept(env, ends, approved, max, request) ==> w' == loop && EndsAs(row', loop))
  {
    var (w0, t) := Prologue(env, NEW_SESSION, request);
    var state := EmptyState(env, request, approved).(spec := t.spec, critique := t.critique, plan := t.plan);
    if SessionKept(env, ends, approved, max, request) {
      Follows(env, ends, approved, max, w0, NewRun(env, max, request, approved), 1, state, t, "");
    } else {
      Diverges(env, ends, approved, max, w0, NewRun(env, max, request, approved), 1, state, t, "");
    }
  }

  /** With no round allowed the two always differ: the loop stops after the plan, `Start` still asks for a patch. */
  lemma NoRoundsDiffer(env: Env, ends: nat -> Option<JobEnd>, approved: bool, max: int, request: string, n: nat)
    requires max <= 0
    ensures var loop := Session(env, ends, approved, max, request);
            var (w, row) := Started(env, max, request, approved);
            |loop.calls| == 3 && loop.rounds == 0 && |Drive(env, ends, w, row, n).0.calls| >= 4
  {
    var (w0, t) := Prologue(env, NEW_SESSION, request);
    var state := EmptyState(env, request, approved).(spec := t.spec, critique := t.critique, plan := t.plan);
    AdvanceGrows(env, w0, NewRun(env, max, request, approved), 1, state);
    var (w, row) := Started(env, max, request, approved);
    DriveGrows(env, ends, w, row, n);
  }

  /** The class, started and resumed `n` times, goes through exactly the states of `Drive`. */
  method StartAndResume(o: AsyncOrchestrator, request: string, approved: bool, ends: nat -> Option<JobEnd>, n: nat)
    requires o.store.State() == NEW_SESSION
    modifies o`run, o.store
    ensures var (w, row) := Started(o.store.env, o.maxRounds, request, approved);
            (o.store.State(), o.run) == Drive(o.store.env, ends, w, row, n)
  {
    o.Start(request, approved);
    ghost var goal := Drive(o.store.env, ends, o.store.State(), o.run, n);
    for i := 0 to n
      invariant Drive(o.store.env, ends, o.store.State(), o.run, n - i) == goal
    {
      var waiting := o.Resume(ends);
    }
  }
}
