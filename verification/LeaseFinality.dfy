/**
 * Who can still write a job's outcome: exactly when stale executions are harmless, and
 * exactly when an ended row is final. The necessary sides are runs built for every parameter set.
 */
module LeaseFinality {
  import opened Prelude
  import opened JobTypes
  import opened LeaseProtocol
  import opened LeaseTheorems
  import Q = JobQueue
  import H = Heartbeat

  lemma Grow(p: Params, actions: seq<Action>, s: System, a: Action, s': System)
    requires Run(p, actions) == Some(s) && s.table.Valid() && Apply(p, s, a) == Some(s')
    ensures Run(p, actions + [a]) == Some(s') && s'.table.Valid()
  {
    var longer := actions + [a];
    assert longer[..|longer| - 1] == actions;
  }

  // ---- Executions that may still write ----

  // The ownership read lets this execution write, or has already done so.
  ghost predicate MayWrite(p: Params, s: System, e: ExecId)
    requires Active(s, e)
  {
    if p.atomicFinish || s.execs[e].owned == None then s.table.jobs[s.execs[e].job].leaseOwner == Some(s.execs[e].worker)
    else s.execs[e].owned.value
  }

  // An unfinished execution of the job that can record an outcome; an unparsable payload is rejected unchecked.
  ghost predicate Writer(p: Params, s: System, j: JobId, e: ExecId) {
    Active(s, e) && s.execs[e].job == j && (s.table.jobs[j].payloadValid ==> MayWrite(p, s, e))
  }

  ghost predicate HasWriter(p: Params, s: System, j: JobId) {
    exists e :: Writer(p, s, j, e)
  }

  ghost predicate Wrote(s: System, e: ExecId) {
    exists k :: 0 <= k < |s.writes| && s.writes[k].exec == e
  }

  ghost predicate EverRecords(p: Params, actions: seq<Action>, e: ExecId) {
    exists more :: Run(p, actions + more).Some? && Wrote(Run(p, actions + more).value, e)
  }

  // What a writer's own ending makes of the row, with the status and result it chooses.
  ghost predicate Recorded(s: System, s': System, e: ExecId, status: JobStatus, r: JobResult)
    requires Active(s, e)
  {
    var j := s.execs[e].job;
    && j in s'.table.jobs && s'.table.jobs[j].finishedAt == Some(s.now) && Wrote(s', e)
    && (if s.table.jobs[j].payloadValid
        then s'.table.jobs[j].status == FinalStatus(s.execs[e].monitor, status) && s'.table.jobs[j].result == Some(r)
        else s'.table.jobs[j].status == Failed)
  }

  lemma FinishRecords(p: Params, s: System, e: ExecId, status: JobStatus, r: JobResult)
    requires s.table.Valid() && Active(s, e) && s.table.jobs[s.execs[e].job].payloadValid
    requires status.Terminal() && PassedCheck(p, s, e)
    ensures var s' := Apply(p, s, Finish(e, status, r, true)); s'.Some? && Recorded(s, s'.value, e, status, r)
  {
    var s' := Apply(p, s, Finish(e, status, r, true)).value;
    assert s'.writes[|s.writes|].exec == e;
  }

  lemma RejectRecords(p: Params, s: System, e: ExecId, status: JobStatus, r: JobResult)
    requires s.table.Valid() && Active(s, e) && !s.table.jobs[s.execs[e].job].payloadValid
    ensures var s' := Apply(p, s, RejectPayload(e)); s'.Some? && Recorded(s, s'.value, e, status, r)
  {
    var s' := Apply(p, s, RejectPayload(e)).value;
    assert s'.writes[|s.writes|].exec == e;
  }

  // A writer can end at once: by rejecting, or by its ownership read and its final write.
  lemma WriterRecords(p: Params, actions: seq<Action>, s: System, e: ExecId, status: JobStatus, r: JobResult)
    returns (more: seq<Action>)
    requires Run(p, actions) == Some(s) && s.table.Valid() && status.Terminal()
    requires Active(s, e) && Writer(p, s, s.execs[e].job, e)
    ensures Run(p, actions + more).Some? && Recorded(s, Run(p, actions + more).value, e, status, r)
  {
    if !s.table.jobs[s.execs[e].job].payloadValid {
      RejectRecords(p, s, e, status, r);
      more := [RejectPayload(e)];
      Grow(p, actions, s, more[0], Apply(p, s, more[0]).value);
    } else if p.atomicFinish || s.execs[e].owned.Some? {
      FinishRecords(p, s, e, status, r);
      more := [Finish(e, status, r, true)];
      Grow(p, actions, s, more[0], Apply(p, s, more[0]).value);
    } else {
      var s1 := s.(execs := s.execs[e := s.execs[e].(owned := Some(true))]);
      Grow(p, actions, s, CheckOwner(e, true), s1);
      FinishRecords(p, s1, e, status, r);
      Grow(p, actions + [CheckOwner(e, true)], s1, Finish(e, status, r, true), Apply(p, s1, Finish(e, status, r, true)).value);
      more := [CheckOwner(e, true)] + [Finish(e, status, r, true)];
      assert actions + more == actions + [CheckOwner(e, true)] + [Finish(e, status, r, true)];
    }
  }

  // ---- A job whose first execution stalls until the lease is over ----

  function Late(p: Params): (t: int)
    ensures t >= 0 && t > p.leaseMs
  {
    if p.leaseMs < 0 then 0 else p.leaseMs + 1
  }

  function LeasedRow(p: Params, valid: bool, max: int, w: WorkerId): Job {
    Q.Leased(Q.NewJob(TestPatch, None, valid, 5, max, 0), w, 0, p.leaseMs)
  }

  // One job, leased at time 0 by worker `w` and left alone until it is late.
  function Stalled(p: Params, valid: bool, max: int, w: WorkerId): System {
    System(Late(p), Q.Table(map[0 := LeasedRow(p, valid, max, w)], [0]),
           map[0 := Execution(0, w, H.IDLE, p.intervalMs, false, 0, None)], map[0 := 0], [])
  }

  lemma Stall(p: Params, valid: bool, max: int, w: WorkerId) returns (actions: seq<Action>)
    requires p.Valid() && max > 0
    ensures Run(p, actions) == Some(Stalled(p, valid, max, w))
  {
    actions := First(p, 0, valid, max, w, 0);
    var s := FirstState(p, valid, max, w, 0);
    SingleRowTable(s.table.jobs[0]);
    Grow(p, actions, s, Advance(Late(p)), Stalled(p, valid, max, w));
    actions := actions + [Advance(Late(p))];
  }

  // Execution 0 makes its ownership read, where that is a step of its own.
  function Checked(p: Params, s: System): System
    requires 0 in s.execs
  {
    if p.atomicFinish then s else s.(execs := s.execs[0 := s.execs[0].(owned := Some(true))])
  }

  lemma CheckFirst(p: Params, actions: seq<Action>, s: System) returns (longer: seq<Action>)
    requires Run(p, actions) == Some(s) && s.table.Valid()
    requires Active(s, 0) && s.execs[0].owned == None && s.table.jobs[s.execs[0].job].payloadValid
    requires Q.OwnsLease(s.table, s.execs[0].job, s.execs[0].worker)
    ensures Run(p, longer) == Some(Checked(p, s))
  {
    longer := actions;
    if !p.atomicFinish {
      Grow(p, actions, s, CheckOwner(0, true), Checked(p, s));
      longer := actions + [CheckOwner(0, true)];
    }
  }

  // A second execution claims the job.
  function Reclaimed(p: Params, s: System, row: Job, w: WorkerId): System {
    s.(table := Q.Table(map[0 := Q.Leased(row, w, s.now, p.leaseMs)], [0]),
       execs := s.execs[1 := Execution(0, w, H.IDLE, s.now + p.intervalMs, false, 0, None)], claimant := s.claimant[0 := 1])
  }

  lemma Reclaim(p: Params, actions: seq<Action>, s: System, row: Job, w: WorkerId) returns (longer: seq<Action>)
    requires p.Valid() && Run(p, actions) == Some(s) && s.table == Q.Table(map[0 := row], [0]) && Q.Eligible(row, s.now)
    requires 1 !in s.execs && (p.freshWorkers ==> forall x <- s.execs :: s.execs[x].worker != w)
    ensures Run(p, longer) == Some(Reclaimed(p, s, row, w)) && Reclaimed(p, s, row, w).table.Valid()
  {
    SecondClaim(p, s, row, w);
    Grow(p, actions, s, Claim(1, w, 0), Reclaimed(p, s, row, w));
    longer := actions + [Claim(1, w, 0)];
  }

  // ---- Stale executions ----

  // A step changes a result only as the final write of the job's most recent claimant.
  ghost predicate SafeStep(p: Params, s: System, a: Action, j: JobId)
    requires s.table.Valid()
  {
    j in s.table.jobs && Apply(p, s, a).Some? ==>
      && j in Apply(p, s, a).value.table.jobs
      && (Apply(p, s, a).value.table.jobs[j].result != s.table.jobs[j].result ==> FinishedByClaimant(s, a, j))
  }

  ghost predicate SafeResults(p: Params) {
    forall actions, a, j :: Run(p, actions).Some? ==> SafeStep(p, Run(p, actions).value, a, j)
  }

  // Execution 0 reads itself as the owner as late as it can, and execution 1 claims the job.
  lemma StaleRun(p: Params, w: WorkerId) returns (actions: seq<Action>, s: System)
    requires p.Valid() && (p.freshWorkers ==> w != 7)
    ensures s == Reclaimed(p, Checked(p, Stalled(p, true, 2, 7)), LeasedRow(p, true, 2, 7), w)
    ensures Run(p, actions) == Some(s) && s.table.Valid()
  {
    var s0, row := Stalled(p, true, 2, 7), LeasedRow(p, true, 2, 7);
    actions := Stall(p, true, 2, 7);
    SingleRowTable(row);
    actions := CheckFirst(p, actions, s0);
    actions := Reclaim(p, actions, Checked(p, s0), row, w);
    s := Reclaimed(p, Checked(p, s0), row, w);
  }

  /**
   * Whatever the timing: if executions share a worker id, the stale one passes the owner check after another
   * claim; if the check and the final write are two calls, the claim fits between them. Either way it overwrites.
   */
  lemma StaleFinishClobbers(p: Params, r: JobResult) returns (actions: seq<Action>, s: System)
    requires p.Valid() && !(p.freshWorkers && p.atomicFinish)
    ensures Run(p, actions) == Some(s) && s.claimant == map[0 := 1] && Active(s, 0) && s.execs[0].job == 0
    ensures s.table.Valid() && s.table.jobs[0].status == JobStatus.Running && s.table.jobs[0].result == None
    ensures var s' := Apply(p, s, Finish(0, Passed, r, true)); s'.Some? && Recorded(s, s'.value, 0, Passed, r)
  {
    actions, s := StaleRun(p, if p.freshWorkers then 8 else 7);
    FinishRecords(p, s, 0, Passed, r);
  }

  /**
   * For every timing: no run lets a stale execution write a result iff executions have worker ids of their own
   * and nothing comes between the ownership read and the final write.
   */
  lemma ResultsAreSafeIff(p: Params)
    requires p.Valid()
    ensures SafeResults(p) <==> p.freshWorkers && p.atomicFinish
  {
    if p.freshWorkers && p.atomicFinish {
      forall actions, a, j | Run(p, actions).Some? ensures SafeStep(p, Run(p, actions).value, a, j) {
        if j in Run(p, actions).value.table.jobs && Apply(p, Run(p, actions).value, a).Some? { NoClobbering(p, actions, a, j); }
      }
    } else {
      var r: JobResult := *;
      var actions, s := StaleFinishClobbers(p, r);
      assert !SafeStep(p, s, Finish(0, Passed, r, true), 0);
    }
  }

  // A step that writes is the ending of a writer.
  lemma WritesAreByWriters(p: Params, s: System, a: Action)
    requires s.table.Valid() && Apply(p, s, a).Some?
    ensures var s' := Apply(p, s, a).value;
            || s'.writes == s.writes
            || ((a.RejectPayload? || a.Finish?) && Active(s, a.e) && Writer(p, s, s.execs[a.e].job, a.e)
                && s'.writes == s.writes + [Write(s.execs[a.e].job, a.e)])
  {
  }

  // An execution that may not write and has not written.
  ghost predicate Harmless(p: Params, s: System, e: ExecId) {
    e in s.execs && s.execs[e].job in s.table.jobs && !Writer(p, s, s.execs[e].job, e) && !Wrote(s, e)
  }

  lemma OwnerNotRestored(p: Params, s: System, a: Action, s': System, j: JobId, e: ExecId)
    requires p.freshWorkers && e in s.execs && j in s.table.jobs && j in s'.table.jobs && RowStep(p, s, a, s', j)
    ensures s'.table.jobs[j].payloadValid == s.table.jobs[j].payloadValid
    ensures s'.table.jobs[j].leaseOwner == Some(s.execs[e].worker) ==> s.table.jobs[j].leaseOwner == Some(s.execs[e].worker)
  {
  }

  lemma StaysNoWriter(p: Params, s: System, a: Action, s': System, e: ExecId)
    requires p.freshWorkers && e in s.execs && s.execs[e].job in s.table.jobs && !Writer(p, s, s.execs[e].job, e)
    requires TableStep(p, s, a, s') && ExecStep(p, s, a, s')
    ensures e in s'.execs && s'.execs[e].job == s.execs[e].job && !Writer(p, s', s.execs[e].job, e)
  {
    OwnerNotRestored(p, s, a, s', s.execs[e].job, e);
  }

  lemma HarmlessStep(p: Params, s: System, a: Action, e: ExecId)
    requires p.freshWorkers && s.table.Valid() && Harmless(p, s, e) && Apply(p, s, a).Some?
    ensures Harmless(p, Apply(p, s, a).value, e)
  {
    var s' := Apply(p, s, a).value;
    StepShape(p, s, a);
    StaysNoWriter(p, s, a, s', e);
    WritesAreByWriters(p, s, a);
    forall k | 0 <= k < |s'.writes| ensures s'.writes[k].exec != e {
      if k < |s.writes| { assert s'.writes[k] == s.writes[k]; }
    }
  }

  lemma {:induction false} HarmlessStays(p: Params, actions: seq<Action>, more: seq<Action>, e: ExecId)
    requires p.freshWorkers && Run(p, actions).Some? && Harmless(p, Run(p, actions).value, e) && Run(p, actions + more).Some?
    ensures Harmless(p, Run(p, actions + more).value, e)
  {
    if more == [] {
      assert actions + more == actions;
    } else {
      assert (actions + more)[..|actions + more| - 1] == actions + more[..|more| - 1];
      HarmlessStays(p, actions, more[..|more| - 1], e);
      HarmlessStep(p, Run(p, actions + more[..|more| - 1]).value, more[|more| - 1], e);
    }
  }

  lemma EverRecordsIff(p: Params, actions: seq<Action>, s: System, e: ExecId)
    requires p.freshWorkers && Run(p, actions) == Some(s) && s.table.Valid() && Active(s, e)
    ensures EverRecords(p, actions, e) <==> Writer(p, s, s.execs[e].job, e)
  {
    HistoryHolds(p, actions);
    if Writer(p, s, s.execs[e].job, e) {
      var r: JobResult := *;
      var more := WriterRecords(p, actions, s, e, Passed, r);
    } else {
      assert Harmless(p, s, e);
      forall more | Run(p, actions + more).Some? ensures !Wrote(Run(p, actions + more).value, e) {
        HarmlessStays(p, actions, more, e);
      }
    }
  }

  /**
   * With worker ids of their own: an unfinished execution records an outcome in some continuation iff its payload
   * cannot be parsed, or the row names its worker when it reads it or has done so. One that is not the last
   * claimant does iff its payload cannot be parsed or it has read the owner before the newer claim.
   */
  lemma StaleExecutionsRecordIff(p: Params, actions: seq<Action>, e: ExecId)
    requires p.freshWorkers && Run(p, actions).Some? && Active(Run(p, actions).value, e)
    ensures var s := Run(p, actions).value;
            var payloadValid := s.table.jobs[s.execs[e].job].payloadValid;
            && (EverRecords(p, actions, e) <==> !payloadValid || MayWrite(p, s, e))
            && (!IsClaimant(s, e) ==>
                  (EverRecords(p, actions, e) <==> !payloadValid || (!p.atomicFinish && s.execs[e].owned == Some(true))))
  {
    var s := Run(p, actions).value;
    EverRecordsIff(p, actions, s, e);
    HistoryHolds(p, actions);
    assert OwnerClaimed(s, s.execs[e].job);
    if s.table.jobs[s.execs[e].job].leaseOwner == Some(s.execs[e].worker) {
      assert s.execs[s.claimant[s.execs[e].job]].worker == s.execs[e].worker;
    }
  }

  /** For every timing, a payload that cannot be parsed is rejected without the owner check even after another claim. */
  lemma RejectionClobbers(p: Params) returns (actions: seq<Action>, s: System)
    requires p.Valid()
    ensures Run(p, actions) == Some(s) && s.claimant == map[0 := 1] && Active(s, 0) && s.execs[0].job == 0
    ensures s.table.Valid() && s.table.jobs[0].status == JobStatus.Running && s.table.jobs[0].leaseOwner == Some(1)
    ensures var s' := Apply(p, s, RejectPayload(0));
            s'.Some? && 0 in s'.value.table.jobs && s'.value.table.jobs[0].status == Failed
              && s'.value.table.jobs[0].leaseOwner == None
  {
    var s0, row := Stalled(p, false, 2, 0), LeasedRow(p, false, 2, 0);
    actions := Stall(p, false, 2, 0);
    actions := Reclaim(p, actions, s0, row, 1);
    s := Reclaimed(p, s0, row, 1);
  }

  // ---- Ended rows ----

  ghost predicate EndedRow(s: System, j: JobId) {
    j in s.table.jobs && s.table.jobs[j].status.Terminal()
  }

  ghost predicate SameRow(s: System, s': System, j: JobId) {
    j in s.table.jobs && j in s'.table.jobs && s'.table.jobs[j] == s.table.jobs[j]
  }

  ghost predicate SameStatus(s: System, s': System, j: JobId) {
    j in s.table.jobs && j in s'.table.jobs && s'.table.jobs[j].status == s.table.jobs[j].status
  }

  // No continuation of the run changes the row, or its status.
  ghost predicate RowIsFinal(p: Params, actions: seq<Action>, j: JobId) {
    forall more :: Run(p, actions).Some? && Run(p, actions + more).Some? ==>
      SameRow(Run(p, actions).value, Run(p, actions + more).value, j)
  }

  ghost predicate StatusIsFinal(p: Params, actions: seq<Action>, j: JobId) {
    forall more :: Run(p, actions).Some? && Run(p, actions + more).Some? ==>
      SameStatus(Run(p, actions).value, Run(p, actions + more).value, j)
  }

  // What one step leaves of the executions of an ended row: none is new, none changes worker, none restarts.
  ghost predicate OldExecutions(s: System, s': System, j: JobId) {
    forall e <- s'.execs | s'.execs[e].job == j ::
      && e in s.execs && s.execs[e].job == j && s.execs[e].worker == s'.execs[e].worker
      && (s.execs[e].done ==> s'.execs[e].done) && KeepsCheck(s, s.execs[e], s'.execs[e])
      && KeepsReason(s.execs[e].monitor, s'.execs[e].monitor)
  }

  lemma OldExecutionsOnly(p: Params, s: System, a: Action, s': System, j: JobId)
    requires EndedRow(s, j) && ExecStep(p, s, a, s')
    ensures OldExecutions(s, s', j)
  {
  }

  // An ended row changes only through a writer.
  lemma OnlyWritersChange(p: Params, s: System, a: Action, s': System, j: JobId)
    requires EndedRow(s, j) && j in s'.table.jobs && RowStep(p, s, a, s', j)
    ensures SameRow(s, s', j) || (Writer(p, s, j, a.e) && (Rejects(s, a, s', j) || Finishes(p, s, a, s', j)))
  {
  }

  // Whoever may write an ended row after a step could do so before it.
  lemma WritersAreOld(p: Params, s: System, a: Action, s': System, j: JobId, e: ExecId)
    requires EndedRow(s, j) && j in s'.table.jobs && RowStep(p, s, a, s', j) && OldExecutions(s, s', j)
    requires Writer(p, s', j, e)
    ensures Writer(p, s, j, e)
  {
    OnlyWritersChange(p, s, a, s', j);
  }

  lemma RowStaysOneStep(p: Params, s: System, a: Action, s': System, j: JobId)
    requires EndedRow(s, j) && !HasWriter(p, s, j) && TableStep(p, s, a, s') && ExecStep(p, s, a, s')
    ensures SameRow(s, s', j) && !HasWriter(p, s', j)
  {
    OnlyWritersChange(p, s, a, s', j);
    OldExecutionsOnly(p, s, a, s', j);
    forall e ensures Writer(p, s', j, e) ==> Writer(p, s, j, e) {
      if Writer(p, s', j, e) { WritersAreOld(p, s, a, s', j, e); }
    }
  }

  lemma LastStep(p: Params, run: seq<Action>) returns (s: System, s': System)
    requires run != [] && Run(p, run).Some?
    ensures Run(p, run[..|run| - 1]) == Some(s) && Run(p, run) == Some(s')
    ensures s.table.Valid() && Apply(p, s, run[|run| - 1]) == Some(s')
  {
    s, s' := Run(p, run[..|run| - 1]).value, Run(p, run).value;
  }

  lemma ShapeOf(p: Params, s: System, a: Action, s': System)
    requires s.table.Valid() && Apply(p, s, a) == Some(s')
    ensures TableStep(p, s, a, s') && ExecStep(p, s, a, s')
  {
    StepShape(p, s, a);
  }

  // The last step of a run that goes on: the state before it, the state after it, and the shape of what changed.
  lemma NextStep(p: Params, actions: seq<Action>, more: seq<Action>) returns (s: System, s': System)
    requires more != [] && Run(p, actions + more).Some?
    ensures Run(p, actions + more[..|more| - 1]) == Some(s) && Run(p, actions + more) == Some(s')
    ensures TableStep(p, s, more[|more| - 1], s') && ExecStep(p, s, more[|more| - 1], s')
  {
    s, s' := LastStep(p, actions + more);
    assert (actions + more)[..|actions + more| - 1] == actions + more[..|more| - 1];
    ShapeOf(p, s, more[|more| - 1], s');
  }

  lemma {:induction false} RowStays(p: Params, actions: seq<Action>, start: System, more: seq<Action>, j: JobId)
    requires Run(p, actions) == Some(start) && EndedRow(start, j) && !HasWriter(p, start, j)
    requires Run(p, actions + more).Some?
    ensures SameRow(start, Run(p, actions + more).value, j) && !HasWriter(p, Run(p, actions + more).value, j)
  {
    if more == [] {
      assert actions + more == actions;
    } else {
      var s, s' := NextStep(p, actions, more);
      RowStays(p, actions, start, more[..|more| - 1], j);
      RowStaysOneStep(p, s, more[|more| - 1], s', j);
    }
  }

  lemma WriterChangesNow(p: Params, actions: seq<Action>, s: System, j: JobId, e: ExecId) returns (more: seq<Action>)
    requires Run(p, actions) == Some(s) && s.table.Valid() && EndedRow(s, j) && Writer(p, s, j, e)
    requires s.table.jobs[j].finishedAt != Some(s.now)
    ensures Run(p, actions + more).Some? && !SameRow(s, Run(p, actions + more).value, j)
  {
    var r: JobResult := *;
    more := WriterRecords(p, actions, s, e, Passed, r);
  }

  lemma WaitFirst(p: Params, actions: seq<Action>, s: System, later: System)
    requires Run(p, actions) == Some(s) && s.table.Valid() && later == s.(now := later.now) && later.now >= s.now
    ensures Run(p, actions + [Advance(later.now)]) == Some(later)
    ensures forall j, e :: Writer(p, later, j, e) <==> Writer(p, s, j, e)
  {
    Grow(p, actions, s, Advance(later.now), later);
  }

  lemma Regroup(actions: seq<Action>, a: Action, rest: seq<Action>)
    ensures actions + ([a] + rest) == (actions + [a]) + rest
  {
  }

  // A write by a writer, made at a time the row does not show yet.
  lemma WriterChangesRow(p: Params, actions: seq<Action>, s: System, j: JobId, e: ExecId) returns (more: seq<Action>)
    requires Run(p, actions) == Some(s) && s.table.Valid() && EndedRow(s, j) && Writer(p, s, j, e)
    ensures Run(p, actions + more).Some? && !SameRow(s, Run(p, actions + more).value, j)
  {
    var ended := s.table.jobs[j].finishedAt;
    var later := s.(now := if ended.Some? && ended.value >= s.now then ended.value + 1 else s.now + 1);
    WaitFirst(p, actions, s, later);
    var waited := actions + [Advance(later.now)];
    var rest := WriterChangesNow(p, waited, later, j, e);
    Regroup(actions, Advance(later.now), rest);
    more := [Advance(later.now)] + rest;
    assert actions + more == waited + rest;
  }

  // No unfinished execution of the job has read itself as the owner already.
  ghost predicate NoneHasRead(p: Params, s: System, j: JobId) {
    p.atomicFinish || forall e <- s.execs :: s.execs[e].job == j && !s.execs[e].done ==> s.execs[e].owned != Some(true)
  }

  /**
   * An ended row never changes again iff no unfinished execution may still write it. While none has read itself as
   * the owner and the payload parses, only one that the row names may: with worker ids of their own, that is the
   * last claimant; and a row that names no owner is final.
   */
  lemma EndedRowIsFinalIff(p: Params, actions: seq<Action>, j: JobId)
    requires Run(p, actions).Some? && EndedRow(Run(p, actions).value, j)
    ensures var s := Run(p, actions).value;
            var row := s.table.jobs[j];
            && (RowIsFinal(p, actions, j) <==> !HasWriter(p, s, j))
            && (row.payloadValid && NoneHasRead(p, s, j) && row.leaseOwner == None ==> RowIsFinal(p, actions, j))
            && (p.freshWorkers && p.atomicFinish && row.payloadValid ==>
                  (RowIsFinal(p, actions, j) <==>
                    row.leaseOwner == None || (j in s.claimant && s.claimant[j] in s.execs && s.execs[s.claimant[j]].done)))
  {
    var s := Run(p, actions).value;
    HistoryHolds(p, actions);
    assert OwnerClaimed(s, j);
    if HasWriter(p, s, j) {
      var e :| Writer(p, s, j, e);
      var more := WriterChangesRow(p, actions, s, j, e);
    } else {
      forall more | Run(p, actions + more).Some? ensures SameRow(s, Run(p, actions + more).value, j) {
        RowStays(p, actions, s, more, j);
      }
      if s.table.jobs[j].leaseOwner.Some? { assert !Writer(p, s, j, s.claimant[j]); }
    }
  }

  // ---- The status of an ended row ----

  // A writer whose verdict can differ: a failed row is only ever changed by a run that kept its lease.
  ghost predicate Overturns(p: Params, s: System, j: JobId, e: ExecId) {
    && Writer(p, s, j, e)
    && (s.table.jobs[j].status == Failed ==> s.table.jobs[j].payloadValid && !LeaseFailed(s.execs[e].monitor))
  }

  ghost predicate CanBeOverturned(p: Params, s: System, j: JobId) {
    exists e :: Overturns(p, s, j, e)
  }

  // A monitor has a reason exactly when it has aborted, so a lease that has failed stays failed.
  ghost predicate ReasonsMatch(s: System) {
    forall e <- s.execs :: s.execs[e].monitor.aborted <==> s.execs[e].monitor.reason.Some?
  }

  lemma ReasonsStep(p: Params, s: System, a: Action, s': System)
    requires ReasonsMatch(s) && ExecStep(p, s, a, s')
    ensures ReasonsMatch(s')
  {
  }

  lemma {:induction false} ReasonsHold(p: Params, actions: seq<Action>)
    requires Run(p, actions).Some?
    ensures ReasonsMatch(Run(p, actions).value)
  {
    if actions != [] {
      ReasonsHold(p, actions[..|actions| - 1]);
      var s, a := Run(p, actions[..|actions| - 1]).value, actions[|actions| - 1];
      StepShape(p, s, a);
      ReasonsStep(p, s, a, Run(p, actions).value);
    }
  }

  lemma OverturnersAreOld(p: Params, s: System, a: Action, s': System, j: JobId, e: ExecId)
    requires ReasonsMatch(s) && EndedRow(s, j) && SameStatus(s, s', j) && RowStep(p, s, a, s', j) && OldExecutions(s, s', j)
    requires Overturns(p, s', j, e)
    ensures Overturns(p, s, j, e)
  {
    WritersAreOld(p, s, a, s', j, e);
  }

  lemma StatusStaysOneStep(p: Params, s: System, a: Action, s': System, j: JobId)
    requires ReasonsMatch(s) && EndedRow(s, j) && !CanBeOverturned(p, s, j) && TableStep(p, s, a, s') && ExecStep(p, s, a, s')
    ensures SameStatus(s, s', j) && !CanBeOverturned(p, s', j)
  {
    OnlyWritersChange(p, s, a, s', j);
    OldExecutionsOnly(p, s, a, s', j);
    if !SameRow(s, s', j) { assert !Overturns(p, s, j, a.e); }
    forall e ensures Overturns(p, s', j, e) ==> Overturns(p, s, j, e) {
      if Overturns(p, s', j, e) { OverturnersAreOld(p, s, a, s', j, e); }
    }
  }

  lemma {:induction false} StatusStays(p: Params, actions: seq<Action>, start: System, more: seq<Action>, j: JobId)
    requires Run(p, actions) == Some(start) && EndedRow(start, j) && !CanBeOverturned(p, start, j)
    requires Run(p, actions + more).Some?
    ensures SameStatus(start, Run(p, actions + more).value, j) && !CanBeOverturned(p, Run(p, actions + more).value, j)
  {
    if more == [] {
      assert actions + more == actions;
    } else {
      var s, s' := NextStep(p, actions, more);
      StatusStays(p, actions, start, more[..|more| - 1], j);
      ReasonsHold(p, actions + more[..|more| - 1]);
      StatusStaysOneStep(p, s, more[|more| - 1], s', j);
    }
  }

  lemma WriterOverturns(p: Params, actions: seq<Action>, s: System, j: JobId, e: ExecId) returns (more: seq<Action>)
    requires Run(p, actions) == Some(s) && s.table.Valid() && EndedRow(s, j) && Overturns(p, s, j, e)
    ensures Run(p, actions + more).Some? && !SameStatus(s, Run(p, actions + more).value, j)
  {
    var r: JobResult := *;
    more := WriterRecords(p, actions, s, e, if s.table.jobs[j].status == Passed then Failed else Passed, r);
  }

  /**
   * The status of an ended row can still change iff some unfinished execution may write the row and,
   * where the row says failed, its payload parses and the execution's own lease has not failed. In
   * any other ended status the row as a whole is final when its status is.
   */
  lemma EndedStatusIsFinalIff(p: Params, actions: seq<Action>, j: JobId)
    requires Run(p, actions).Some? && EndedRow(Run(p, actions).value, j)
    ensures var s := Run(p, actions).value;
            && (StatusIsFinal(p, actions, j) <==> !CanBeOverturned(p, s, j))
            && (s.table.jobs[j].status != Failed ==> (StatusIsFinal(p, actions, j) <==> RowIsFinal(p, actions, j)))
  {
    var s := Run(p, actions).value;
    EndedRowIsFinalIff(p, actions, j);
    if s.table.jobs[j].status != Failed {
      assert forall e :: Overturns(p, s, j, e) <==> Writer(p, s, j, e);
    }
    if CanBeOverturned(p, s, j) {
      var e :| Overturns(p, s, j, e);
      var more := WriterOverturns(p, actions, s, j, e);
    } else {
      forall more | Run(p, actions + more).Some? ensures SameStatus(s, Run(p, actions + more).value, j) {
        StatusStays(p, actions, s, more, j);
      }
    }
  }

  // ---- Cancels and sweeps ----

  // A queued job has no executions yet.
  ghost predicate QueuedAreUnclaimed(s: System) {
    forall e <- s.execs :: s.execs[e].job in s.table.jobs && s.table.jobs[s.execs[e].job].status != Queued
  }

  lemma UnqueuedStays(p: Params, s: System, a: Action, s': System, j: JobId)
    requires j in s.table.jobs && j in s'.table.jobs && RowStep(p, s, a, s', j) && s.table.jobs[j].status != Queued
    ensures s'.table.jobs[j].status != Queued
  {
  }

  lemma QueuedAreUnclaimedStep(p: Params, s: System, a: Action, s': System)
    requires QueuedAreUnclaimed(s) && TableStep(p, s, a, s') && ExecStep(p, s, a, s')
    ensures QueuedAreUnclaimed(s')
  {
    forall e <- s'.execs ensures s'.execs[e].job in s'.table.jobs && s'.table.jobs[s'.execs[e].job].status != Queued {
      var j := s'.execs[e].job;
      if e in s.execs && s.execs[e].job == j { UnqueuedStays(p, s, a, s', j); }
    }
  }

  lemma {:induction false} QueuedAreUnclaimedHolds(p: Params, actions: seq<Action>)
    requires Run(p, actions).Some?
    ensures QueuedAreUnclaimed(Run(p, actions).value)
  {
    if actions != [] {
      QueuedAreUnclaimedHolds(p, actions[..|actions| - 1]);
      var s, a := Run(p, actions[..|actions| - 1]).value, actions[|actions| - 1];
      StepShape(p, s, a);
      QueuedAreUnclaimedStep(p, s, a, Run(p, actions).value);
    }
  }

  /** A job cancelled while it was queued stays cancelled, in every continuation of every run. */
  lemma CancelledWhileQueuedIsFinal(p: Params, actions: seq<Action>, j: JobId)
    requires Run(p, actions).Some? && j in Run(p, actions).value.table.jobs
    requires Run(p, actions).value.table.jobs[j].status == Queued
    ensures var cancelled := Run(p, actions + [CancelJob(j)]);
            cancelled.Some? && j in cancelled.value.table.jobs && cancelled.value.table.jobs[j].status == Cancelled
    ensures RowIsFinal(p, actions + [CancelJob(j)], j)
  {
    var s := Run(p, actions).value;
    QueuedAreUnclaimedHolds(p, actions);
    Grow(p, actions, s, CancelJob(j), Apply(p, s, CancelJob(j)).value);
    EndedRowIsFinalIff(p, actions + [CancelJob(j)], j);
  }

  // The stalled job, cancelled or swept as out of attempts.
  function Ended(p: Params, cancel: bool): System {
    var row := LeasedRow(p, true, 1, 0);
    Stalled(p, true, 1, 0).(
      table := Q.Table(map[0 := if cancel then row.(status := Cancelled, finishedAt := Some(Late(p)), updatedAt := Late(p))
                                else Q.Exhausted(row, Late(p))], [0]))
  }

  function Ending(cancel: bool): Action {
    if cancel then CancelJob(0) else Claim(1, 1, 0)
  }

  lemma CancelStalled(p: Params)
    requires p.Valid() && Stalled(p, true, 1, 0).table.Valid()
    ensures Apply(p, Stalled(p, true, 1, 0), CancelJob(0)) == Some(Ended(p, true))
  {
    assert Q.Cancel(Stalled(p, true, 1, 0).table, 0, Late(p)).jobs == Ended(p, true).table.jobs;
  }

  lemma SweepStalled(p: Params)
    requires p.Valid() && Stalled(p, true, 1, 0).table.Valid()
    ensures Apply(p, Stalled(p, true, 1, 0), Claim(1, 1, 0)) == Some(Ended(p, false))
  {
    Q.ClaimOfSingleRow(0, LeasedRow(p, true, 1, 0), 1, Late(p), p.leaseMs);
  }

  lemma EndStalled(p: Params, cancel: bool) returns (actions: seq<Action>)
    requires p.Valid()
    ensures Run(p, actions) == Some(Ended(p, cancel))
  {
    actions := Stall(p, true, 1, 0);
    SingleRowTable(LeasedRow(p, true, 1, 0));
    if cancel { CancelStalled(p); } else { SweepStalled(p); }
    Grow(p, actions, Stalled(p, true, 1, 0), Ending(cancel), Ended(p, cancel));
    actions := actions + [Ending(cancel)];
  }

  /**
   * For every timing, neither `cancelled` nor the `failed` of the attempt sweep is final when the job
   * was running: both leave the lease owner in place, so the last claimant still records a pass.
   */
  lemma CancelledOrSweptCanStillPass(p: Params, cancel: bool, r: JobResult)
    returns (actions: seq<Action>, s: System, more: seq<Action>)
    requires p.Valid()
    ensures Run(p, actions) == Some(s) && Active(s, 0) && s.execs[0].job == 0 && IsClaimant(s, 0)
    ensures s.table.jobs[0].status == if cancel then Cancelled else Failed
    ensures Run(p, actions + more).Some? && Recorded(s, Run(p, actions + more).value, 0, Passed, r)
    ensures Run(p, actions + more).value.table.jobs[0].status == Passed
  {
    actions := EndStalled(p, cancel);
    s := Ended(p, cancel);
    SingleRowTable(s.table.jobs[0]);
    more := WriterRecords(p, actions, s, 0, Passed, r);
  }
}
