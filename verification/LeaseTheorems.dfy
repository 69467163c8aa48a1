/**
 * What the lease protocol guarantees over all runs: exactly when executions are
 * exclusive, who may write an outcome, and how often a job can be claimed.
 */
module LeaseTheorems {
  import opened Prelude
  import opened JobTypes
  import opened LeaseProtocol
  import Q = JobQueue
  import H = Heartbeat

  ghost predicate AlwaysExclusive(p: Params, k: nat) {
    forall actions :: OnTimeRun(p, k, actions) ==> Exclusive(Run(p, actions).value)
  }

  // An on-time run that ends in `s`; quantified so that a proof unfolds the run only where it names it.
  ghost predicate Leads(p: Params, k: nat, actions: seq<Action>, s: System) {
    forall q: Params :: q == p ==> OnTimeRun(q, k, actions) && Run(q, actions) == Some(s)
  }

  lemma Extend(p: Params, k: nat, actions: seq<Action>, s: System, a: Action, s': System)
    requires Leads(p, k, actions, s) && s.table.Valid() && Punctual(s, a) && Tolerated(k, s, a) && Apply(p, s, a) == Some(s')
    ensures Leads(p, k, actions + [a], s') && s'.table.Valid()
  {
    var longer := actions + [a];
    assert longer[..|longer| - 1] == actions;
    assert OnTimeRun(p, k, actions) && Run(p, actions) == Some(s);
    assert OnTimeRun(p, k, longer) && Run(p, longer) == Some(s');
  }

  // One job, just leased by execution 0.
  function FirstState(p: Params, valid: bool, max: int, w: WorkerId, delay: int): System {
    System(0, Q.Table(map[0 := Q.Leased(Q.NewJob(TestPatch, None, valid, 5, max, 0), w, 0, p.leaseMs)], [0]),
           map[0 := Execution(0, w, H.IDLE, delay + p.intervalMs, false, 0, None)], map[0 := 0], [])
  }

  lemma SingleRowTable(row: Job)
    ensures Q.Table(map[0 := row], [0]).Valid()
  {
  }

  function Enqueued(valid: bool, max: int): System {
    INITIAL.(table := Q.Table(map[0 := Q.NewJob(TestPatch, None, valid, 5, max, 0)], [0]))
  }

  lemma EnqueueFirst(p: Params, k: nat, valid: bool, max: int)
    ensures Leads(p, k, [Enqueue(0, valid, 5, max)], Enqueued(valid, max))
  {
    assert INITIAL.table.jobs[0 := Q.NewJob(TestPatch, None, valid, 5, max, 0)] == Enqueued(valid, max).table.jobs;
    assert [] + [0] == [0];
    Extend(p, k, [], INITIAL, Enqueue(0, valid, 5, max), Enqueued(valid, max));
    assert [] + [Enqueue(0, valid, 5, max)] == [Enqueue(0, valid, 5, max)];
  }

  lemma ClaimFirst(p: Params, valid: bool, max: int, w: WorkerId, delay: int)
    requires max > 0 && 0 <= delay <= p.startDelayMs && Enqueued(valid, max).table.Valid()
    ensures Apply(p, Enqueued(valid, max), Claim(0, w, delay)) == Some(FirstState(p, valid, max, w, delay))
  {
    Q.ClaimOfSingleRow(0, Q.NewJob(TestPatch, None, valid, 5, max, 0), w, 0, p.leaseMs);
  }

  lemma First(p: Params, k: nat, valid: bool, max: int, w: WorkerId, delay: int) returns (actions: seq<Action>)
    requires max > 0 && 0 <= delay <= p.startDelayMs
    ensures Leads(p, k, actions, FirstState(p, valid, max, w, delay))
  {
    EnqueueFirst(p, k, valid, max);
    SingleRowTable(Q.NewJob(TestPatch, None, valid, 5, max, 0));
    ClaimFirst(p, valid, max, w, delay);
    actions := [Enqueue(0, valid, 5, max)] + [Claim(0, w, delay)];
    Extend(p, k, [Enqueue(0, valid, 5, max)], Enqueued(valid, max), Claim(0, w, delay), FirstState(p, valid, max, w, delay));
  }

  // ---- A run that overtakes a lease which is too short ----

  function OneJobRow(p: Params): Job {
    Q.Leased(Q.NewJob(TestPatch, None, true, 5, 2, 0), 0, 0, p.leaseMs)
  }

  function FailedBeats(n: nat): H.Monitor {
    H.IDLE.(failures := n, consecutive := n)
  }

  // The n-th failing beat in a row; the log refuses it where it would abort the monitor.
  function OutageBeat(p: Params, n: nat): H.Beat {
    H.Beat(H.Threw, true, n < p.Patience())
  }

  function RefusedOf(p: Params, n: nat): nat {
    if n < p.Patience() then 0 else n - p.Patience() + 1
  }

  // After `n` failing beats in a row, the last one at `now`.
  function OutageState(p: Params, n: nat, now: int, due: int): System {
    System(now, Q.Table(map[0 := OneJobRow(p)], [0]),
           map[0 := Execution(0, 0, FailedBeats(n), due, false, RefusedOf(p, n), None)], map[0 := 0], [])
  }

  lemma OutageStep(p: Params, n: nat, due: int)
    requires p.Valid() && 0 < n && OutageState(p, n - 1, due, due).table.Valid()
    ensures Apply(p, OutageState(p, n - 1, due, due), Beat(0, OutageBeat(p, n), false))
         == Some(OutageState(p, n, due, due + p.intervalMs))
  {
    var s' := ApplyBeat(p, OutageState(p, n - 1, due, due), 0, OutageBeat(p, n), false).value;
    assert s'.execs == map[0 := s'.execs[0]];
    assert H.Step(p.threshold, FailedBeats(n - 1), OutageBeat(p, n)) == FailedBeats(n);
  }

  // An on-time run of `n` failing beats, each as late as can be.
  ghost predicate Outage(p: Params, k: nat, n: nat, actions: seq<Action>, now: int, due: int) {
    now <= due && Leads(p, k, actions, OutageState(p, n, now, due))
  }

  lemma OutageStart(p: Params, k: nat) returns (actions: seq<Action>)
    requires p.Valid()
    ensures Outage(p, k, 0, actions, 0, p.startDelayMs + p.intervalMs)
  {
    assert OutageState(p, 0, 0, p.startDelayMs + p.intervalMs) == FirstState(p, true, 2, 0, p.startDelayMs);
    actions := First(p, k, true, 2, 0, p.startDelayMs);
  }

  lemma NextBeat(p: Params, k: nat, n: nat, actions: seq<Action>, now: int, due: int, m: nat, next: int)
    returns (longer: seq<Action>)
    requires p.Valid() && m == n + 1 < p.Patience() + k && next == due + p.intervalMs && Outage(p, k, n, actions, now, due)
    ensures Outage(p, k, m, longer, due, next)
  {
    SingleRowTable(OneJobRow(p));
    Extend(p, k, actions, OutageState(p, n, now, due), Advance(due), OutageState(p, n, due, due));
    OutageStep(p, m, due);
    Extend(p, k, actions + [Advance(due)], OutageState(p, n, due, due), Beat(0, OutageBeat(p, m), false), OutageState(p, m, due, next));
    longer := actions + [Advance(due)] + [Beat(0, OutageBeat(p, m), false)];
  }

  // When the beat after the n-th one is due, if every beat is as late as can be.
  function Due(p: Params, n: nat): int {
    if n == 0 then p.startDelayMs + p.intervalMs else Due(p, n - 1) + p.intervalMs
  }

  lemma {:induction false} DueIs(p: Params, n: nat)
    ensures Due(p, n) == p.startDelayMs + (n + 1) * p.intervalMs
  {
    if n > 0 { DueIs(p, n - 1); }
  }

  ghost predicate CanSuffer(p: Params, k: nat, n: nat) {
    exists actions, now :: Outage(p, k, n, actions, now, Due(p, n))
  }

  lemma SuffersOneMore(p: Params, k: nat, n: nat, m: nat)
    requires p.Valid() && m == n + 1 < p.Patience() + k && CanSuffer(p, k, n)
    ensures CanSuffer(p, k, m)
  {
    var before, now :| Outage(p, k, n, before, now, Due(p, n));
    var actions := NextBeat(p, k, n, before, now, Due(p, n), m, Due(p, m));
  }

  lemma {:induction false} OutageBeats(p: Params, k: nat, n: nat)
    requires p.Valid() && n < p.Patience() + k
    ensures CanSuffer(p, k, n)
    decreases n
  {
    if n == 0 {
      var actions := OutageStart(p, k);
      assert Outage(p, k, 0, actions, 0, Due(p, 0));
    } else {
      OutageBeats(p, k, n - 1);
      SuffersOneMore(p, k, n - 1, n);
    }
  }

  // A second worker leases the only job after its lease has run out.
  lemma SecondClaim(p: Params, s: System, row: Job, w: WorkerId)
    requires s.table == Q.Table(map[0 := row], [0]) && Q.Eligible(row, s.now) && p.startDelayMs >= 0
    requires 1 !in s.execs && (p.freshWorkers ==> forall x <- s.execs :: s.execs[x].worker != w)
    ensures s.table.Valid()
    ensures Apply(p, s, Claim(1, w, 0)) == Some(s.(
              table := Q.Table(map[0 := Q.Leased(row, w, s.now, p.leaseMs)], [0]),
              execs := s.execs[1 := Execution(0, w, H.IDLE, s.now + p.intervalMs, false, 0, None)],
              claimant := s.claimant[0 := 1]))
  {
    Q.ClaimOfSingleRow(0, row, w, s.now, p.leaseMs);
  }

  // Time runs on to `late`, and a second execution claims a job whose first one is still live.
  lemma Overtake(p: Params, k: nat, actions: seq<Action>, s: System, row: Job, w: WorkerId, late: int)
    returns (longer: seq<Action>)
    requires p.startDelayMs >= 0 && Leads(p, k, actions, s) && s.now <= late
    requires s.table == Q.Table(map[0 := row], [0]) && Q.Eligible(row, late)
    requires s.execs.Keys == {0} && s.execs[0].job == 0 && s.execs[0].Live() && s.execs[0].worker != w && late <= s.execs[0].due
    ensures OnTimeRun(p, k, longer) && !Exclusive(Run(p, longer).value)
  {
    var s1 := s.(now := late);
    Extend(p, k, actions, s, Advance(late), s1);
    SecondClaim(p, s1, row, w);
    var s2 := Apply(p, s1, Claim(1, w, 0)).value;
    Extend(p, k, actions + [Advance(late)], s1, Claim(1, w, 0), s2);
    longer := actions + [Advance(late)] + [Claim(1, w, 0)];
    assert s2.execs[0].Live() && s2.execs[1].Live();
  }

  lemma ShortLeaseIsOvertaken(p: Params, k: nat) returns (actions: seq<Action>)
    requires p.Valid() && p.startDelayMs + (p.Patience() + k) * p.intervalMs > p.leaseMs
    ensures OnTimeRun(p, k, actions) && !Exclusive(Run(p, actions).value)
  {
    var n := p.Patience() + k - 1;
    DueIs(p, n);
    OutageBeats(p, k, n);
    var before, now :| Outage(p, k, n, before, now, Due(p, n));
    actions := Overtake(p, k, before, OutageState(p, n, now, Due(p, n)), OneJobRow(p), 1, Due(p, n));
  }

  /**
   * With beats on time and at most `k` log lines refused in a row, executions are exclusive in
   * every run iff start delay + (patience + k) * interval fits in the lease. Worker ids may be shared.
   */
  lemma ExclusiveIffLeaseFits(p: Params, k: nat)
    requires p.Valid()
    ensures AlwaysExclusive(p, k) <==> p.startDelayMs + (p.Patience() + k) * p.intervalMs <= p.leaseMs
  {
    if Fits(p, k) {
      forall actions | OnTimeRun(p, k, actions) ensures Exclusive(Run(p, actions).value) {
        TimedRunsAreExclusive(p, k, actions);
      }
    } else {
      var actions := ShortLeaseIsOvertaken(p, k);
    }
  }

  /** A lease without room for one more beat is safe while every line is logged, and overtaken once a single one is refused. */
  lemma UnloggedOutageIsOvertaken(p: Params) returns (actions: seq<Action>)
    requires p.Valid()
    requires p.leaseMs - p.intervalMs < p.startDelayMs + p.Patience() * p.intervalMs <= p.leaseMs
    ensures AlwaysExclusive(p, 0)
    ensures OnTimeRun(p, 1, actions) && !Exclusive(Run(p, actions).value)
  {
    ExclusiveIffLeaseFits(p, 0);
    actions := ShortLeaseIsOvertaken(p, 1);
  }

  // ---- Untimed runs: who writes an outcome, and how often ----

  // A lease owner is always the worker of the job's most recent claim.
  ghost predicate OwnerClaimed(s: System, j: JobId)
    requires j in s.table.jobs
  {
    s.table.jobs[j].leaseOwner.Some? ==>
      && j in s.claimant && s.claimant[j] in s.execs
      && s.execs[s.claimant[j]].job == j && s.execs[s.claimant[j]].worker == s.table.jobs[j].leaseOwner.value
  }

  ghost predicate OwnerIsClaimant(s: System) {
    && (forall e <- s.execs :: s.execs[e].job in s.table.jobs)
    && (forall j <- s.table.jobs :: OwnerClaimed(s, j))
  }

  ghost predicate WritesAreFinal(s: System) {
    && (forall k | 0 <= k < |s.writes| :: s.writes[k].exec in s.execs && s.execs[s.writes[k].exec].done)
    && (forall i, k | 0 <= i < k < |s.writes| :: s.writes[i].exec != s.writes[k].exec)
  }

  ghost function Claims(s: System, j: JobId): set<ExecId> {
    set e | e in s.execs && s.execs[e].job == j
  }

  ghost predicate AttemptsCountClaims(s: System) {
    && (forall e <- s.execs :: s.execs[e].job in s.table.jobs)
    && forall j <- s.table.jobs ::
         && |Claims(s, j)| == s.table.jobs[j].attempts
         && (s.table.jobs[j].attempts == 0 || s.table.jobs[j].attempts <= s.table.jobs[j].maxAttempts)
  }

  ghost predicate Leases(p: Params, s: System, a: Action, s': System, j: JobId)
    requires j in s.table.jobs && j in s'.table.jobs
  {
    && a.Claim? && a.e !in s.execs && Q.Eligible(s.table.jobs[j], s.now)
    && (p.freshWorkers ==> forall x <- s.execs :: s.execs[x].worker != a.worker)
    && s'.table.jobs[j] == Q.Leased(s.table.jobs[j], a.worker, s.now, p.leaseMs)
    && s'.execs == s.execs[a.e := Execution(j, a.worker, H.IDLE, s.now + a.delay + p.intervalMs, false, 0, None)]
    && s'.claimant == s.claimant[j := a.e]
  }

  // What lets an execution make its final write: the owner named now, or the one it has read before.
  ghost predicate PassedCheck(p: Params, s: System, e: ExecId)
    requires Active(s, e)
  {
    if p.atomicFinish then s.table.jobs[s.execs[e].job].leaseOwner == Some(s.execs[e].worker) else s.execs[e].owned == Some(true)
  }

  ghost predicate Finishes(p: Params, s: System, a: Action, s': System, j: JobId)
    requires j in s.table.jobs && j in s'.table.jobs
  {
    && a.Finish? && Active(s, a.e) && s.execs[a.e].job == j && PassedCheck(p, s, a.e)
    && s.table.jobs[j].payloadValid && s'.table.jobs[j].leaseOwner == None
    && a.status.Terminal() && s'.table.jobs[j].status == FinalStatus(s.execs[a.e].monitor, a.status)
  }

  ghost predicate Rejects(s: System, a: Action, s': System, j: JobId)
    requires j in s.table.jobs && j in s'.table.jobs
  {
    && a.RejectPayload? && Active(s, a.e) && s.execs[a.e].job == j && !s.table.jobs[j].payloadValid
    && s'.table.jobs[j].leaseOwner == None && s'.table.jobs[j].status == Failed
    && s'.table.jobs[j].result == s.table.jobs[j].result
  }

  // The ways one step can change one row.
  ghost predicate RowStep(p: Params, s: System, a: Action, s': System, j: JobId)
    requires j in s.table.jobs && j in s'.table.jobs
  {
    var row, row' := s.table.jobs[j], s'.table.jobs[j];
    && row'.maxAttempts == row.maxAttempts && row'.payloadValid == row.payloadValid
    && (|| row' == row
        || Leases(p, s, a, s', j)
        || (a.Claim? && Q.Dead(row, s.now) && row' == Q.Exhausted(row, s.now))
        || (a.Beat? && row.status == JobStatus.Running && row' == row.(leaseExpiresAt := row'.leaseExpiresAt, updatedAt := row'.updatedAt))
        || (a == CancelJob(j) && !row.status.Terminal() && row' == row.(status := Cancelled, finishedAt := row'.finishedAt, updatedAt := row'.updatedAt))
        || (Rejects(s, a, s', j) && row'.attempts == row.attempts)
        || (Finishes(p, s, a, s', j) && row'.attempts == row.attempts))
  }

  // A monitor that has aborted stays as it is; one has a reason exactly when it has aborted.
  ghost predicate KeepsReason(m: H.Monitor, m': H.Monitor) {
    && (m.aborted ==> m' == m)
    && ((m.aborted <==> m.reason.Some?) ==> (m'.aborted <==> m'.reason.Some?))
  }

  // The ownership read is made once, and finds what the row says then.
  ghost predicate KeepsCheck(s: System, x: Execution, x': Execution) {
    x'.owned == x.owned
    || (x.owned == None && (x'.owned == Some(true) ==> Q.OwnsLease(s.table, x.job, x.worker)))
  }

  ghost predicate Marks(s: System, s': System, e: ExecId)
    requires e in s.execs
  {
    && e in s'.execs && s'.claimant == s.claimant && s'.execs == s.execs[e := s'.execs[e]]
    && s'.execs[e].job == s.execs[e].job && s'.execs[e].worker == s.execs[e].worker
    && (s.execs[e].done ==> s'.execs[e].done) && KeepsCheck(s, s.execs[e], s'.execs[e])
    && KeepsReason(s.execs[e].monitor, s'.execs[e].monitor)
  }

  // The ways one step can change the executions: none, one marked, or one more with a job leased to it.
  ghost predicate ExecStep(p: Params, s: System, a: Action, s': System) {
    || (s'.execs == s.execs && s'.claimant == s.claimant)
    || (!a.Claim? && !a.Enqueue? && !a.CancelJob? && !a.Advance? && a.e in s.execs && Marks(s, s', a.e))
    || (a.Claim? && a.e in s'.execs && s'.execs[a.e].job in s.table.jobs && s'.execs[a.e].job in s'.table.jobs
        && Leases(p, s, a, s', s'.execs[a.e].job))
  }

  // Every row of the table after the step is an old row changed in one of those ways, or a new one.
  ghost predicate TableStep(p: Params, s: System, a: Action, s': System) {
    && (forall j <- s'.table.jobs :: j !in s.table.jobs ==> s'.table.jobs[j].leaseOwner == None && s'.table.jobs[j].attempts == 0)
    && (forall j <- s.table.jobs :: j in s'.table.jobs && RowStep(p, s, a, s', j))
  }

  lemma StepKeepsReason(threshold: int, m: H.Monitor, b: H.Beat)
    ensures KeepsReason(m, H.Step(threshold, m, b))
  {
  }

  lemma StepOfClaim(p: Params, s: System, a: Action, t: Q.Table, pick: Option<JobId>)
    requires a.Claim? && a.e !in s.execs && (p.freshWorkers ==> forall x <- s.execs :: s.execs[x].worker != a.worker)
    requires Q.ClaimChanges(s.table, a.worker, s.now, p.leaseMs, t, pick)
    ensures var s' := AfterClaim(p, s, a.e, a.worker, a.delay, t, pick); TableStep(p, s, a, s') && ExecStep(p, s, a, s')
  {
    var s' := AfterClaim(p, s, a.e, a.worker, a.delay, t, pick);
    if pick.Some? { assert Leases(p, s, a, s', pick.value); }
  }

  lemma StepOfBeat(p: Params, s: System, a: Action)
    requires a.Beat? && s.table.Valid() && Apply(p, s, a).Some?
    ensures var s' := Apply(p, s, a).value; TableStep(p, s, a, s') && ExecStep(p, s, a, s')
  {
    StepKeepsReason(p.threshold, s.execs[a.e].monitor, a.beat);
    assert Marks(s, Apply(p, s, a).value, a.e);
  }

  lemma StepOfEnd(p: Params, s: System, a: Action)
    requires (a.RejectPayload? || a.CheckOwner? || a.Finish?) && s.table.Valid() && Apply(p, s, a).Some?
    ensures var s' := Apply(p, s, a).value; TableStep(p, s, a, s') && ExecStep(p, s, a, s')
  {
    assert Marks(s, Apply(p, s, a).value, a.e);
  }

  lemma StepShape(p: Params, s: System, a: Action)
    requires s.table.Valid() && Apply(p, s, a).Some?
    ensures var s' := Apply(p, s, a).value; TableStep(p, s, a, s') && ExecStep(p, s, a, s')
  {
    match a
    case Claim(e, worker, delay) =>
      Q.ClaimIsLocal(s.table, worker, s.now, p.leaseMs);
      var (t, pick) := Q.Claim(s.table, worker, s.now, p.leaseMs);
      StepOfClaim(p, s, a, t, pick);
    case Beat(_, _, _) => StepOfBeat(p, s, a);
    case RejectPayload(_) => StepOfEnd(p, s, a);
    case CheckOwner(_, _) => StepOfEnd(p, s, a);
    case Finish(_, _, _, _) => StepOfEnd(p, s, a);
    case _ =>
  }

  lemma OwnerOfRow(p: Params, s: System, a: Action, s': System, j: JobId)
    requires j in s.table.jobs && j in s'.table.jobs && OwnerClaimed(s, j) && RowStep(p, s, a, s', j) && ExecStep(p, s, a, s')
    ensures OwnerClaimed(s', j)
  {
  }

  lemma OwnerStep(p: Params, s: System, a: Action, s': System)
    requires OwnerIsClaimant(s) && TableStep(p, s, a, s') && ExecStep(p, s, a, s')
    ensures OwnerIsClaimant(s')
  {
    forall j <- s'.table.jobs ensures OwnerClaimed(s', j) {
      if j in s.table.jobs { OwnerOfRow(p, s, a, s', j); }
    }
  }

  lemma WorkersStep(p: Params, s: System, a: Action)
    requires p.freshWorkers && s.table.Valid() && DistinctWorkers(s) && Apply(p, s, a).Some?
    ensures DistinctWorkers(Apply(p, s, a).value)
  {
  }

  // Ended executions stay ended, and a new write is by one that ends in this very step.
  ghost predicate EndsStay(s: System, s': System) {
    && (forall e <- s.execs | s.execs[e].done :: e in s'.execs && s'.execs[e].done)
    && (s'.writes != s.writes ==>
          && |s'.writes| == |s.writes| + 1 && s'.writes[..|s.writes|] == s.writes
          && var e := s'.writes[|s.writes|].exec; e in s.execs && !s.execs[e].done && e in s'.execs && s'.execs[e].done)
  }

  lemma WritesStayFinal(s: System, s': System)
    requires WritesAreFinal(s) && EndsStay(s, s')
    ensures WritesAreFinal(s')
  {
    forall k | 0 <= k < |s'.writes| && k < |s.writes| ensures s'.writes[k] == s.writes[k] {
      if s'.writes != s.writes { assert s'.writes[..|s.writes|][k] == s.writes[k]; }
    }
  }

  lemma WritesStep(p: Params, s: System, a: Action)
    requires s.table.Valid() && WritesAreFinal(s) && Apply(p, s, a).Some?
    ensures WritesAreFinal(Apply(p, s, a).value)
  {
    assert EndsStay(s, Apply(p, s, a).value);
    WritesStayFinal(s, Apply(p, s, a).value);
  }

  lemma ClaimsGrow(p: Params, s: System, a: Action, s': System, j: JobId)
    requires ExecStep(p, s, a, s') && j in s.table.jobs && j in s'.table.jobs
    ensures Claims(s', j) == if Leases(p, s, a, s', j) then Claims(s, j) + {a.e} else Claims(s, j)
  {
    if a.Claim? && a.e in s'.execs && s'.execs != s.execs {
      assert forall e :: e in s'.execs <==> e == a.e || e in s.execs;
    } else if s'.execs != s.execs {
      assert forall e :: e in s'.execs <==> e in s.execs;
    }
  }

  lemma AttemptsOfRow(p: Params, s: System, a: Action, s': System, j: JobId)
    requires j in s.table.jobs && j in s'.table.jobs && RowStep(p, s, a, s', j) && ExecStep(p, s, a, s')
    requires |Claims(s, j)| == s.table.jobs[j].attempts
    requires s.table.jobs[j].attempts == 0 || s.table.jobs[j].attempts <= s.table.jobs[j].maxAttempts
    ensures |Claims(s', j)| == s'.table.jobs[j].attempts
    ensures s'.table.jobs[j].attempts == 0 || s'.table.jobs[j].attempts <= s'.table.jobs[j].maxAttempts
  {
    ClaimsGrow(p, s, a, s', j);
  }

  lemma AttemptsStep(p: Params, s: System, a: Action, s': System)
    requires AttemptsCountClaims(s) && TableStep(p, s, a, s') && ExecStep(p, s, a, s')
    ensures AttemptsCountClaims(s')
  {
    forall j <- s'.table.jobs
      ensures |Claims(s', j)| == s'.table.jobs[j].attempts
      ensures s'.table.jobs[j].attempts == 0 || s'.table.jobs[j].attempts <= s'.table.jobs[j].maxAttempts
    {
      if j in s.table.jobs {
        AttemptsOfRow(p, s, a, s', j);
      } else {
        assert Claims(s', j) == {};
      }
    }
  }

  lemma {:induction false} HistoryHolds(p: Params, actions: seq<Action>)
    requires Run(p, actions).Some?
    ensures var s := Run(p, actions).value;
            && OwnerIsClaimant(s) && WritesAreFinal(s) && AttemptsCountClaims(s)
            && (p.freshWorkers ==> DistinctWorkers(s))
  {
    if actions != [] {
      HistoryHolds(p, actions[..|actions| - 1]);
      var s, a := Run(p, actions[..|actions| - 1]).value, actions[|actions| - 1];
      StepShape(p, s, a);
      OwnerStep(p, s, a, Run(p, actions).value);
      WritesStep(p, s, a);
      AttemptsStep(p, s, a, Run(p, actions).value);
      if p.freshWorkers { WorkersStep(p, s, a); }
    }
  }

  // The action is a final write to `j` by the execution that claimed `j` last and has not ended.
  ghost predicate FinishedByClaimant(s: System, a: Action, j: JobId) {
    a.Finish? && IsClaimant(s, a.e) && s.execs[a.e].job == j && !s.execs[a.e].done
  }

  // The action is a final write to `j` by an unfinished execution that has found itself named as the owner.
  ghost predicate FinishedByOwner(p: Params, s: System, a: Action, j: JobId) {
    a.Finish? && Active(s, a.e) && s.execs[a.e].job == j && PassedCheck(p, s, a.e)
  }

  /**
   * A result is only ever written by an execution that found itself named as the owner, and a job reaches a new
   * terminal status only through such a write, a cancel, the attempt sweep of a claim, or the rejection of a payload
   * that cannot be parsed. With a worker id per execution and an undivided finish the writer is the last claimant.
   */
  lemma NoClobbering(p: Params, actions: seq<Action>, a: Action, j: JobId)
    requires Run(p, actions).Some?
    requires j in Run(p, actions).value.table.jobs && Apply(p, Run(p, actions).value, a).Some?
    ensures var s := Run(p, actions).value;
            var old_row, new_row := s.table.jobs[j], Apply(p, s, a).value.table.jobs[j];
            && (new_row.result != old_row.result ==> FinishedByOwner(p, s, a, j))
            && (new_row.status != old_row.status && new_row.status.Terminal() ==>
                  || FinishedByOwner(p, s, a, j)
                  || a == CancelJob(j)
                  || (a.Claim? && Q.Dead(old_row, s.now))
                  || (a.RejectPayload? && !old_row.payloadValid))
            && (p.freshWorkers && p.atomicFinish && FinishedByOwner(p, s, a, j) ==> FinishedByClaimant(s, a, j))
  {
    HistoryHolds(p, actions);
    var s := Run(p, actions).value;
    StepShape(p, s, a);
    assert RowStep(p, s, a, Apply(p, s, a).value, j) && OwnerClaimed(s, j);
    if p.freshWorkers && p.atomicFinish && FinishedByOwner(p, s, a, j) {
      assert s.execs[s.claimant[j]].worker == s.execs[a.e].worker;
    }
  }

  /**
   * With beats on time and a lease that fits, worker ids shared or not and the finish divided or not: an execution
   * that has not been told to stop and ends is the most recent claimant of its job, so it overwrites no other.
   */
  lemma LiveEndingsAreByClaimants(p: Params, k: nat, actions: seq<Action>, a: Action)
    requires Fits(p, k) && OnTimeRun(p, k, actions) && Apply(p, Run(p, actions).value, a).Some?
    requires (a.Finish? || a.RejectPayload?) && Run(p, actions).value.execs[a.e].Live()
    ensures var s := Run(p, actions).value;
            && IsClaimant(s, a.e)
            && forall e <- s.execs :: e != a.e && s.execs[e].job == s.execs[a.e].job ==> !s.execs[e].Live()
  {
    TimedRunsAreExclusive(p, k, actions);
  }

  /** Each claim writes an outcome at most once, and a job is claimed at most maxAttempts times. */
  lemma OneWritePerClaimAndBoundedClaims(p: Params, actions: seq<Action>, j: JobId)
    requires Run(p, actions).Some? && j in Run(p, actions).value.table.jobs
    ensures var s := Run(p, actions).value;
            && (forall i, k | 0 <= i < k < |s.writes| :: s.writes[i].exec != s.writes[k].exec)
            && |Claims(s, j)| == s.table.jobs[j].attempts
            && (Claims(s, j) == {} || |Claims(s, j)| <= s.table.jobs[j].maxAttempts)
  {
    HistoryHolds(p, actions);
  }

}
