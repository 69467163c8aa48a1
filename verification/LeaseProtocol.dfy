/**
 * Many workers over one queue. A system state holds the table, every execution ever
 * started, and history variables: who claimed each job last, every write a worker made
 * to a job's outcome, and the log lines refused in a row. Runs are action lists; an action that is not
 * possible in the current state makes the run undefined.
 */
module LeaseProtocol {
  import opened Prelude
  import opened JobTypes
  import Q = JobQueue
  import H = Heartbeat

  type ExecId = nat

  // `freshWorkers`: every execution uses a worker id of its own; `atomicFinish`: nothing comes between the
  // ownership read that ends an execution and its final write. The program makes them as two calls.
  datatype Params = Params(
    leaseMs: int, intervalMs: int, startDelayMs: int, threshold: int, freshWorkers: bool, atomicFinish: bool)
  {
    ghost predicate Valid() {
      intervalMs >= 0 && startDelayMs >= 0
    }

    // Failing beats in a row that make the monitor abort.
    function Patience(): (k: int)
    {
      if threshold < 1 then 1 else threshold
    }
  }

  // `due` is the latest time of the next beat; `refused` counts the last failing beats whose log line was refused;
  // `owned` is what the ownership read before the final write has found, once it was made.
  datatype Execution = Execution(
    job: JobId, worker: WorkerId, monitor: H.Monitor, due: int, done: bool, refused: nat, owned: Option<bool>)
  {
    predicate Live() {
      !done && !monitor.aborted
    }
  }

  datatype Write = Write(job: JobId, exec: ExecId)

  datatype System = System(now: int, table: Q.Table, execs: map<ExecId, Execution>, claimant: map<JobId, ExecId>, writes: seq<Write>)

  datatype Action =
    | Enqueue(id: JobId, payloadValid: bool, priority: int, maxAttempts: int)
    | Claim(e: ExecId, worker: WorkerId, delay: int)
    | Beat(e: ExecId, beat: H.Beat, lostAck: bool)
    | CancelJob(id: JobId)
    | RejectPayload(e: ExecId)
    | CheckOwner(e: ExecId, readOk: bool)
    | Finish(e: ExecId, status: JobStatus, result: JobResult, readOk: bool)
    | Advance(to: int)

  const INITIAL := System(0, Q.Table(map[], []), map[], map[], [])

  predicate LeaseFailed(m: H.Monitor) {
    m.reason == Some(H.LeaseRenewalFailed) || m.reason == Some(H.LeaseLost)
  }

  function FinalStatus(m: H.Monitor, status: JobStatus): JobStatus {
    if LeaseFailed(m) then Failed else status
  }

  // The running executions whose job row exists: those that may beat, reject or finish.
  ghost predicate Active(s: System, e: ExecId) {
    e in s.execs && !s.execs[e].done && s.execs[e].job in s.table.jobs
  }

  ghost function AfterClaim(p: Params, s: System, e: ExecId, worker: WorkerId,
                            delay: int, t: Q.Table, pick: Option<JobId>): System
  {
    match pick
    case None => s.(table := t)
    case Some(id) =>
      var x := Execution(id, worker, H.IDLE, s.now + delay + p.intervalMs, false, 0, None);
      s.(table := t, execs := s.execs[e := x], claimant := s.claimant[id := e])
  }

  ghost function ApplyClaim(p: Params, s: System, e: ExecId, worker: WorkerId, delay: int): (r: Option<System>)
    requires s.table.Valid()
    ensures r.Some? ==> r.value.table.Valid()
  {
    if e in s.execs || !(0 <= delay <= p.startDelayMs) then None
    else if p.freshWorkers && exists x <- s.execs :: s.execs[x].worker == worker then None
    else
      Q.ClaimIsLocal(s.table, worker, s.now, p.leaseMs);
      var (t, pick) := Q.Claim(s.table, worker, s.now, p.leaseMs);
      Some(AfterClaim(p, s, e, worker, delay, t, pick))
  }

  ghost function AfterBeat(p: Params, s: System, x: Execution, b: H.Beat): Execution {
    x.(monitor := H.Step(p.threshold, x.monitor, b), due := s.now + p.intervalMs,
       refused := if H.Caught(b) && !b.catchLogOk then x.refused + 1 else 0)
  }

  // A renewal that throws may still have reached the table (`lostAck`).
  ghost function ApplyBeat(p: Params, s: System, e: ExecId, b: H.Beat, lostAck: bool): (r: Option<System>)
    requires s.table.Valid()
    ensures r.Some? ==> r.value.table.Valid()
  {
    if !Active(s, e) || s.execs[e].monitor.aborted || s.execs[e].owned.Some? || !s.table.jobs[s.execs[e].job].payloadValid then None
    else
      var x := s.execs[e];
      var can := Q.CanRenew(s.table, x.job, x.worker);
      if (b.reply.Renewed? && !can) || (b.reply.Rejected? && can) then None
      else
        var t := if b.reply.Renewed? || (b.reply.Threw? && lostAck) then Q.Renew(s.table, x.job, x.worker, s.now, p.leaseMs) else s.table;
        Some(s.(table := t, execs := s.execs[e := AfterBeat(p, s, x, b)]))
  }

  // An unparsable payload is recorded before the heartbeat starts, without reading the owner.
  ghost function ApplyReject(s: System, e: ExecId): (r: Option<System>)
    requires s.table.Valid()
    ensures r.Some? ==> r.value.table.Valid()
  {
    if !Active(s, e) || s.table.jobs[s.execs[e].job].payloadValid then None
    else
      var x := s.execs[e];
      var row := Q.Patched(s.table.jobs[x.job], Q.RejectionPatch(s.now), s.now);
      Some(s.(table := s.table.(jobs := s.table.jobs[x.job := row]), execs := s.execs[e := x.(done := true)],
              writes := s.writes + [Write(x.job, e)]))
  }

  // The heartbeat has been stopped by then, so no beat follows.
  ghost function ApplyCheck(p: Params, s: System, e: ExecId, readOk: bool): (r: Option<System>)
    requires s.table.Valid()
    ensures r.Some? ==> r.value.table.Valid()
  {
    if p.atomicFinish || !Active(s, e) || s.execs[e].owned.Some? || !s.table.jobs[s.execs[e].job].payloadValid then None
    else
      var x := s.execs[e];
      Some(s.(execs := s.execs[e := x.(owned := Some(readOk && Q.OwnsLease(s.table, x.job, x.worker)))]))
  }

  // The final write is made if the row named this worker when it was read; a failed read writes nothing.
  ghost function ApplyFinish(p: Params, s: System, e: ExecId, status: JobStatus, result: JobResult, readOk: bool)
    : (r: Option<System>)
    requires s.table.Valid()
    ensures r.Some? ==> r.value.table.Valid()
  {
    if !Active(s, e) || !status.Terminal() || !s.table.jobs[s.execs[e].job].payloadValid then None
    else if !p.atomicFinish && s.execs[e].owned == None then None
    else
      var x := s.execs[e];
      var execs := s.execs[e := x.(done := true)];
      if if p.atomicFinish then readOk && Q.OwnsLease(s.table, x.job, x.worker) else x.owned.value then
        var row := Q.Patched(s.table.jobs[x.job], Q.FinalPatch(FinalStatus(x.monitor, status), result, s.now), s.now);
        Some(s.(table := s.table.(jobs := s.table.jobs[x.job := row]), execs := execs, writes := s.writes + [Write(x.job, e)]))
      else Some(s.(execs := execs))
  }

  ghost function Apply(p: Params, s: System, a: Action): (r: Option<System>)
    requires s.table.Valid()
    ensures r.Some? ==> r.value.table.Valid()
  {
    match a
    case Enqueue(id, payloadValid, priority, maxAttempts) =>
      if id in s.table.jobs then None
      else
        var row := Q.NewJob(TestPatch, None, payloadValid, priority, maxAttempts, s.now);
        Some(s.(table := Q.Table(s.table.jobs[id := row], s.table.order + [id])))
    case Claim(e, worker, delay) => ApplyClaim(p, s, e, worker, delay)
    case Beat(e, b, lostAck) => ApplyBeat(p, s, e, b, lostAck)
    case CancelJob(id) => Some(s.(table := Q.Cancel(s.table, id, s.now)))
    case RejectPayload(e) => ApplyReject(s, e)
    case CheckOwner(e, readOk) => ApplyCheck(p, s, e, readOk)
    case Finish(e, status, result, readOk) => ApplyFinish(p, s, e, status, result, readOk)
    case Advance(to) => if to < s.now then None else Some(s.(now := to))
  }

  ghost function Run(p: Params, actions: seq<Action>): (r: Option<System>)
    ensures r.Some? ==> r.value.table.Valid()
  {
    if actions == [] then Some(INITIAL)
    else
      var before := Run(p, actions[..|actions| - 1]);
      if before == None then None else Apply(p, before.value, actions[|actions| - 1])
  }

  // Time never passes a live execution's next beat; one that is ending finishes by then, although its heartbeat has stopped.
  ghost predicate Punctual(s: System, a: Action) {
    a.Advance? ==> forall e <- s.execs :: s.execs[e].Live() ==> a.to <= s.execs[e].due
  }

  // No execution has more than `k` failing beats in a row whose log line is refused.
  ghost predicate Tolerated(k: nat, s: System, a: Action) {
    a.Beat? && a.e in s.execs && H.Caught(a.beat) && !a.beat.catchLogOk ==> s.execs[a.e].refused < k
  }

  ghost predicate OnTimeRun(p: Params, k: nat, actions: seq<Action>) {
    Run(p, actions).Some?
    && (actions != [] ==>
          && OnTimeRun(p, k, actions[..|actions| - 1])
          && Punctual(Run(p, actions[..|actions| - 1]).value, actions[|actions| - 1])
          && Tolerated(k, Run(p, actions[..|actions| - 1]).value, actions[|actions| - 1]))
  }

  // At most one execution that has neither ended nor been told to stop works on a job.
  ghost predicate Exclusive(s: System) {
    forall x, y | x in s.execs && y in s.execs && x != y :: s.execs[x].Live() && s.execs[y].Live() ==> s.execs[x].job != s.execs[y].job
  }

  ghost predicate DistinctWorkers(s: System) {
    forall x, y | x in s.execs && y in s.execs && x != y :: s.execs[x].worker != s.execs[y].worker
  }

  // Lease time a live execution may still spend on failing beats after the next one.
  function Slack(p: Params, k: nat, m: H.Monitor): int {
    (p.Patience() + k - 1 - m.consecutive) * p.intervalMs
  }

  // Failing beats survived so far: short of the patience, plus those whose log line was refused.
  ghost predicate Surviving(p: Params, k: nat, x: Execution) {
    x.refused <= k && x.monitor.consecutive < p.Patience() + x.refused
  }

  ghost predicate Holds(p: Params, k: nat, s: System, x: Execution) {
    && x.job in s.table.jobs
    && var j := s.table.jobs[x.job];
       j.status == JobStatus.Running && j.leaseOwner == Some(x.worker) && j.leaseExpiresAt.Some?
       && Surviving(p, k, x)
       && x.due + Slack(p, k, x.monitor) <= j.leaseExpiresAt.value
  }

  ghost predicate Covered(p: Params, k: nat, s: System, x: Execution) {
    && s.now <= x.due
    && x.job in s.table.jobs
    && (Holds(p, k, s, x) || s.table.jobs[x.job].status.Terminal())
  }

  // The execution is the most recent one to have claimed its job.
  ghost predicate IsClaimant(s: System, e: ExecId) {
    e in s.execs && s.execs[e].job in s.claimant && s.claimant[s.execs[e].job] == e
  }

  ghost predicate TimedInv(p: Params, k: nat, s: System) {
    && s.table.Valid()
    && Exclusive(s)
    && (forall e <- s.execs :: s.execs[e].Live() ==> Covered(p, k, s, s.execs[e]))
    && (forall e <- s.execs :: s.execs[e].Live() ==> IsClaimant(s, e))
  }

  lemma Scaled(a: int, b: int, interval: int)
    requires a <= b && interval >= 0
    ensures a * interval <= b * interval
  {
    assert 0 <= (b - a) * interval == b * interval - a * interval;
  }

  lemma SlackFacts(p: Params, k: nat, m: H.Monitor)
    requires p.Valid()
    ensures Slack(p, k, m) + p.intervalMs <= (p.Patience() + k) * p.intervalMs
    ensures m.consecutive == 0 ==> Slack(p, k, m) + p.intervalMs == (p.Patience() + k) * p.intervalMs
    ensures m.consecutive < p.Patience() + k ==> Slack(p, k, m) >= 0
  {
    var left := p.Patience() + k - m.consecutive;
    assert Slack(p, k, m) + p.intervalMs == left * p.intervalMs by { assert (left - 1) * p.intervalMs == left * p.intervalMs - p.intervalMs; }
    Scaled(left, p.Patience() + k, p.intervalMs);
    if left >= 1 { Scaled(1, left, p.intervalMs); }
  }

  lemma SlackShrinks(p: Params, k: nat, m: H.Monitor, m': H.Monitor)
    requires m'.consecutive == m.consecutive + 1
    ensures Slack(p, k, m') == Slack(p, k, m) - p.intervalMs
  {
    assert (p.Patience() + k - 1 - m.consecutive) * p.intervalMs - p.intervalMs == (p.Patience() + k - 2 - m.consecutive) * p.intervalMs;
  }

  lemma CoveredNotClaimable(p: Params, k: nat, s: System, x: Execution)
    requires p.Valid() && Covered(p, k, s, x)
    ensures !Q.Claimable(s.table.jobs[x.job], s.now)
  {
    if Holds(p, k, s, x) { SlackFacts(p, k, x.monitor); }
  }

  // Lease, beats and start-up fit together, with `k` beats to spare.
  ghost predicate Fits(p: Params, k: nat) {
    p.Valid() && p.startDelayMs + (p.Patience() + k) * p.intervalMs <= p.leaseMs
  }

  lemma TimedAfterClaim(p: Params, k: nat, s: System, e: ExecId, worker: WorkerId, delay: int, t: Q.Table,
                        pick: Option<JobId>)
    requires Fits(p, k) && TimedInv(p, k, s) && e !in s.execs && 0 <= delay <= p.startDelayMs
    requires t.Valid() && Q.ClaimChanges(s.table, worker, s.now, p.leaseMs, t, pick)
    ensures TimedInv(p, k, AfterClaim(p, s, e, worker, delay, t, pick))
  {
    var s' := AfterClaim(p, s, e, worker, delay, t, pick);
    SlackFacts(p, k, H.IDLE);
    forall x <- s.execs | s.execs[x].Live()
      ensures Covered(p, k, s', s.execs[x]) && IsClaimant(s, x)
      ensures pick.Some? ==> pick.value != s.execs[x].job
    {
      CoveredNotClaimable(p, k, s, s.execs[x]);
      assert t.jobs[s.execs[x].job] == s.table.jobs[s.execs[x].job];
    }
  }

  lemma TimedClaim(p: Params, k: nat, s: System, e: ExecId, worker: WorkerId, delay: int)
    requires Fits(p, k) && TimedInv(p, k, s) && ApplyClaim(p, s, e, worker, delay).Some?
    ensures TimedInv(p, k, ApplyClaim(p, s, e, worker, delay).value)
  {
    Q.ClaimIsLocal(s.table, worker, s.now, p.leaseMs);
    var (t, pick) := Q.Claim(s.table, worker, s.now, p.leaseMs);
    TimedAfterClaim(p, k, s, e, worker, delay, t, pick);
  }

  lemma BeatKeepsCover(p: Params, k: nat, s: System, e: ExecId, b: H.Beat, lostAck: bool)
    requires Fits(p, k) && s.table.Valid() && ApplyBeat(p, s, e, b, lostAck).Some? && Covered(p, k, s, s.execs[e])
    requires H.Caught(b) && !b.catchLogOk ==> s.execs[e].refused < k
    ensures var s' := ApplyBeat(p, s, e, b, lostAck).value; s'.execs[e].Live() ==> Covered(p, k, s', s'.execs[e])
  {
    var s' := ApplyBeat(p, s, e, b, lostAck).value;
    var x, x' := s.execs[e], s'.execs[e];
    if x'.Live() && Holds(p, k, s, x) {
      SlackFacts(p, k, x'.monitor);
      if !b.reply.Renewed? { SlackShrinks(p, k, x.monitor, x'.monitor); }
      assert Holds(p, k, s', x');
    }
  }

  lemma TimedBeat(p: Params, k: nat, s: System, e: ExecId, b: H.Beat, lostAck: bool)
    requires Fits(p, k) && TimedInv(p, k, s) && ApplyBeat(p, s, e, b, lostAck).Some?
    requires H.Caught(b) && !b.catchLogOk ==> s.execs[e].refused < k
    ensures TimedInv(p, k, ApplyBeat(p, s, e, b, lostAck).value)
  {
    BeatKeepsCover(p, k, s, e, b, lostAck);
    var s' := ApplyBeat(p, s, e, b, lostAck).value;
    forall y <- s'.execs | y != e && s'.execs[y].Live() ensures Covered(p, k, s', s'.execs[y]) {
      assert Covered(p, k, s, s.execs[y]);
    }
  }

  // Rejecting and finishing: every other live execution keeps its row.
  lemma TimedEnd(p: Params, k: nat, s: System, e: ExecId, s': System)
    requires TimedInv(p, k, s) && e in s.execs && s'.table.Valid() && s'.now == s.now
    requires s'.execs == s.execs[e := s.execs[e].(done := true)] && s'.claimant == s.claimant && s'.table.jobs.Keys == s.table.jobs.Keys
    requires forall j <- s.table.jobs :: s'.table.jobs[j] == s.table.jobs[j] || (j == s.execs[e].job && s'.table.jobs[j].status.Terminal())
    ensures TimedInv(p, k, s')
  {
    forall y <- s'.execs | s'.execs[y].Live() ensures Covered(p, k, s', s'.execs[y]) {
      assert Covered(p, k, s, s.execs[y]);
    }
  }

  lemma TimedCheck(p: Params, k: nat, s: System, e: ExecId, readOk: bool)
    requires TimedInv(p, k, s) && ApplyCheck(p, s, e, readOk).Some?
    ensures TimedInv(p, k, ApplyCheck(p, s, e, readOk).value)
  {
    var s' := ApplyCheck(p, s, e, readOk).value;
    forall y <- s'.execs | s'.execs[y].Live() ensures Covered(p, k, s', s'.execs[y]) && IsClaimant(s', y) {
      assert Covered(p, k, s, s.execs[y]) && IsClaimant(s, y);
    }
  }

  lemma TimedReject(p: Params, k: nat, s: System, e: ExecId)
    requires TimedInv(p, k, s) && ApplyReject(s, e).Some?
    ensures TimedInv(p, k, ApplyReject(s, e).value)
  {
    TimedEnd(p, k, s, e, ApplyReject(s, e).value);
  }

  lemma TimedFinish(p: Params, k: nat, s: System, e: ExecId, status: JobStatus, result: JobResult, readOk: bool)
    requires TimedInv(p, k, s) && ApplyFinish(p, s, e, status, result, readOk).Some?
    ensures TimedInv(p, k, ApplyFinish(p, s, e, status, result, readOk).value)
  {
    TimedEnd(p, k, s, e, ApplyFinish(p, s, e, status, result, readOk).value);
  }

  // New rows, cancels and the clock: no execution changes.
  lemma TimedOther(p: Params, k: nat, s: System, a: Action)
    requires TimedInv(p, k, s) && Punctual(s, a) && Apply(p, s, a).Some? && (a.Enqueue? || a.CancelJob? || a.Advance?)
    ensures TimedInv(p, k, Apply(p, s, a).value)
  {
    var s' := Apply(p, s, a).value;
    forall y <- s'.execs | s'.execs[y].Live() ensures Covered(p, k, s', s'.execs[y]) && IsClaimant(s', y) {
      assert Covered(p, k, s, s.execs[y]) && IsClaimant(s, y);
    }
  }

  lemma TimedStep(p: Params, k: nat, s: System, a: Action)
    requires Fits(p, k) && TimedInv(p, k, s) && Punctual(s, a) && Tolerated(k, s, a) && Apply(p, s, a).Some?
    ensures TimedInv(p, k, Apply(p, s, a).value)
  {
    match a
    case Claim(e, worker, delay) => TimedClaim(p, k, s, e, worker, delay);
    case Beat(e, b, lostAck) => TimedBeat(p, k, s, e, b, lostAck);
    case RejectPayload(e) => TimedReject(p, k, s, e);
    case CheckOwner(e, readOk) => TimedCheck(p, k, s, e, readOk);
    case Finish(e, status, result, readOk) => TimedFinish(p, k, s, e, status, result, readOk);
    case _ => TimedOther(p, k, s, a);
  }

  /**
   * Every run with beats on time and at most `k` log lines refused in a row keeps the executions
   * of one job exclusive, when lease, start-up and patience + k beats fit.
   */
  lemma {:induction false} TimedRunsAreExclusive(p: Params, k: nat, actions: seq<Action>)
    requires Fits(p, k) && OnTimeRun(p, k, actions)
    ensures TimedInv(p, k, Run(p, actions).value)
  {
    if actions != [] {
      TimedRunsAreExclusive(p, k, actions[..|actions| - 1]);
      TimedStep(p, k, Run(p, actions[..|actions| - 1]).value, actions[|actions| - 1]);
    }
  }
}
