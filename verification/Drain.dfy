/**
 * The worker's claim-until-empty loop. A pass starts a batch of polls and waits for all of them; its
 * schedule is any interleaving of those polls with renewals, endings, cancels and the steps of other workers.
 */
module Drain {
  import opened Prelude
  import opened JobTypes
  import J = JobService
  import Q = JobQueue
  import S = SandboxRunner

  // `LateWrite` is a final write whose ownership read was made some steps before.
  datatype Step =
    | Poll(now: int)
    | OtherPoll(worker: WorkerId, leaseMs: int, now: int)
    | RenewLease(id: JobId, worker: WorkerId, leaseSeconds: int, now: int)
    | Conclude(id: JobId, worker: WorkerId, out: Option<S.RunResult>, end: J.Ending)
    | LateWrite(id: JobId, status: JobStatus, result: JobResult, now: int)
    | Reject(id: JobId, now: int)
    | Cancel(id: JobId, now: int)

  function Time(step: Step): int {
    if step.Conclude? then step.end.now else step.now
  }

  predicate WellFormed(step: Step) {
    && (step.Conclude? && step.out.Some? ==> step.out.value.status.Terminal())
    && (step.LateWrite? ==> step.status.Terminal())
    && (step.OtherPoll? ==> step.leaseMs >= 0) && (step.RenewLease? ==> step.leaseSeconds >= 0)
  }

  // The clock does not run backwards within a pass.
  ghost predicate InTimeOrder(steps: seq<Step>) {
    forall i, j :: 0 <= i < j < |steps| ==> Time(steps[i]) <= Time(steps[j])
  }

  function Polls(steps: seq<Step>, n: nat): (count: nat)
    requires n <= |steps|
    ensures count <= n
  {
    if n == 0 then 0 else Polls(steps, n - 1) + if steps[n - 1].Poll? then 1 else 0
  }

  // ---- The measure: attempts that live jobs still have ----

  function Room(j: Job): nat {
    if j.status.Terminal() || j.maxAttempts <= j.attempts then 0 else j.maxAttempts - j.attempts
  }

  function Budget(jobs: map<JobId, Job>, order: seq<JobId>, n: nat): nat
    requires n <= |order| && forall id <- order :: id in jobs
  {
    if n == 0 then 0 else Budget(jobs, order, n - 1) + Room(jobs[order[n - 1]])
  }

  ghost function TotalRoom(t: Q.Table): nat
    requires t.Valid()
  {
    Budget(t.jobs, t.order, |t.order|)
  }

  lemma {:induction false} BudgetShrinks(before: map<JobId, Job>, after: map<JobId, Job>,
                                         order: seq<JobId>, n: nat, at: Option<nat>)
    requires n <= |order| && (forall id <- order :: id in before && id in after && Room(after[id]) <= Room(before[id]))
    requires at.Some? ==> at.value < |order| && Room(after[order[at.value]]) < Room(before[order[at.value]])
    ensures Budget(after, order, n) + (if at.Some? && at.value < n then 1 else 0) <= Budget(before, order, n)
  {
    if n > 0 { BudgetShrinks(before, after, order, n - 1, at); }
  }

  // What every step keeps: the rows are the same, none gains room, and a claimed one loses some.
  ghost predicate NoRoomGained(before: Q.Table, after: Q.Table, claimed: Option<JobId>) {
    && after.order == before.order && after.jobs.Keys == before.jobs.Keys
    && (forall id <- before.jobs :: Room(after.jobs[id]) <= Room(before.jobs[id]))
    && (claimed.Some? ==> claimed.value in before.jobs && Room(after.jobs[claimed.value]) < Room(before.jobs[claimed.value]))
  }

  lemma TotalShrinks(before: Q.Table, after: Q.Table, claimed: Option<JobId>)
    requires before.Valid() && after.Valid() && NoRoomGained(before, after, claimed)
    ensures TotalRoom(after) + (if claimed.Some? then 1 else 0) <= TotalRoom(before)
  {
    var at := if claimed.Some? then Some(Q.Position(before.order, claimed.value)) else None;
    BudgetShrinks(before.jobs, after.jobs, before.order, |before.order|, at);
  }

  ghost predicate Quiet(t: Q.Table, now: int) {
    forall id <- t.jobs :: !Q.Claimable(t.jobs[id], now)
  }

  // A claim spends room on the job it takes.
  lemma ClaimSpends(before: Q.Table, worker: WorkerId, now: int, leaseMs: int, after: Q.Table, pick: Option<JobId>)
    requires Q.ClaimChanges(before, worker, now, leaseMs, after, pick)
    ensures NoRoomGained(before, after, pick)
  {
  }

  // A claim that finds nothing has failed every dead row, so nothing claimable is left.
  lemma EmptyClaimLeavesQuiet(before: Q.Table, worker: WorkerId, now: int, leaseMs: int, after: Q.Table)
    requires before.Valid() && Q.IsFirstEligible(before, now, None) && Q.ScanEffect(before, worker, now, leaseMs, after, None)
    ensures Quiet(after, now)
  {
    forall id <- after.jobs ensures !Q.Claimable(after.jobs[id], now) {
      assert !Q.Eligible(before.jobs[id], now);
    }
  }

  // A claim at or after `t` takes and fails rows; neither makes one claimable at `t`.
  lemma ClaimKeepsQuiet(before: Q.Table, worker: WorkerId, now: int, leaseMs: int,
                        after: Q.Table, pick: Option<JobId>, t: int)
    requires Q.ClaimChanges(before, worker, now, leaseMs, after, pick) && leaseMs >= 0 && t <= now
    ensures Quiet(before, t) ==> Quiet(after, t)
  {
  }

  // One poll, by this worker or another one.
  method PollOnce(queue: Q.InMemoryJobQueue, worker: WorkerId, now: int, leaseMs: int, ghost t: int)
    returns (job: Option<JobId>)
    requires queue.Valid() && leaseMs >= 0 && t <= now
    modifies queue`jobs
    ensures queue.Valid() && NoRoomGained(old(queue.Rows()), queue.Rows(), job)
    ensures job == None ==> Quiet(queue.Rows(), now)
    ensures Quiet(old(queue.Rows()), t) ==> Quiet(queue.Rows(), t)
  {
    ghost var before := queue.Rows();
    Q.ClaimIsLocal(before, worker, now, leaseMs);
    job := queue.ClaimNext(worker, now, leaseMs);
    ClaimSpends(before, worker, now, leaseMs, queue.Rows(), job);
    ClaimKeepsQuiet(before, worker, now, leaseMs, queue.Rows(), job, t);
    if job == None { EmptyClaimLeavesQuiet(before, worker, now, leaseMs, queue.Rows()); }
  }

  // An ending of some execution: it can only make a row terminal.
  method EndRow(queue: Q.InMemoryJobQueue, step: Step, ghost t: int)
    requires queue.Valid() && WellFormed(step) && (step.Conclude? || step.LateWrite? || step.Reject?) && t <= Time(step)
    modifies queue`jobs
    ensures queue.Valid() && NoRoomGained(old(queue.Rows()), queue.Rows(), None)
    ensures Quiet(old(queue.Rows()), t) ==> Quiet(queue.Rows(), t)
  {
    match step {
      case Conclude(id, owner, out, end) =>
        var result := J.Conclude(queue, id, owner, out, end);
      case LateWrite(id, status, result, now) =>
        var found := queue.SetStatus(id, Q.FinalPatch(status, result, now), now);
      case Reject(id, now) =>
        var found := J.RejectPayload(queue, id, now);
    }
  }

  // Whatever the others do to rows between the polls.
  method Interleave(queue: Q.InMemoryJobQueue, step: Step, ghost t: int)
    requires queue.Valid() && WellFormed(step) && !step.Poll? && !step.OtherPoll? && t <= Time(step)
    modifies queue`jobs
    ensures queue.Valid() && NoRoomGained(old(queue.Rows()), queue.Rows(), None)
    ensures Quiet(old(queue.Rows()), t) ==> Quiet(queue.Rows(), t)
  {
    if step.RenewLease? {
      var renewed := queue.RenewLease(step.id, step.worker, step.leaseSeconds, step.now);
    } else if step.Cancel? {
      var cancelled := queue.CancelJob(step.id, step.now);
    } else {
      EndRow(queue, step, t);
    }
  }

  method Perform(queue: Q.InMemoryJobQueue, worker: WorkerId, leaseMs: int, step: Step, ghost t: int)
    returns (claimed: bool)
    requires queue.Valid() && WellFormed(step) && leaseMs >= 0 && t <= Time(step)
    modifies queue`jobs
    ensures queue.Valid() && (claimed ==> step.Poll?)
    ensures TotalRoom(queue.Rows()) + (if claimed then 1 else 0) <= TotalRoom(old(queue.Rows()))
    ensures step.Poll? && !claimed ==> Quiet(queue.Rows(), step.now)
    ensures Quiet(old(queue.Rows()), t) ==> Quiet(queue.Rows(), t)
  {
    claimed := false;
    ghost var before, pick: Option<JobId> := queue.Rows(), None;
    match step {
      case Poll(now) =>
        var job := PollOnce(queue, worker, now, leaseMs, t);
        claimed, pick := job.Some?, job;
      case OtherPoll(other, lease, now) =>
        var job := PollOnce(queue, other, now, lease, t);
        pick := job;
      case _ =>
        Interleave(queue, step, t);
    }
    TotalShrinks(before, queue.Rows(), pick);
  }

  /** One pass: every claim spends an attempt of a live job; a pass without a claim leaves an empty queue. */
  method Pass(queue: Q.InMemoryJobQueue, worker: WorkerId, leaseMs: int, steps: seq<Step>)
    returns (ran: nat, ghost last: nat)
    requires queue.Valid() && leaseMs >= 0
    requires Polls(steps, |steps|) > 0 && InTimeOrder(steps) && forall s <- steps :: WellFormed(s)
    modifies queue`jobs
    ensures queue.Valid()
    ensures ran <= Polls(steps, |steps|) && TotalRoom(queue.Rows()) + ran <= TotalRoom(old(queue.Rows()))
    ensures last < |steps| && steps[last].Poll? && forall k | last < k < |steps| :: !steps[k].Poll?
    ensures ran == 0 ==> Quiet(queue.Rows(), Time(steps[last]))
  {
    ran, last := 0, |steps|;
    for i := 0 to |steps|
      invariant queue.Valid()
      invariant ran <= Polls(steps, i) && TotalRoom(queue.Rows()) + ran <= TotalRoom(old(queue.Rows()))
      invariant if last < i then steps[last].Poll? && forall k | last < k < i :: !steps[k].Poll?
                else last == |steps| && Polls(steps, i) == 0
      invariant ran == 0 && last < i ==> Quiet(queue.Rows(), Time(steps[last]))
    {
      var claimed := Perform(queue, worker, leaseMs, steps[i], if last < i then Time(steps[last]) else Time(steps[i]));
      if claimed { ran := ran + 1; }
      if steps[i].Poll? { last := i; }
    }
  }

  /**
   * The loop ends: a pass that claims something spends part of the attempts left, so at most that many
   * jobs are processed; and unless it was told to stop, no row is claimable as of its last poll.
   */
  method DrainQueue(queue: Q.InMemoryJobQueue, worker: WorkerId, leaseMs: int, concurrency: nat,
                    schedule: nat -> seq<Step>, stopping: nat -> bool)
    returns (processed: nat, ghost stopped: bool, ghost pass: nat, ghost last: nat)
    requires queue.Valid() && concurrency >= 1 && leaseMs >= 0
    requires forall p: nat :: Polls(schedule(p), |schedule(p)|) == concurrency && InTimeOrder(schedule(p))
    requires forall p: nat, k: nat :: k < |schedule(p)| ==> WellFormed(schedule(p)[k])
    modifies queue`jobs
    ensures queue.Valid()
    ensures TotalRoom(queue.Rows()) + processed <= TotalRoom(old(queue.Rows()))
    ensures stopped ==> stopping(pass)
    ensures !stopped ==> last < |schedule(pass)| && schedule(pass)[last].Poll? && Quiet(queue.Rows(), Time(schedule(pass)[last]))
  {
    processed, stopped, pass, last := 0, false, 0, 0;
    var p: nat := 0;
    while true
      invariant queue.Valid() && TotalRoom(queue.Rows()) + processed <= TotalRoom(old(queue.Rows()))
      invariant pass == p
      decreases TotalRoom(queue.Rows())
    {
      if stopping(p) { stopped := true; return; }
      var ran;
      ran, last := Pass(queue, worker, leaseMs, schedule(p));
      processed := processed + ran;
      if ran == 0 { return; }
      p := p + 1;
      pass := p;
    }
  }
}
