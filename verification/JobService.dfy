/** Running a claimed job to completion: payload, sandbox run, heartbeat verdict, owner-guarded final write. */
module JobService {
  import opened Prelude
  import opened JobTypes
  import A = PatchApplier
  import H = Heartbeat
  import P = LeaseProtocol
  import Q = JobQueue
  import S = SandboxRunner

  // The payload of a job, None when it cannot be parsed.
  datatype Payload = Payload(commands: seq<string>, applyPatch: bool)

  // What is known when the run is over: the monitor's statistics and whether the ownership read succeeded.
  datatype Ending = Ending(monitor: H.Monitor, readOk: bool, now: int)

  function InputOf(job: Job, payload: Payload): S.Input {
    S.Input(job.jobType, payload.commands, if job.jobType == TestPatch then job.patchSetId else None,
            if job.jobType == TestPatch then payload.applyPatch else true)
  }

  function WithHeartbeat(r: JobResult, m: H.Monitor): JobResult {
    var counted := r.(heartbeatRenewals := m.renewals, heartbeatFailures := m.failures, leaseRenewed := m.leaseRenewed);
    if P.LeaseFailed(m) then counted.(cancelledBySignal := true, errors := r.errors + [ApplyError(LeaseRenewalFailed, None)]) else counted
  }

  // A run whose own error path failed counts as a failed run without outcomes.
  function OrCrashed(out: Option<S.RunResult>): S.RunResult {
    if out.Some? then out.value else S.RunResult(Failed, S.BLANK)
  }

  function Concluded(out: Option<S.RunResult>, m: H.Monitor): S.RunResult {
    S.RunResult(P.FinalStatus(m, OrCrashed(out).status), WithHeartbeat(OrCrashed(out).result, m))
  }

  // The row says the run did not pass although its result says it did.
  predicate LoweredPass(r: S.RunResult) {
    r.result.passed && r.status != Passed
  }

  // A sandbox run says so in both places, and a crash passes nothing.
  predicate Consistent(out: Option<S.RunResult>) {
    out.Some? ==> (out.value.result.passed <==> out.value.status == Passed)
  }

  predicate SandboxPassed(out: Option<S.RunResult>) {
    out.Some? && out.value.status == Passed
  }

  /** Status and result disagree iff the sandbox run passed and its lease was lost or could not be renewed. */
  lemma LoweredPassIff(out: Option<S.RunResult>, m: H.Monitor)
    requires Consistent(out)
    ensures var r := Concluded(out, m);
            && (LoweredPass(r) <==> SandboxPassed(out) && P.LeaseFailed(m))
            && (r.status == Passed ==> r.result.passed)
  {
  }

  // As many failing beats as abort the monitor, all of them logged.
  function Outage(threshold: int): seq<H.Beat> {
    seq(if threshold < 1 then 1 else threshold, _ => H.Beat(H.Threw, true, true))
  }

  lemma {:induction false} OutageCounts(threshold: int, n: nat)
    requires n < |Outage(threshold)|
    ensures H.After(threshold, Outage(threshold), n) == H.IDLE.(failures := n, consecutive := n)
  {
    if n > 0 { OutageCounts(threshold, n - 1); }
  }

  /** For every threshold: renewals fail that often, the row still names the worker, and a pass is recorded under `failed`. */
  lemma LoweredPassIsRecorded(threshold: int, t: Q.Table, id: JobId, worker: WorkerId, run: S.RunResult, now: int)
    requires Q.OwnsLease(t, id, worker) && run.status == Passed && run.result.passed
    ensures var m := H.After(threshold, Outage(threshold), |Outage(threshold)|);
            var r := Concluded(Some(run), m);
            var row := Q.Finalise(t, id, worker, r.status, r.result, now).jobs[id];
            row.status == Failed && row.result.Some? && row.result.value.passed && row.result.value.cancelledBySignal
  {
    OutageCounts(threshold, |Outage(threshold)| - 1);
  }

  // The job really was tested: patch applied, then every command run with exit code 0, lease kept.
  ghost predicate TestedInFull(job: Job, payload: Payload, env: S.Env, m: H.Monitor) {
    && S.AllSucceed(env, payload.commands, |payload.commands|)
    && !P.LeaseFailed(m)
    && (job.jobType == TestPatch ==>
          && job.patchSetId.Some?
          && (payload.applyPatch ==> env.applier.Answered? && env.applier.report.patchApplied)
          && (env.production ==> payload.applyPatch))
  }

  // One outcome line per command, in order, each with exit code 0 and no timeout.
  ghost predicate CleanOutcomes(commands: seq<string>, outcomes: seq<CommandOutcome>) {
    |outcomes| == |commands| && forall k | 0 <= k < |commands| ::
      outcomes[k].command == commands[k] && outcomes[k].exitCode == Some(0) && !outcomes[k].timedOut
  }

  // What a row that a run recorded as passed says about that run.
  ghost predicate RecordedBy(row: Job, payload: Payload, env: S.Env, m: H.Monitor) {
    && row.status == Passed && row.result.Some? && row.result.value.passed
    && TestedInFull(row, payload, env, m) && CleanOutcomes(payload.commands, row.result.value.commands)
    && (row.result.value.patchApplied == Some(true) ==>
          && env.applier.Answered? && env.applier.report.patchApplied
          && row.result.value.baseHashChecked == env.applier.report.baseHashChecked
          && row.result.value.changedFiles == env.applier.report.changedFiles)
  }

  // The row of an ended job: nobody holds its lease any more, and nothing but the outcome has changed.
  ghost predicate Closed(before: Job, after: Job, status: JobStatus, result: Option<JobResult>, error: Option<JobError>, now: int) {
    && after.status == status && after.result == result && after.error == error
    && after.leaseOwner == None && after.leaseExpiresAt == None && after.finishedAt == Some(now) && after.updatedAt == now
    && after.attempts == before.attempts && after.maxAttempts == before.maxAttempts && after.priority == before.priority
    && after.createdAt == before.createdAt && after.startedAt == before.startedAt
    && after.jobType == before.jobType && after.patchSetId == before.patchSetId && after.payloadValid == before.payloadValid
  }

  /** A run that could not be parsed: recorded as failed without looking at the lease owner. */
  method RejectPayload(queue: Q.InMemoryJobQueue, id: JobId, now: int) returns (found: bool)
    requires queue.Valid()
    modifies queue`jobs
    ensures queue.Valid()
    ensures found <==> id in old(queue.jobs)
    ensures queue.jobs == if found then old(queue.jobs)[id := Q.Patched(old(queue.jobs)[id], Q.RejectionPatch(now), now)] else old(queue.jobs)
    ensures found ==> Closed(old(queue.jobs)[id], queue.jobs[id], Failed, old(queue.jobs)[id].result, Some(InvalidPayload), now)
  {
    found := queue.SetStatus(id, Q.RejectionPatch(now), now);
  }

  // What the caller gets: the run's own verdict and outcome, lowered when the lease is lost or cannot be renewed.
  ghost predicate Answers(out: Option<S.RunResult>, m: H.Monitor, r: S.RunResult) {
    var run := if out.Some? then out.value else S.RunResult(Failed, S.BLANK);
    var lost := m.reason == Some(H.LeaseRenewalFailed) || m.reason == Some(H.LeaseLost);
    && r.status == (if lost then Failed else run.status)
    && r.result.cancelledBySignal == (lost || run.result.cancelledBySignal)
    && r.result.errors == run.result.errors + (if lost then [ApplyError(LeaseRenewalFailed, None)] else [])
    && r.result.heartbeatRenewals == m.renewals && r.result.heartbeatFailures == m.failures && r.result.leaseRenewed == m.leaseRenewed
    && r.result.passed == run.result.passed && r.result.commands == run.result.commands
    && r.result.patchApplied == run.result.patchApplied && r.result.patchSetId == run.result.patchSetId
    && r.result.changedFiles == run.result.changedFiles && r.result.baseHashChecked == run.result.baseHashChecked
  }

  // The ownership read and the final write.
  method WriteIfOwned(queue: Q.InMemoryJobQueue, id: JobId, worker: WorkerId, status: JobStatus, result: JobResult, end: Ending)
    requires queue.Valid()
    modifies queue`jobs
    ensures queue.Valid()
    ensures queue.Rows() == if end.readOk then Q.Finalise(old(queue.Rows()), id, worker, status, result, end.now) else old(queue.Rows())
    ensures if end.readOk && id in old(queue.jobs) && old(queue.jobs)[id].leaseOwner == Some(worker) then
              && queue.jobs == old(queue.jobs)[id := queue.jobs[id]]
              && Closed(old(queue.jobs)[id], queue.jobs[id], status, Some(result), old(queue.jobs)[id].error, end.now)
            else queue.jobs == old(queue.jobs)
  {
    var stillOurs := end.readOk && id in queue.jobs && queue.jobs[id].leaseOwner == Some(worker);
    if stillOurs {
      var found := queue.SetStatus(id, Q.FinalPatch(status, result, end.now), end.now);
    }
  }

  /** The final write happens iff the row still names this worker; the other rows never change. */
  method Conclude(queue: Q.InMemoryJobQueue, id: JobId, worker: WorkerId, out: Option<S.RunResult>, end: Ending)
    returns (r: S.RunResult)
    requires queue.Valid()
    modifies queue`jobs
    ensures queue.Valid()
    ensures r == Concluded(out, end.monitor) && Answers(out, end.monitor, r)
    ensures Consistent(out) ==> (LoweredPass(r) <==> SandboxPassed(out) && P.LeaseFailed(end.monitor))
    ensures queue.Rows() == if end.readOk then Q.Finalise(old(queue.Rows()), id, worker, r.status, r.result, end.now) else old(queue.Rows())
    ensures if end.readOk && id in old(queue.jobs) && old(queue.jobs)[id].leaseOwner == Some(worker) then
              && queue.jobs == old(queue.jobs)[id := queue.jobs[id]]
              && Closed(old(queue.jobs)[id], queue.jobs[id], r.status, Some(r.result), old(queue.jobs)[id].error, end.now)
            else queue.jobs == old(queue.jobs)
  {
    var run := if out.Some? then out.value else S.RunResult(Failed, S.BLANK);
    var finalStatus := run.status;
    var finalResult := run.result.(heartbeatRenewals := end.monitor.renewals, heartbeatFailures := end.monitor.failures,
                                   leaseRenewed := end.monitor.leaseRenewed);
    if P.LeaseFailed(end.monitor) {
      finalStatus := Failed;
      finalResult := finalResult.(cancelledBySignal := true, errors := finalResult.errors + [ApplyError(LeaseRenewalFailed, None)]);
    }
    if Consistent(out) { LoweredPassIff(out, end.monitor); }
    WriteIfOwned(queue, id, worker, finalStatus, finalResult, end);
    return S.RunResult(finalStatus, finalResult);
  }

  /**
   * A claimed job, run and concluded. A `passed` result means the job was tested in full, and a run
   * tested in full is `passed`; in production a passed patch job has had its patch applied.
   */
  method ProcessClaimedJob(queue: Q.InMemoryJobQueue, id: JobId, worker: WorkerId, job: Job,
                           payload: Option<Payload>, env: S.Env, end: Ending)
    returns (r: S.RunResult)
    requires queue.Valid()
    modifies queue`jobs
    ensures queue.Valid() && queue.order == old(queue.order) && queue.jobs.Keys == old(queue.jobs).Keys
    ensures forall x <- queue.jobs | x != id :: queue.jobs[x] == old(queue.jobs[x])
    ensures payload == None ==> r.status == Failed && (id in queue.jobs ==> queue.jobs[id] == Q.Patched(old(queue.jobs[id]), Q.RejectionPatch(end.now), end.now))
    ensures payload.Some? ==>
              queue.Rows() == if end.readOk then Q.Finalise(old(queue.Rows()), id, worker, r.status, r.result, end.now) else old(queue.Rows())
    ensures r.status == Passed ==> payload.Some? && TestedInFull(job, payload.value, env, end.monitor)
    ensures (payload.Some? && S.ReachesCommands(InputOf(job, payload.value), env) && TestedInFull(job, payload.value, env, end.monitor)) ==>
              r.status == Passed
    ensures r.status == Passed ==> r.result.passed && CleanOutcomes(payload.value.commands, r.result.commands)
    ensures r.status == Passed && job.jobType == TestPatch && env.production ==>
              r.result.patchApplied == Some(true) && r.result.patchSetId == job.patchSetId
    ensures (r.status == Passed && end.readOk && Q.OwnsLease(old(queue.Rows()), id, worker) && old(queue.jobs[id]).jobType == job.jobType
             && old(queue.jobs[id]).patchSetId == job.patchSetId) ==>
              RecordedBy(queue.jobs[id], payload.value, env, end.monitor)
    ensures payload.Some? && P.LeaseFailed(end.monitor) ==> r.status == Failed && r.result.cancelledBySignal
    ensures LoweredPass(r) <==>
              payload.Some? && S.ReachesCommands(InputOf(job, payload.value), env)
              && S.AllSucceed(env, payload.value.commands, |payload.value.commands|) && P.LeaseFailed(end.monitor)
  {
    if payload == None {
      var found := RejectPayload(queue, id, end.now);
      return S.RunResult(Failed, S.BLANK);
    }
    var out := S.RunSandboxJob(InputOf(job, payload.value), env);
    r := Conclude(queue, id, worker, out, end);
  }

  /**
   * Claim and run, with nothing else touching the queue meanwhile: None iff no job was eligible; else the
   * first eligible one has spent an attempt, given its lease back and carries the run's verdict.
   */
  method PollAndRunOnce(queue: Q.InMemoryJobQueue, worker: WorkerId, leaseSeconds: int, now: int,
                        payload: Option<Payload>, env: S.Env, end: Ending)
    returns (r: Option<S.RunResult>, ghost id: JobId)
    requires queue.Valid()
    modifies queue`jobs
    ensures queue.Valid()
    ensures Q.IsFirstEligible(old(queue.Rows()), now, if r == None then None else Some(id))
    ensures r.Some? && end.readOk ==>
              var before, after := old(queue.jobs)[id], queue.jobs[id];
              && after.attempts == before.attempts + 1 && after.leaseOwner == None && after.leaseExpiresAt == None
              && after.status == r.value.status && after.finishedAt == Some(end.now)
              && (payload.Some? ==> after.result == Some(r.value.result))
              && (r.value.status == Passed ==> payload.Some? && RecordedBy(after, payload.value, env, end.monitor))
  {
    var job := queue.ClaimNext(worker, now, leaseSeconds * 1000);
    if job == None { return None, 0; }
    id := job.value;
    var result := ProcessClaimedJob(queue, job.value, worker, queue.jobs[job.value], payload, env, end);
    return Some(result), id;
  }
}
