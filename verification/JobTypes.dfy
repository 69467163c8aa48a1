/** Rows of the worker-job table and the result a sandbox run writes back. */
module JobTypes {
  import opened Prelude

  // Identifiers are random in the program; only their equality is ever used.
  type JobId = nat
  type WorkerId = nat
  type PatchSetId = nat

  datatype JobType = TestPatch | TestBranch | Build | Lint

  datatype JobStatus = Queued | Running | Passed | Failed | TimedOut | Cancelled {
    predicate Terminal() {
      this != Queued && this != Running
    }
  }

  datatype CommandOutcome = CommandOutcome(command: string, exitCode: Option<int>, timedOut: bool, truncated: bool)

  datatype ErrorCode =
    | PatchSetNotFound | PatchSetNotApplyable | PatchSetNoFiles
    | PathUnsafe | RenameNotSupported | EscapesWorkspace
    | CreateExistingFile | ModifyMissingFile | DeleteMissingFile
    | BaseHashMismatch | MissingOldContentHash | MissingNewContent
    | LeaseRenewalFailed

  datatype ApplyError = ApplyError(code: ErrorCode, path: Option<string>)

  datatype JobResult = JobResult(
    passed: bool,
    commands: seq<CommandOutcome>,
    patchApplied: Option<bool>,
    patchSetId: Option<PatchSetId>,
    changedFiles: seq<string>,
    baseHashChecked: bool,
    errors: seq<ApplyError>,
    cancelledBySignal: bool,
    heartbeatRenewals: nat,
    heartbeatFailures: nat,
    leaseRenewed: bool)

  datatype JobError = MaxAttemptsExceeded | InvalidPayload

  // Times are milliseconds; ISO-8601 UTC strings compare like the instants they name.
  datatype Job = Job(
    jobType: JobType,
    patchSetId: Option<PatchSetId>,
    payloadValid: bool,
    status: JobStatus,
    priority: int,
    result: Option<JobResult>,
    error: Option<JobError>,
    leaseOwner: Option<WorkerId>,
    leaseExpiresAt: Option<int>,
    attempts: nat,
    maxAttempts: int,
    createdAt: int,
    startedAt: Option<int>,
    finishedAt: Option<int>,
    updatedAt: int)
}
