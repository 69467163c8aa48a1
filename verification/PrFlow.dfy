/**
 * From a patch artifact to a pull request: storing the validated set, the ordered gates, and the
 * writes to a fresh branch, with the theorem that the tree proposed is the tree tested.
 */
module PrFlow {
  import opened Prelude
  import opened JobTypes
  import A = PatchApplier
  import B = PatchBranch
  import H = Heartbeat
  import J = JobService
  import P = PatchPaths
  import S = SandboxRunner
  import V = PatchValidator

  datatype Artifact = NoText | Unparseable | Parsed(files: seq<B.FileSpec>, commands: seq<string>)

  datatype PatchSet = PatchSet(status: A.SetStatus, rows: seq<A.Row>)
  datatype PrStatus = DryRunPr | CreatedPr | FailedPr
  datatype PrRecord = PrRecord(patchSet: PatchSetId, status: PrStatus)

  datatype Config = Config(dryRun: bool, enabled: bool, configured: bool, smokeRequired: bool, smokePassed: bool,
                           executeTests: bool, allowInline: bool, production: bool, strict: bool)

  // `job` is the required worker job as found; the last two say whether the host made the branch and the PR.
  datatype Request = Request(
    mayCreate: bool, mayAccess: bool, existing: Option<PatchSetId>, newId: PatchSetId, artifact: Artifact, rules: V.Rules,
    approved: bool, healthy: bool, inlineTestsPass: bool, job: Option<Job>, branchMade: bool, prMade: bool)

  datatype Gate = MayCreate | MayAccess | SetAvailable | Approved | Enabled | Configured | SmokePassed | Healthy | PatchReread | Tested

  datatype BlockReason =
    | PermissionDenied | PatchNotValidated | NotApproved | GithubDisabled | GithubNotConfigured | SmokeRequired | HealthFailed
    | TestsDisabled | TestsFailed | WorkerRequired | WorkerPatchMismatch | WorkerHashNotChecked | DriftDetected | WorkerFailed

  datatype Reply = Blocked(gate: Gate, reason: BlockReason) | DryRun(id: PatchSetId) | GithubError(id: PatchSetId) | Created(id: PatchSetId, job: Option<Job>)

  // ---- The gates, each said on its own ----

  function Rank(g: Gate): nat {
    match g
    case MayCreate => 0 case MayAccess => 1 case SetAvailable => 2 case Approved => 3 case Enabled => 4
    case Configured => 5 case SmokePassed => 6 case Healthy => 7 case PatchReread => 8 case Tested => 9
  }

  predicate Reused(q: Request, sets: map<PatchSetId, PatchSet>) {
    q.existing.Some? && q.existing.value in sets && sets[q.existing.value].status == A.Validated
  }

  function SetId(q: Request, sets: map<PatchSetId, PatchSet>): PatchSetId {
    if Reused(q, sets) then q.existing.value else q.newId
  }

  ghost predicate ValidPatch(q: Request) {
    q.artifact.Parsed? && V.Clears(q.rules, q.artifact.files, q.artifact.commands)
  }

  function Result(job: Job): JobResult {
    if job.result.Some? then job.result.value else S.BLANK
  }

  // The job tested this patch set with the patch applied and, in strict mode, its base hashes checked.
  predicate ProvesPatch(job: Job, id: PatchSetId, strict: bool) {
    && job.status == Passed && job.patchSetId == Some(id)
    && Result(job).patchApplied == Some(true) && (strict ==> Result(job).baseHashChecked)
  }

  ghost predicate Passes(g: Gate, c: Config, q: Request, sets: map<PatchSetId, PatchSet>) {
    match g
    case MayCreate => q.mayCreate
    case MayAccess => q.mayAccess
    case SetAvailable => Reused(q, sets) || ValidPatch(q)
    case Approved => q.approved
    case Enabled => c.enabled
    case Configured => c.configured
    case SmokePassed => c.smokeRequired ==> c.smokePassed
    case Healthy => q.healthy
    case PatchReread => ValidPatch(q)
    case Tested =>
      if c.allowInline then !c.production && c.executeTests && q.inlineTestsPass
      else q.job.Some? && ProvesPatch(q.job.value, SetId(q, sets), c.strict)
  }

  ghost predicate PassesUpTo(n: nat, c: Config, q: Request, sets: map<PatchSetId, PatchSet>) {
    forall g | Rank(g) < n :: Passes(g, c, q, sets)
  }

  // A flow that got through its first `n` gates, or was blocked by the first of them that is closed.
  ghost predicate StopsAtFirstClosed(blocked: Option<Reply>, n: nat,
                                     c: Config, q: Request, sets: map<PatchSetId, PatchSet>)
  {
    if blocked == None then PassesUpTo(n, c, q, sets)
    else
      && blocked.value.Blocked? && Rank(blocked.value.gate) < n
      && !Passes(blocked.value.gate, c, q, sets) && PassesUpTo(Rank(blocked.value.gate), c, q, sets)
  }

  // The patch text parses, breaks no rule and names only known commands.
  ghost predicate PatchIsValid(q: Request) {
    && q.artifact.Parsed? && (forall f <- q.artifact.files, v :: !V.Forbidden(q.rules, f, v))
    && forall c <- q.artifact.commands :: q.rules.commandAllowed(c)
  }

  // The required job passed for this patch set, with the patch applied and, in strict mode, its base hashes checked.
  ghost predicate JobClears(job: Option<Job>, id: PatchSetId, strict: bool) {
    && job.Some? && job.value.status == Passed && job.value.patchSetId == Some(id)
    && job.value.result.Some? && job.value.result.value.patchApplied == Some(true)
    && (strict ==> job.value.result.value.baseHashChecked)
  }

  // Every gate before the dry run, and every gate of a live run, by what it asks.
  ghost predicate Admitted(c: Config, q: Request, sets: map<PatchSetId, PatchSet>) {
    && q.mayCreate && q.mayAccess && q.approved
    && (PatchIsValid(q) || (q.existing.Some? && q.existing.value in sets && sets[q.existing.value].status == A.Validated))
  }

  ghost predicate LiveGatesOpen(c: Config, q: Request, sets: map<PatchSetId, PatchSet>) {
    && Admitted(c, q, sets) && c.enabled && c.configured && (c.smokeRequired ==> c.smokePassed) && q.healthy && PatchIsValid(q)
  }

  ghost predicate TestGateOpen(c: Config, q: Request, id: PatchSetId) {
    if c.allowInline then !c.production && c.executeTests && q.inlineTestsPass else JobClears(q.job, id, c.strict)
  }

  // The reason given at each gate.
  ghost predicate ReasonFits(gate: Gate, reason: BlockReason, c: Config, q: Request, id: PatchSetId) {
    match gate
    case MayCreate => reason == PermissionDenied && !q.mayCreate
    case MayAccess => reason == PermissionDenied && !q.mayAccess
    case SetAvailable => reason == PatchNotValidated && !PatchIsValid(q)
    case Approved => reason == NotApproved && !q.approved
    case Enabled => reason == GithubDisabled && !c.enabled
    case Configured => reason == GithubNotConfigured && !c.configured
    case SmokePassed => reason == SmokeRequired && c.smokeRequired && !c.smokePassed
    case Healthy => reason == HealthFailed && !q.healthy
    case PatchReread => reason == PatchNotValidated && !PatchIsValid(q)
    case Tested =>
      && !TestGateOpen(c, q, id)
      && (if c.allowInline then reason == if c.production || !c.executeTests then TestsDisabled else TestsFailed
          else ExplainsJob(reason, q.job, id, c.strict))
  }

  lemma ValidPatchIsValid(q: Request)
    ensures ValidPatch(q) <==> PatchIsValid(q)
  {
    if q.artifact.Parsed? {
      forall f <- q.artifact.files, v ensures V.Breaks(q.rules, f, v) <==> V.Forbidden(q.rules, f, v) { V.BreaksIsForbidden(q.rules, f, v); }
    }
  }

  lemma GatesInColumns(c: Config, q: Request, sets: map<PatchSetId, PatchSet>)
    ensures PassesUpTo(4, c, q, sets) <==> Admitted(c, q, sets)
    ensures PassesUpTo(9, c, q, sets) <==> LiveGatesOpen(c, q, sets)
    ensures PassesUpTo(10, c, q, sets) <==> LiveGatesOpen(c, q, sets) && TestGateOpen(c, q, SetId(q, sets))
  {
    ValidPatchIsValid(q);
    assert Rank(MayCreate) == 0 && Rank(MayAccess) == 1 && Rank(SetAvailable) == 2 && Rank(Approved) == 3 && Rank(Enabled) == 4;
    assert Rank(Configured) == 5 && Rank(SmokePassed) == 6 && Rank(Healthy) == 7 && Rank(PatchReread) == 8 && Rank(Tested) == 9;
    forall n: nat ensures PassesUpTo(n, c, q, sets) <==>
        && (n > 0 ==> Passes(MayCreate, c, q, sets)) && (n > 1 ==> Passes(MayAccess, c, q, sets))
        && (n > 2 ==> Passes(SetAvailable, c, q, sets)) && (n > 3 ==> Passes(Approved, c, q, sets))
        && (n > 4 ==> Passes(Enabled, c, q, sets)) && (n > 5 ==> Passes(Configured, c, q, sets))
        && (n > 6 ==> Passes(SmokePassed, c, q, sets)) && (n > 7 ==> Passes(Healthy, c, q, sets))
        && (n > 8 ==> Passes(PatchReread, c, q, sets)) && (n > 9 ==> Passes(Tested, c, q, sets))
    {
    }
  }

  // What a worker job that does not prove the patch is reported as.
  ghost predicate ExplainsJob(reason: BlockReason, job: Option<Job>, id: PatchSetId, strict: bool) {
    match reason
    case WorkerRequired => job == None || job.value.status in {Queued, JobStatus.Running, Cancelled}
                           || (job.value.status == Passed && job.value.patchSetId == Some(id) && Result(job.value).patchApplied != Some(true))
    case WorkerPatchMismatch => job.Some? && job.value.status == Passed && job.value.patchSetId != Some(id)
    case WorkerHashNotChecked => strict && JobClears(job, id, false) && !job.value.result.value.baseHashChecked
    case DriftDetected => job.Some? && job.value.status in {Failed, TimedOut}
                          && exists e <- Result(job.value).errors :: e.code == BaseHashMismatch
    case WorkerFailed => job.Some? && job.value.status in {Failed, TimedOut}
                         && forall e <- Result(job.value).errors :: e.code != BaseHashMismatch
    case _ => false
  }

  /** The worker gate opens iff the job proves this patch set; otherwise the reason describes the job. */
  method CheckWorkerJob(job: Option<Job>, id: PatchSetId, strict: bool) returns (reason: Option<BlockReason>)
    ensures reason == None <==> JobClears(job, id, strict)
    ensures reason.Some? ==> ExplainsJob(reason.value, job, id, strict)
  {
    if job == None { return Some(WorkerRequired); }
    var row := job.value;
    var matches, applied := row.patchSetId == Some(id), Result(row).patchApplied == Some(true);
    if row.status == Passed && matches && applied {
      return if strict && !Result(row).baseHashChecked then Some(WorkerHashNotChecked) else None;
    }
    if row.status == Passed { return Some(if matches then WorkerRequired else WorkerPatchMismatch); }
    if row.status == Failed || row.status == TimedOut {
      return Some(if exists e <- Result(row).errors :: e.code == BaseHashMismatch then DriftDetected else WorkerFailed);
    }
    return Some(WorkerRequired);
  }

  const JOB_LIST_LIMIT: nat := 50

  // Position `at` of the newest-first list is its first patch job, within the listed part.
  ghost predicate IsRequiredJob(newestFirst: seq<Job>, at: nat) {
    && at < |newestFirst| && at < 50 && newestFirst[at].jobType == TestPatch
    && forall k | 0 <= k < at :: newestFirst[k].jobType != TestPatch
  }

  /** The newest patch job among the 50 newest jobs of the session; none iff none of those is a patch job. */
  method FindRequiredJob(newestFirst: seq<Job>) returns (job: Option<Job>)
    ensures job.Some? ==> job.value.jobType == TestPatch && exists at: nat :: IsRequiredJob(newestFirst, at) && job.value == newestFirst[at]
    ensures job == None ==> forall k | 0 <= k < |newestFirst| && k < 50 :: newestFirst[k].jobType != TestPatch
  {
    var listed := if |newestFirst| <= JOB_LIST_LIMIT then newestFirst else newestFirst[..JOB_LIST_LIMIT];
    for i := 0 to |listed|
      invariant forall k | 0 <= k < i :: newestFirst[k].jobType != TestPatch
    {
      if listed[i].jobType == TestPatch {
        assert IsRequiredJob(newestFirst, i);
        return Some(listed[i]);
      }
    }
    return None;
  }

  // ---- The tree proposed is the tree tested ----

  // The sandbox run behind the job applied the stored set, made from this artifact, to this base.
  ghost predicate TestedOn(g: A.Guard, base: A.Tree, stored: PatchSet, q: Request,
                           baseHash: string -> Option<A.Digest>, env: S.Env)
  {
    && q.artifact.Parsed? && stored.rows == B.StoredRows(q.artifact.files, q.rules.redact, baseHash)
    && (env.applier.Answered? ==> env.applier.report == A.ApplySet(g, base, Some(A.Validated), stored.rows).1)
  }

  lemma ValidFilesAreSound(q: Request)
    requires ValidPatch(q) && forall f <- q.artifact.files :: P.Clean(f.path)
    ensures forall f <- q.artifact.files :: B.Sound(q.rules.redact, f)
  {
    forall f <- q.artifact.files ensures B.Sound(q.rules.redact, f) {
      V.PassedContentIsStoredVerbatim(q.rules, q.artifact.files, q.artifact.commands, f, B.Unhashed);
    }
  }

  // The sandbox run that the job records, and what it was given.
  datatype TestRun = TestRun(guard: A.Guard, baseHash: string -> Option<A.Digest>, payload: J.Payload, env: S.Env, monitor: H.Monitor)

  // If the request's job passed it records this run, which tested the stored set on `base`; the host tells contents apart.
  ghost predicate Behind(run: TestRun, base: A.Tree, q: Request, sets: map<PatchSetId, PatchSet>, h: B.Host) {
    && q.job.Some? && SetId(q, sets) in sets
    && (q.job.value.status == Passed ==> J.RecordedBy(q.job.value, run.payload, run.env, run.monitor))
    && TestedOn(run.guard, base, sets[SetId(q, sets)], q, run.baseHash, run.env)
    && B.Injective(h.blobOf) && forall f <- q.artifact.files :: P.Clean(f.path)
  }

  // The tree the sandbox applied the patch set to, and left its commands with.
  function TestedTree(run: TestRun, base: A.Tree, stored: PatchSet): A.Tree {
    A.ApplySet(run.guard, base, Some(A.Validated), stored.rows).0
  }

  /**
   * What the open gates of a live worker-mode flow mean: the tree the flow is about to write equals the
   * sandbox tree, on which every command of the job ran with exit code 0; under strict
   * hashing every file it modified or deleted had the base content the patch was validated against.
   * The host accepts the writes iff no file overwrites an earlier effect on its path.
   */
  lemma LivePrCarriesTestedTree(c: Config, q: Request, sets: map<PatchSetId, PatchSet>,
                                h: B.Host, base: A.Tree, run: TestRun)
    requires !c.allowInline && PassesUpTo(10, c, q, sets) && Behind(run, base, q, sets, h)
    ensures var stored := sets[SetId(q, sets)];
            && A.ApplySet(run.guard, base, Some(A.Validated), stored.rows).1.patchApplied
            && TestedTree(run, base, stored) == B.PutAll(base, q.artifact.files, |q.artifact.files|)
            && (c.strict ==> forall row <- stored.rows :: A.CarriesHash(row))
    ensures B.Accepted(h, base, q.artifact.files, |q.artifact.files|) <==> B.NoOverlap(base, q.artifact.files)
    ensures J.CleanOutcomes(run.payload.commands, Result(q.job.value).commands)
            && S.AllSucceed(run.env, run.payload.commands, |run.payload.commands|)
  {
    assert Passes(Tested, c, q, sets) && Passes(PatchReread, c, q, sets);
    var files, rows := q.artifact.files, sets[SetId(q, sets)].rows;
    ValidFilesAreSound(q);
    A.AppliesAPrefix(run.guard, base, Some(A.Validated), rows);
    A.HashFlagIsExact(run.guard, base, Some(A.Validated), rows);
    B.TestedTreeIsProposedTree(run.guard, h, base, files, q.rules.redact, run.baseHash);
  }

  class PrService {
    var sets: map<PatchSetId, PatchSet>
    var pulls: seq<PrRecord>

    constructor ()
      ensures sets == map[] && pulls == []
    {
      sets, pulls := map[], [];
    }

    /** A patch set is stored either way; it is `validated` iff the artifact parses and breaks no rule. */
    method ValidateAndStore(rules: V.Rules, artifact: Artifact, id: PatchSetId, baseHash: string -> Option<A.Digest>)
      returns (ok: bool)
      modifies this`sets
      ensures ok <==> artifact.Parsed? && V.Clears(rules, artifact.files, artifact.commands)
      ensures sets == old(sets)[id := PatchSet(if ok then A.Validated else A.SetFailed,
                                              if artifact.Parsed? then B.StoredRows(artifact.files, rules.redact, baseHash) else [])]
      ensures artifact.Parsed? ==>
                && |sets[id].rows| == |artifact.files|
                && forall i | 0 <= i < |artifact.files| :: B.StoredAs(artifact.files[i], rules.redact, baseHash, sets[id].rows[i])
    {
      ok := false;
      var rows := [];
      if artifact.Parsed? {
        var validation := V.ValidatePatch(rules, artifact.files, artifact.commands);
        ok := validation.ok;
        rows := B.StoredRows(artifact.files, rules.redact, baseHash);
      }
      sets := sets[id := PatchSet(if ok then A.Validated else A.SetFailed, rows)];
    }

    // Gates up to the dry run: permission, access, a validated set, approval.
    method Admit(c: Config, q: Request) returns (blocked: Option<Reply>, id: PatchSetId)
      modifies this`sets
      ensures id == SetId(q, old(sets)) && StopsAtFirstClosed(blocked, 4, c, q, old(sets))
      ensures blocked.Some? ==> ReasonFits(blocked.value.gate, blocked.value.reason, c, q, id)
      ensures blocked == None ==> id in sets && sets[id].status == A.Validated
      ensures if q.mayCreate && q.mayAccess && !Reused(q, old(sets)) && q.artifact != NoText then
                && id in sets && (sets[id].status == A.Validated <==> ValidPatch(q)) && sets == old(sets)[id := sets[id]]
                && (q.artifact.Parsed? ==> sets[id].rows == B.StoredRows(q.artifact.files, q.rules.redact, B.Unhashed))
              else sets == old(sets)
    {
      id := SetId(q, sets);
      ValidPatchIsValid(q);
      if !q.mayCreate { return Some(Blocked(MayCreate, PermissionDenied)), id; }
      if !q.mayAccess { return Some(Blocked(MayAccess, PermissionDenied)), id; }
      if !Reused(q, sets) {
        if q.artifact == NoText { return Some(Blocked(SetAvailable, PatchNotValidated)), id; }
        var ok := ValidateAndStore(q.rules, q.artifact, q.newId, B.Unhashed);
        if !ok { return Some(Blocked(SetAvailable, PatchNotValidated)), id; }
      }
      if !q.approved { return Some(Blocked(Approved, NotApproved)), id; }
      return None, id;
    }

    // The live gates before the patch is looked at again.
    method CheckLive(c: Config, q: Request, ghost before: map<PatchSetId, PatchSet>) returns (blocked: Option<Reply>)
      requires PassesUpTo(4, c, q, before)
      ensures StopsAtFirstClosed(blocked, 8, c, q, before)
      ensures blocked.Some? ==> ReasonFits(blocked.value.gate, blocked.value.reason, c, q, SetId(q, before))
    {
      if !c.enabled { return Some(Blocked(Enabled, GithubDisabled)); }
      if !c.configured { return Some(Blocked(Configured, GithubNotConfigured)); }
      if c.smokeRequired && !c.smokePassed { return Some(Blocked(SmokePassed, SmokeRequired)); }
      if !q.healthy { return Some(Blocked(Healthy, HealthFailed)); }
      return None;
    }

    // Parse and validate again, unless this flow has just stored the set.
    method Reread(c: Config, q: Request, id: PatchSetId, reused: bool, ghost before: map<PatchSetId, PatchSet>)
      returns (blocked: Option<Reply>)
      requires id in sets && PassesUpTo(8, c, q, before) && (!reused ==> ValidPatch(q))
      modifies this`sets
      ensures StopsAtFirstClosed(blocked, 9, c, q, before)
      ensures blocked.Some? ==> ReasonFits(blocked.value.gate, blocked.value.reason, c, q, id)
      ensures sets == if blocked.Some? && q.artifact.Parsed? then old(sets)[id := old(sets)[id].(status := A.SetFailed)] else old(sets)
    {
      ValidPatchIsValid(q);
      if reused {
        if !q.artifact.Parsed? { return Some(Blocked(PatchReread, PatchNotValidated)); }
        var validation := V.ValidatePatch(q.rules, q.artifact.files, q.artifact.commands);
        if !validation.ok {
          sets := sets[id := sets[id].(status := A.SetFailed)];
          return Some(Blocked(PatchReread, PatchNotValidated));
        }
      }
      return None;
    }

    // Inline tests outside production, or the required worker job.
    method TestGate(c: Config, q: Request, id: PatchSetId, ghost before: map<PatchSetId, PatchSet>)
      returns (blocked: Option<Reply>)
      requires id in sets && id == SetId(q, before) && PassesUpTo(9, c, q, before)
      modifies this`sets
      ensures StopsAtFirstClosed(blocked, 10, c, q, before)
      ensures blocked.Some? ==> ReasonFits(blocked.value.gate, blocked.value.reason, c, q, id)
      ensures sets == if blocked.Some? && blocked.value.reason == TestsFailed then old(sets)[id := old(sets)[id].(status := A.SetFailed)] else old(sets)
    {
      if c.allowInline {
        if c.production || !c.executeTests { return Some(Blocked(Tested, TestsDisabled)); }
        if !q.inlineTestsPass {
          sets := sets[id := sets[id].(status := A.SetFailed)];
          return Some(Blocked(Tested, TestsFailed));
        }
        return None;
      }
      var reason := CheckWorkerJob(q.job, id, c.strict);
      return if reason.Some? then Some(Blocked(Tested, reason.value)) else None;
    }

    // Branch, files, pull request; any exception leaves a failed record.
    method Propose(q: Request, id: PatchSetId, job: Option<Job>, h: B.Host, branch: B.Branch) returns (r: Reply)
      requires id in sets && q.artifact.Parsed?
      modifies this, branch
      ensures r == Created(id, job) || r == GithubError(id)
      ensures r.Created? <==> q.branchMade && B.Accepted(h, old(branch.tree), q.artifact.files, |q.artifact.files|) && q.prMade
      ensures r.Created? ==> branch.tree == B.PutAll(old(branch.tree), q.artifact.files, |q.artifact.files|)
      ensures r.GithubError? ==> exists n :: 0 <= n <= |q.artifact.files| && branch.tree == B.PutAll(old(branch.tree), q.artifact.files, n)
      ensures sets == if r.Created? then old(sets)[id := old(sets)[id].(status := A.Applied)] else old(sets)
      ensures pulls == old(pulls) + [PrRecord(id, if r.Created? then CreatedPr else FailedPr)]
    {
      var files := q.artifact.files;
      if q.branchMade {
        var applied, n := branch.ApplyPatchFiles(h, files);
        if applied.Threw? { AcceptedOnlyThrough(h, old(branch.tree), files, n); }
        if applied.Applied? && q.prMade {
          pulls := pulls + [PrRecord(id, CreatedPr)];
          sets := sets[id := sets[id].(status := A.Applied)];
          return Created(id, job);
        }
      } else {
        assert branch.tree == B.PutAll(branch.tree, files, 0);
      }
      pulls := pulls + [PrRecord(id, FailedPr)];
      return GithubError(id);
    }

    // Every gate in order; a dry run leaves after the fourth.
    method PassGates(c: Config, q: Request) returns (stop: Option<Reply>, id: PatchSetId)
      modifies this`sets
      ensures id == SetId(q, old(sets))
      ensures stop.Some? && stop.value.DryRun? ==> stop.value.id == id && c.dryRun && PassesUpTo(4, c, q, old(sets))
      ensures stop.Some? && !stop.value.DryRun? ==> StopsAtFirstClosed(stop, if c.dryRun then 4 else 10, c, q, old(sets))
      ensures stop.Some? && !stop.value.DryRun? ==> ReasonFits(stop.value.gate, stop.value.reason, c, q, id)
      ensures stop == None ==> !c.dryRun && PassesUpTo(10, c, q, old(sets)) && id in sets
    {
      var reused := Reused(q, sets);
      stop, id := Admit(c, q);
      if stop.Some? { return; }
      if c.dryRun { return Some(DryRun(id)), id; }
      stop := CheckLive(c, q, old(sets));
      if stop.Some? { return; }
      assert Passes(SetAvailable, c, q, old(sets));
      stop := Reread(c, q, id, reused, old(sets));
      if stop.Some? { return; }
      stop := TestGate(c, q, id, old(sets));
    }

    /**
     * The whole flow over a fresh branch. It stops at the first closed gate; it writes to the branch only
     * when every gate is open and the run is live, and then creates the PR iff the host accepts every step.
     * A PR created in worker mode has on its branch exactly the tree that the run behind its job tested, and
     * every command of that run ended with exit code 0.
     */
    method CreatePullRequest(c: Config, q: Request, h: B.Host, branch: B.Branch, ghost run: TestRun) returns (r: Reply)
      modifies this, branch
      ensures r.Blocked? ==> StopsAtFirstClosed(Some(r), if c.dryRun then 4 else 10, c, q, old(sets))
      ensures r.DryRun? <==> c.dryRun && PassesUpTo(4, c, q, old(sets))
      ensures r.Created? || r.GithubError? <==> !c.dryRun && PassesUpTo(10, c, q, old(sets))
      ensures r.DryRun? <==> c.dryRun && Admitted(c, q, old(sets))
      ensures r.Created? || r.GithubError? <==> !c.dryRun && LiveGatesOpen(c, q, old(sets)) && TestGateOpen(c, q, SetId(q, old(sets)))
      ensures r.Created? && !c.allowInline ==>
                && q.job.Some? && q.job.value.status == Passed && q.job.value.patchSetId == Some(r.id)
                && q.job.value.result.Some? && q.job.value.result.value.patchApplied == Some(true)
                && (c.strict ==> q.job.value.result.value.baseHashChecked)
      ensures r.Blocked? ==> ReasonFits(r.gate, r.reason, c, q, SetId(q, old(sets)))
      ensures r.Created? ==> r.id == SetId(q, old(sets)) && r.job == (if c.allowInline then None else q.job)
      ensures r.Created? ==> q.artifact.Parsed? && B.Accepted(h, old(branch.tree), q.artifact.files, |q.artifact.files|)
                             && branch.tree == B.PutAll(old(branch.tree), q.artifact.files, |q.artifact.files|)
      ensures r.Blocked? || r.DryRun? ==> branch.tree == old(branch.tree)
      ensures pulls == old(pulls) + if r.Blocked? then [] else
                [PrRecord(r.id, if r.DryRun? then DryRunPr else if r.Created? then CreatedPr else FailedPr)]
      ensures r.Created? ==> r.id in sets && sets[r.id].status == A.Applied
      ensures r.Created? && !c.allowInline && Behind(run, old(branch.tree), q, old(sets), h) ==>
                && branch.tree == TestedTree(run, old(branch.tree), old(sets)[r.id])
                && S.AllSucceed(run.env, run.payload.commands, |run.payload.commands|)
                && (c.strict ==> forall row <- old(sets)[r.id].rows :: A.CarriesHash(row))
      ensures !c.allowInline && !c.dryRun && PassesUpTo(10, c, q, old(sets)) && Behind(run, old(branch.tree), q, old(sets), h) ==>
                (r.Created? <==> q.branchMade && q.prMade && B.NoOverlap(old(branch.tree), q.artifact.files))
    {
      GatesInColumns(c, q, sets);
      var stop, id := PassGates(c, q);
      if stop.Some? {
        if stop.value.DryRun? {
          pulls := pulls + [PrRecord(id, DryRunPr)];
        } else {
          assert !Passes(stop.value.gate, c, q, old(sets));
        }
        return stop.value;
      }
      assert Passes(PatchReread, c, q, old(sets));
      if !c.allowInline && Behind(run, branch.tree, q, old(sets), h) {
        LivePrCarriesTestedTree(c, q, old(sets), h, branch.tree, run);
      }
      r := Propose(q, id, if c.allowInline then None else q.job, h, branch);
    }
  }

  lemma {:induction false} AcceptedOnlyThrough(h: B.Host, base: A.Tree, files: seq<B.FileSpec>, n: nat)
    requires n < |files| && B.Rejection(h, base, B.PutAll(base, files, n), files[n]).Some?
    ensures !B.Accepted(h, base, files, |files|)
  {
    if B.Accepted(h, base, files, |files|) { B.AcceptedAt(h, base, files, |files|, n); }
  }

  // A set stored by the flow itself carries a new id, so no earlier job proves it: worker mode needs a stored one.
  lemma NewSetsAreNotYetProven(c: Config, q: Request, sets: map<PatchSetId, PatchSet>)
    requires !c.allowInline && !Reused(q, sets) && (q.job.Some? ==> q.job.value.patchSetId != Some(q.newId))
    ensures !Passes(Tested, c, q, sets) && !PassesUpTo(10, c, q, sets)
  {
    assert Rank(Tested) == 9;
  }
}
