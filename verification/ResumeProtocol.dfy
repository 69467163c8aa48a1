/**
 * One run, its start, many scheduler ticks and user-facing resumes at once. A resume is not atomic: it reads the
 * run, then the job, and only later writes the advance; an update reads the row and writes all its columns back.
 */
module ResumeProtocol {
  import opened Prelude
  import opened AsyncOrchestrator
  import S = ResumeScheduler

  type TickId = nat

  // What an update has read of the row and writes back where it has nothing new to say.
  datatype Columns = Columns(status: RunStatus, pending: Option<S.JobNo>)

  // `Checking`: the run is read, its job is not; `Touching`: a review under way has read the row for a step update;
  // `Failing`, `Recording`: a scheduler tick about to note an error, before and after it has read the row for that.
  datatype Phase =
    | Holding
    | Checking(job: S.JobNo)
    | Reviewing(job: S.JobNo)
    | Touching(job: S.JobNo, read: Columns)
    | Failing
    | Recording(read: Columns)
    | Finished
  {
    predicate InReviewOf(j: S.JobNo) {
      (Reviewing? || Touching?) && job == j
    }

    // The phase remembers the job, as its own or in what it has read.
    predicate Refers(j: S.JobNo) {
      ((Checking? || Reviewing? || Touching?) && job == j) || ((Touching? || Recording?) && read.pending == Some(j))
    }
  }

  // A user-facing resume runs without a lock and so without an owner.
  datatype Tick = Tick(owner: Option<S.Owner>, phase: Phase, startedAt: int)

  // `distinctOwners`: no two running ticks share an owner name; `maxResumeMs`: how long a resume may
  // take from its start to its last write; `userResumes`: whether users resume the run beside the ticks.
  datatype Params = Params(ttlSeconds: int, distinctOwners: bool, maxResumeMs: int, userResumes: bool)

  // `starting`: the call that created the run has not written its first outcome yet. The last three
  // fields are history: reviews started, advances written and resumes failed, per job.
  datatype System = System(
    now: int, row: S.Row, starting: bool, nextJob: S.JobNo, done: set<S.JobNo>, ticks: map<TickId, Tick>,
    reviewed: multiset<S.JobNo>, advanced: multiset<S.JobNo>, failed: multiset<S.JobNo>)

  datatype Action =
    | StartStep
    | Started(status: RunStatus)
    | StartFailed
    | JobDone(job: S.JobNo)
    | Claim(t: TickId, owner: S.Owner)
    | UserBegin(t: TickId)
    | ReadRun(t: TickId)
    | ReadJob(t: TickId)
    | Load(t: TickId)
    | Store(t: TickId)
    | Advance(t: TickId, status: RunStatus)
    | Fail(t: TickId)
    | GiveUp(t: TickId)
    | Release(t: TickId, ok: bool)
    | Cancel(jobOk: bool, late: bool)
    | Wait(to: int)
  {
    // A step of a running resume.
    predicate IsStep() {
      ReadRun? || ReadJob? || Load? || Store? || Advance? || Fail? || GiveUp?
    }
  }

  const INITIAL := System(0, S.Row(Active, None, None, None, 0, false), true, 0, {}, map[], multiset{}, multiset{}, multiset{})

  predicate Waits(r: S.Row) {
    r.status == WaitingForWorker && r.pending.Some?
  }

  // The statuses a resume can end with.
  predicate Outcome(status: RunStatus) {
    status == WaitingForWorker || status == RunPassed || status == RunFailed || status == RunNeedsRevision
  }

  // The write that ends a start or a resume: a further round enqueues a new job, anything else ends the run.
  function Written(s: System, status: RunStatus): System {
    s.(row := s.row.(status := status, pending := if status == WaitingForWorker then Some(s.nextJob) else None),
       nextJob := if status == WaitingForWorker then s.nextJob + 1 else s.nextJob)
  }

  function ColumnsOf(r: S.Row): Columns {
    Columns(r.status, r.pending)
  }

  function Restored(r: S.Row, c: Columns): S.Row {
    r.(status := c.status, pending := c.pending)
  }

  function Moved(s: System, t: TickId, phase: Phase): System
    requires t in s.ticks
  {
    s.(ticks := s.ticks[t := s.ticks[t].(phase := phase)])
  }

  // The steps of one running resume.
  function Step(s: System, a: Action): System
    requires a.IsStep() && a.t in s.ticks
  {
    var x := s.ticks[a.t];
    match a
    case ReadRun(t) =>
      if x.phase != Holding then s else Moved(s, t, if Waits(s.row) then Checking(s.row.pending.value) else Finished)
    case ReadJob(t) =>
      if !x.phase.Checking? then s
      else if x.phase.job in s.done then Moved(s, t, Reviewing(x.phase.job)).(reviewed := s.reviewed + multiset{x.phase.job})
      else Moved(s, t, Finished)
    case Load(t) =>
      if x.phase.Reviewing? then Moved(s, t, Touching(x.phase.job, ColumnsOf(s.row)))
      else if x.phase.Failing? then Moved(s, t, Recording(ColumnsOf(s.row)))
      else s
    case Store(t) =>
      if x.phase.Touching? then Moved(s, t, Reviewing(x.phase.job)).(row := Restored(s.row, x.phase.read))
      else if x.phase.Recording? then Moved(s, t, Finished).(row := Restored(s.row, x.phase.read).(failed := true))
      else s
    case Advance(t, status) =>
      if !x.phase.Reviewing? || !Outcome(status) then s
      else Written(Moved(s, t, Finished), status).(advanced := s.advanced + multiset{x.phase.job})
    case Fail(t) =>
      if x.phase.Failing? || x.phase.Recording? || x.phase.Finished? then s
      else Moved(s, t, if x.owner.Some? then Failing else Finished).(
             failed := if x.phase.Reviewing? || x.phase.Touching? then s.failed + multiset{x.phase.job} else s.failed)
    case GiveUp(t) =>
      if x.phase.Failing? || x.phase.Recording? then Moved(s, t, Finished) else s
  }

  // An action that does not apply changes nothing.
  function Next(p: Params, s: System, a: Action): System {
    match a
    // A step update of the start that has read the row before a cancel.
    case StartStep => if s.starting then s.(row := s.row.(status := Active, pending := None)) else s
    case Started(status) => if !s.starting || !Outcome(status) || status == RunPassed then s else Written(s, status).(starting := false)
    case StartFailed => s.(starting := false)
    case JobDone(job) => if job < s.nextJob then s.(done := s.done + {job}) else s
    case Claim(t, owner) =>
      if t in s.ticks || !S.Lockable(s.row, s.now) || (p.distinctOwners && exists u <- s.ticks :: s.ticks[u].owner == Some(owner)) then s
      else s.(row := S.Locked(s.row, owner, p.ttlSeconds, s.now), ticks := s.ticks[t := Tick(Some(owner), Holding, s.now)])
    case UserBegin(t) =>
      if t in s.ticks || !Waits(s.row) then s else s.(ticks := s.ticks[t := Tick(None, Checking(s.row.pending.value), s.now)])
    case Release(t, ok) =>
      if t !in s.ticks || s.ticks[t].phase != Finished then s
      else s.(row := if ok && s.ticks[t].owner.Some? then S.Released(s.row, s.ticks[t].owner.value) else s.row, ticks := s.ticks - {t})
    // `jobOk`: the pending job is cancelled too; `late`: the row had not ended when the cancel read it.
    case Cancel(jobOk, late) =>
      var done := if jobOk && s.row.pending.Some? then s.done + {s.row.pending.value} else s.done;
      if s.row.status.Terminal() && !late then s.(done := done)
      else s.(done := done, row := s.row.(status := RunCancelled, pending := None))
    case Wait(to) => if to < s.now then s else s.(now := to)
    case _ => if a.t in s.ticks then Step(s, a) else s
  }

  function Run(p: Params, actions: seq<Action>): System {
    if actions == [] then INITIAL else Next(p, Run(p, actions[..|actions| - 1]), actions[|actions| - 1])
  }

  // A tick whose lock must still be in force: until its last write, and until its release if names may coincide.
  predicate MustHold(p: Params, t: Tick) {
    t.phase != Finished || !p.distinctOwners
  }

  // Time never passes the longest a resume may take.
  predicate Punctual(p: Params, s: System, a: Action) {
    a.Wait? ==> forall t <- s.ticks :: MustHold(p, s.ticks[t]) ==> a.to <= s.ticks[t].startedAt + p.maxResumeMs
  }

  predicate Allowed(p: Params, s: System, a: Action) {
    Punctual(p, s, a) && (a.UserBegin? ==> p.userResumes)
  }

  predicate AllowedRun(p: Params, actions: seq<Action>) {
    actions != [] ==>
      var before, a := actions[..|actions| - 1], actions[|actions| - 1];
      AllowedRun(p, before) && Allowed(p, Run(p, before), a)
  }

  // Only ticks resume, and the longest resume fits in the lock's time to live.
  predicate LockFits(p: Params) {
    p.maxResumeMs <= S.TtlMs(p.ttlSeconds) && !p.userResumes
  }

  // ---- The lock ----

  ghost predicate LockHeld(p: Params, s: System) {
    && (forall t <- s.ticks :: s.ticks[t].owner.Some?)
    && (forall t <- s.ticks | MustHold(p, s.ticks[t]) ::
          s.row.lockOwner == s.ticks[t].owner && s.row.lockExpiresAt == Some(s.ticks[t].startedAt + S.TtlMs(p.ttlSeconds))
            && s.now <= s.ticks[t].startedAt + S.TtlMs(p.ttlSeconds))
    && (forall t, u | t in s.ticks && u in s.ticks && t != u :: !(MustHold(p, s.ticks[t]) && MustHold(p, s.ticks[u])))
    && (p.distinctOwners ==> forall t, u | t in s.ticks && u in s.ticks && t != u :: s.ticks[t].owner != s.ticks[u].owner)
  }

  lemma ClaimHolds(p: Params, s: System, a: Action)
    requires LockHeld(p, s) && a.Claim?
    ensures LockHeld(p, Next(p, s, a))
  {
    if S.Lockable(s.row, s.now) {
      assert forall t <- s.ticks :: !MustHold(p, s.ticks[t]);
    }
  }

  // A step of a running resume touches one tick, and neither lock columns nor owners.
  ghost predicate IsMove(s: System, t: TickId, s': System)
    requires t in s.ticks
  {
    && s.ticks[t].phase != Finished && t in s'.ticks
    && s'.ticks == s.ticks[t := s.ticks[t].(phase := s'.ticks[t].phase)] && s'.now == s.now && s'.done == s.done
    && s'.row.lockOwner == s.row.lockOwner && s'.row.lockExpiresAt == s.row.lockExpiresAt
  }

  lemma StepMoves(s: System, a: Action)
    requires a.IsStep() && a.t in s.ticks
    ensures Step(s, a) == s || IsMove(s, a.t, Step(s, a))
  {
  }

  lemma MoveHolds(p: Params, s: System, t: TickId, s': System)
    requires LockHeld(p, s) && t in s.ticks && IsMove(s, t, s')
    ensures LockHeld(p, s')
  {
    assert MustHold(p, s.ticks[t]);
  }

  lemma ReleaseHolds(p: Params, s: System, a: Action)
    requires LockHeld(p, s) && a.Release?
    ensures LockHeld(p, Next(p, s, a))
  {
    if a.t in s.ticks && s.ticks[a.t].phase == Finished {
      var s' := Next(p, s, a);
      forall u <- s'.ticks | MustHold(p, s'.ticks[u])
        ensures s'.row.lockOwner == s'.ticks[u].owner && s'.row.lockExpiresAt == Some(s'.ticks[u].startedAt + S.TtlMs(p.ttlSeconds))
      {
        assert MustHold(p, s.ticks[u]) && s.ticks[u].owner != s.ticks[a.t].owner;
      }
    }
  }

  // Nothing that the lock depends on changes.
  ghost predicate SameLock(s: System, s': System) {
    && s'.ticks == s.ticks && s'.now == s.now
    && s'.row.lockOwner == s.row.lockOwner && s'.row.lockExpiresAt == s.row.lockExpiresAt
  }

  lemma OtherSteps(p: Params, s: System, a: Action)
    requires a.StartStep? || a.Started? || a.StartFailed? || a.JobDone? || a.Cancel?
    ensures SameLock(s, Next(p, s, a))
  {
  }

  lemma SameLockHolds(p: Params, s: System, s': System)
    requires LockHeld(p, s) && SameLock(s, s')
    ensures LockHeld(p, s')
  {
  }

  lemma LockStep(p: Params, s: System, a: Action)
    requires LockFits(p) && LockHeld(p, s) && Allowed(p, s, a)
    ensures LockHeld(p, Next(p, s, a))
  {
    if a.Claim? {
      ClaimHolds(p, s, a);
    } else if a.Release? {
      ReleaseHolds(p, s, a);
    } else if a.StartStep? || a.Started? || a.StartFailed? || a.JobDone? || a.Cancel? {
      OtherSteps(p, s, a);
      SameLockHolds(p, s, Next(p, s, a));
    } else if !a.Wait? && a.t in s.ticks {
      StepMoves(s, a);
      if Step(s, a) != s { MoveHolds(p, s, a.t, Step(s, a)); }
    }
  }

  // ---- Counting ----

  predicate InReview(s: System, job: S.JobNo) {
    exists t <- s.ticks :: s.ticks[t].phase.InReviewOf(job)
  }

  // Neither the row nor any tick knows of the job.
  predicate Forgotten(s: System, job: S.JobNo) {
    s.row.pending != Some(job) && forall t <- s.ticks :: !s.ticks[t].phase.Refers(job)
  }

  predicate Counted(s: System, job: S.JobNo) {
    && s.reviewed[job] == s.failed[job] + s.advanced[job] + (if InReview(s, job) then 1 else 0)
    && s.advanced[job] <= 1
    && (s.advanced[job] == 1 || job >= s.nextJob ==> Forgotten(s, job))
    && (job >= s.nextJob ==> s.reviewed[job] == 0)
  }

  predicate OneRunning(s: System) {
    forall t, u | t in s.ticks && u in s.ticks && t != u :: s.ticks[t].phase == Finished || s.ticks[u].phase == Finished
  }

  // The one running resume decides what is under review and what is referred to.
  lemma OnlyRunning(s: System, t: TickId, job: S.JobNo)
    requires OneRunning(s) && t in s.ticks && s.ticks[t].phase != Finished
    ensures InReview(s, job) <==> s.ticks[t].phase.InReviewOf(job)
    ensures (forall u <- s.ticks :: !s.ticks[u].phase.Refers(job)) <==> !s.ticks[t].phase.Refers(job)
  {
  }

  lemma OnlyRunningAfter(s: System, t: TickId, s': System, job: S.JobNo)
    requires OneRunning(s) && t in s.ticks && IsMove(s, t, s')
    ensures InReview(s', job) <==> s'.ticks[t].phase.InReviewOf(job)
    ensures (forall u <- s'.ticks :: !s'.ticks[u].phase.Refers(job)) <==> !s'.ticks[t].phase.Refers(job)
  {
    assert forall u <- s'.ticks | u != t :: s'.ticks[u] == s.ticks[u] && s'.ticks[u].phase == Finished;
  }

  lemma StepCounts(s: System, a: Action, job: S.JobNo)
    requires a.IsStep() && a.t in s.ticks
    requires OneRunning(s) && Counted(s, job)
    ensures Counted(Step(s, a), job)
  {
    StepMoves(s, a);
    if Step(s, a) != s {
      OnlyRunning(s, a.t, job);
      OnlyRunningAfter(s, a.t, Step(s, a), job);
    }
  }

  lemma ClaimOrReleaseCounts(p: Params, s: System, a: Action, job: S.JobNo)
    requires (a.Claim? || a.Release?) && Counted(s, job)
    ensures Counted(Next(p, s, a), job)
  {
    var s' := Next(p, s, a);
    assert forall t <- s.ticks | s.ticks[t].phase.InReviewOf(job) :: t in s'.ticks && s'.ticks[t] == s.ticks[t];
    assert forall t <- s'.ticks | s'.ticks[t].phase.InReviewOf(job) :: t in s.ticks && s'.ticks[t] == s.ticks[t];
    assert InReview(s', job) == InReview(s, job);
  }

  lemma OtherCounts(p: Params, s: System, a: Action, job: S.JobNo)
    requires (a.StartStep? || a.Started? || a.StartFailed? || a.JobDone? || a.Cancel? || a.Wait?) && Counted(s, job)
    ensures Counted(Next(p, s, a), job)
  {
    assert InReview(Next(p, s, a), job) == InReview(s, job);
  }

  lemma CountStep(p: Params, s: System, a: Action, job: S.JobNo)
    requires OneRunning(s) && Counted(s, job) && !a.UserBegin?
    ensures Counted(Next(p, s, a), job)
  {
    if a.Claim? || a.Release? {
      ClaimOrReleaseCounts(p, s, a, job);
    } else if a.StartStep? || a.Started? || a.StartFailed? || a.JobDone? || a.Cancel? || a.Wait? {
      OtherCounts(p, s, a, job);
    } else if a.t in s.ticks {
      StepCounts(s, a, job);
    }
  }

  lemma {:induction false} FittingRunsKeep(p: Params, actions: seq<Action>, job: S.JobNo)
    requires LockFits(p) && AllowedRun(p, actions)
    ensures LockHeld(p, Run(p, actions)) && Counted(Run(p, actions), job)
  {
    if actions != [] {
      var before, a := actions[..|actions| - 1], actions[|actions| - 1];
      FittingRunsKeep(p, before, job);
      LockStep(p, Run(p, before), a);
      assert OneRunning(Run(p, before));
      CountStep(p, Run(p, before), a, job);
    }
  }

  /**
   * Exactly-once consumption: over any interleaving of ticks whose resumes fit in the lock's time to live, each
   * job's result is advanced at most once, and reviewed once more than it failed at most.
   */
  lemma EachJobIsConsumedOnce(p: Params, actions: seq<Action>, job: S.JobNo)
    requires LockFits(p) && AllowedRun(p, actions)
    ensures var s := Run(p, actions);
            s.advanced[job] <= 1 && s.reviewed[job] <= 1 + s.failed[job]
  {
    FittingRunsKeep(p, actions, job);
  }

  // ---- Locks come back ----

  predicate Backed(s: System) {
    s.row.lockOwner.Some? ==> exists t <- s.ticks :: s.ticks[t].owner == s.row.lockOwner
  }

  lemma BackedMove(s: System, t: TickId, s': System)
    requires Backed(s) && t in s.ticks && IsMove(s, t, s')
    ensures Backed(s')
  {
    if s.row.lockOwner.Some? {
      var u :| u in s.ticks && s.ticks[u].owner == s.row.lockOwner;
      assert u in s'.ticks && s'.ticks[u].owner == s.ticks[u].owner;
    }
  }

  lemma BackedClaim(p: Params, s: System, a: Action)
    requires Backed(s) && (a.Claim? || a.UserBegin? || (a.Release? && a.ok))
    ensures Backed(Next(p, s, a))
  {
    var s' := Next(p, s, a);
    if s'.row.lockOwner.Some? {
      if s'.row.lockOwner == s.row.lockOwner {
        var t :| t in s.ticks && s.ticks[t].owner == s.row.lockOwner;
        assert t in s'.ticks && s'.ticks[t].owner == s.ticks[t].owner;
      } else {
        assert a.Claim? && a.t in s'.ticks && s'.ticks[a.t].owner == Some(a.owner);
      }
    }
  }

  lemma BackedStep(p: Params, s: System, a: Action)
    requires Backed(s) && (a.Release? ==> a.ok)
    ensures Backed(Next(p, s, a))
  {
    if a.Claim? || a.UserBegin? || a.Release? {
      BackedClaim(p, s, a);
    } else if a.IsStep() {
      if a.t in s.ticks {
        StepMoves(s, a);
        if Step(s, a) != s { BackedMove(s, a.t, Step(s, a)); }
      }
    }
  }

  /** When every release reaches the table, a lock is only ever held in the name of a running tick. */
  lemma {:induction false} LocksAreReturned(p: Params, actions: seq<Action>)
    requires forall a <- actions :: a.Release? ==> a.ok
    ensures var s := Run(p, actions); s.ticks == map[] ==> s.row.lockOwner == None
    ensures Backed(Run(p, actions))
  {
    if actions != [] {
      LocksAreReturned(p, actions[..|actions| - 1]);
      BackedStep(p, Run(p, actions[..|actions| - 1]), actions[|actions| - 1]);
    }
  }

  // ---- Two resumes of one job ----

  lemma Extend(p: Params, actions: seq<Action>, a: Action)
    ensures Run(p, actions + [a]) == Next(p, Run(p, actions), a)
    ensures AllowedRun(p, actions + [a]) <==> AllowedRun(p, actions) && Allowed(p, Run(p, actions), a)
  {
    var longer := actions + [a];
    assert longer[..|longer| - 1] == actions;
  }

  // An allowed run that ends in `s`; quantified so that a proof unfolds the run only where it names it.
  ghost predicate Leads(p: Params, actions: seq<Action>, s: System) {
    forall q: Params :: q == p ==> AllowedRun(q, actions) && Run(q, actions) == s
  }

  lemma Follow(p: Params, actions: seq<Action>, s: System, a: Action, s': System)
    requires Leads(p, actions, s) && Allowed(p, s, a) && Next(p, s, a) == s'
    ensures Leads(p, actions + [a], s')
  {
    assert AllowedRun(p, actions) && Run(p, actions) == s;
    Extend(p, actions, a);
    assert AllowedRun(p, actions + [a]) && Run(p, actions + [a]) == s';
  }

  // The run waits for job 0, which may have ended.
  function Queued(ended: bool): System {
    INITIAL.(row := S.Row(WaitingForWorker, Some(0), None, None, 0, false), starting := false, nextJob := 1, done := if ended then {0} else {})
  }

  lemma StartWaits(p: Params, ended: bool) returns (actions: seq<Action>)
    ensures Leads(p, actions, Queued(ended))
  {
    Follow(p, [], INITIAL, Started(WaitingForWorker), Queued(false));
    actions := [] + [Started(WaitingForWorker)];
    if ended {
      Follow(p, actions, Queued(false), JobDone(0), Queued(true));
      actions := actions + [JobDone(0)];
    }
  }

  // A tick has locked the run and read it, and has got to `phase`.
  function Locked(p: Params, phase: Phase): System {
    Queued(true).(row := S.Row(WaitingForWorker, Some(0), Some(0), Some(S.TtlMs(p.ttlSeconds)), 0, false),
                  ticks := map[0 := Tick(Some(0), phase, 0)],
                  reviewed := if phase.InReviewOf(0) then multiset{0} else multiset{})
  }

  lemma TickChecks(p: Params) returns (actions: seq<Action>)
    ensures Leads(p, actions, Locked(p, Checking(0)))
  {
    actions := StartWaits(p, true);
    Follow(p, actions, Queued(true), Claim(0, 0), Locked(p, Holding));
    Follow(p, actions + [Claim(0, 0)], Locked(p, Holding), ReadRun(0), Locked(p, Checking(0)));
    actions := actions + [Claim(0, 0)] + [ReadRun(0)];
  }

  lemma TickReviews(p: Params) returns (actions: seq<Action>)
    ensures Leads(p, actions, Locked(p, Reviewing(0)))
  {
    actions := TickChecks(p);
    Follow(p, actions, Locked(p, Checking(0)), ReadJob(0), Locked(p, Reviewing(0)));
    actions := actions + [ReadJob(0)];
  }

  // Two resumes that both read job 0 before either writes, however the second one got in.
  predicate TwoReviewers(s: System) {
    0 in s.ticks && 1 in s.ticks && s.ticks[0].phase == Reviewing(0) && s.ticks[1].phase == Reviewing(0)
      && s.advanced == multiset{}
  }

  lemma BothAdvance(p: Params, s: System, s1: System)
    requires TwoReviewers(s) && s1 == Step(s, Advance(0, RunPassed))
    ensures Next(p, s, Advance(0, RunPassed)) == s1 && Step(s1, Advance(1, WaitingForWorker)).advanced[0] == 2
    ensures Next(p, s1, Advance(1, WaitingForWorker)) == Step(s1, Advance(1, WaitingForWorker))
  {
  }

  lemma TwoReviewersAdvanceTwice(p: Params, actions: seq<Action>, s: System) returns (longer: seq<Action>)
    requires Leads(p, actions, s) && TwoReviewers(s)
    ensures AllowedRun(p, longer) && Run(p, longer).advanced[0] == 2
  {
    var s1 := Step(s, Advance(0, RunPassed));
    BothAdvance(p, s, s1);
    Follow(p, actions, s, Advance(0, RunPassed), s1);
    Follow(p, actions + [Advance(0, RunPassed)], s1, Advance(1, WaitingForWorker), Step(s1, Advance(1, WaitingForWorker)));
    longer := actions + [Advance(0, RunPassed)] + [Advance(1, WaitingForWorker)];
    assert Run(p, longer) == Step(s1, Advance(1, WaitingForWorker));
  }

  /** The user-facing resume takes no lock: next to a punctual tick it advances the same job a second time. */
  lemma UnlockedResumeConsumesTwice(p: Params) returns (actions: seq<Action>)
    requires p.userResumes
    ensures AllowedRun(p, actions) && Run(p, actions).advanced[0] == 2
  {
    actions := TickReviews(p);
    var s := Locked(p, Reviewing(0));
    var s1 := Next(p, s, UserBegin(1));
    Follow(p, actions, s, UserBegin(1), s1);
    Follow(p, actions + [UserBegin(1)], s1, ReadJob(1), Next(p, s1, ReadJob(1)));
    actions := TwoReviewersAdvanceTwice(p, actions + [UserBegin(1)] + [ReadJob(1)], Next(p, s1, ReadJob(1)));
  }

  // The first resume is still in its review when its lock runs out and another tick claims the run.
  function Overtaken(p: Params, phase: Phase): System {
    var late := S.TtlMs(p.ttlSeconds) + 1;
    Locked(p, Reviewing(0)).(
      now := late, row := S.Row(WaitingForWorker, Some(0), Some(1), Some(late + S.TtlMs(p.ttlSeconds)), 0, false),
      ticks := map[0 := Tick(Some(0), Reviewing(0), 0), 1 := Tick(Some(1), phase, late)],
      reviewed := if phase.InReviewOf(0) then multiset{0, 0} else multiset{0})
  }

  lemma SecondClaim(p: Params) returns (actions: seq<Action>)
    requires p.maxResumeMs > S.TtlMs(p.ttlSeconds)
    ensures Leads(p, actions, Overtaken(p, Holding))
  {
    actions := TickReviews(p);
    var late := S.TtlMs(p.ttlSeconds) + 1;
    var s := Locked(p, Reviewing(0)).(now := late);
    Follow(p, actions, Locked(p, Reviewing(0)), Wait(late), s);
    Follow(p, actions + [Wait(late)], s, Claim(1, 1), Overtaken(p, Holding));
    actions := actions + [Wait(late)] + [Claim(1, 1)];
  }

  /** A resume that may outlive its lock is joined by another tick, and the job is advanced twice. */
  lemma OverrunConsumesTwice(p: Params) returns (actions: seq<Action>)
    requires p.maxResumeMs > S.TtlMs(p.ttlSeconds)
    ensures AllowedRun(p, actions) && Run(p, actions).advanced[0] == 2
  {
    actions := SecondClaim(p);
    Follow(p, actions, Overtaken(p, Holding), ReadRun(1), Overtaken(p, Checking(0)));
    Follow(p, actions + [ReadRun(1)], Overtaken(p, Checking(0)), ReadJob(1), Overtaken(p, Reviewing(0)));
    actions := TwoReviewersAdvanceTwice(p, actions + [ReadRun(1)] + [ReadJob(1)], Overtaken(p, Reviewing(0)));
  }

  ghost predicate ConsumedOnce(p: Params) {
    forall actions, job: S.JobNo :: AllowedRun(p, actions) ==> Run(p, actions).advanced[job] <= 1
  }

  /**
   * Every job's result is advanced at most once in every allowed run iff the longest resume fits in the
   * lock's time to live and no user resumes the run beside the ticks.
   */
  lemma ConsumedOnceIffLockFits(p: Params)
    ensures ConsumedOnce(p) <==> p.maxResumeMs <= S.TtlMs(p.ttlSeconds) && !p.userResumes
  {
    if LockFits(p) {
      forall actions, job: S.JobNo | AllowedRun(p, actions) ensures Run(p, actions).advanced[job] <= 1 {
        EachJobIsConsumedOnce(p, actions, job);
      }
    } else if p.userResumes {
      var actions := UnlockedResumeConsumesTwice(p);
    } else {
      var actions := OverrunConsumesTwice(p);
    }
  }

  // ---- Cancelling ----

  predicate IsCancelled(s: System) {
    s.row.status == RunCancelled
  }

  // A resume that has read the run as waiting and may still write it, or one about to write back what it has read.
  predicate Overwrites(phase: Phase) {
    phase.Checking? || phase.Reviewing? || phase.Touching? || (phase.Recording? && phase.read.status != RunCancelled)
  }

  predicate NoWriter(s: System) {
    !s.starting && forall t <- s.ticks :: !Overwrites(s.ticks[t].phase)
  }

  ghost predicate StaysCancelled(p: Params, actions: seq<Action>) {
    forall more :: IsCancelled(Run(p, actions + more))
  }

  ghost predicate StaysCancelledWhenAllowed(p: Params, actions: seq<Action>) {
    forall more :: AllowedRun(p, actions + more) ==> IsCancelled(Run(p, actions + more))
  }

  lemma CancelledStep(p: Params, s: System, a: Action)
    requires IsCancelled(s) && NoWriter(s)
    ensures IsCancelled(Next(p, s, a)) && NoWriter(Next(p, s, a))
  {
  }

  lemma {:induction false} CancelledStays(p: Params, actions: seq<Action>, more: seq<Action>)
    requires IsCancelled(Run(p, actions)) && NoWriter(Run(p, actions))
    ensures IsCancelled(Run(p, actions + more)) && NoWriter(Run(p, actions + more))
  {
    if more == [] {
      assert actions + more == actions;
    } else {
      assert (actions + more)[..|actions + more| - 1] == actions + more[..|more| - 1];
      CancelledStays(p, actions, more[..|more| - 1]);
      CancelledStep(p, Run(p, actions + more[..|more| - 1]), more[|more| - 1]);
    }
  }

  // Jobs that the row or a tick knows of have been enqueued.
  predicate Known(s: System) {
    && (s.row.pending.Some? ==> s.row.pending.value < s.nextJob)
    && forall t <- s.ticks :: KnownTo(s.ticks[t].phase, s.nextJob)
  }

  predicate KnownTo(phase: Phase, nextJob: S.JobNo) {
    && (phase.Checking? || phase.Reviewing? || phase.Touching? ==> phase.job < nextJob)
    && (phase.Touching? || phase.Recording? ==> phase.read.pending.Some? ==> phase.read.pending.value < nextJob)
  }

  lemma KnownToStep(s: System, a: Action)
    requires a.IsStep() && a.t in s.ticks && KnownTo(s.ticks[a.t].phase, s.nextJob)
    requires s.row.pending.Some? ==> s.row.pending.value < s.nextJob
    ensures var s' := Step(s, a);
            && s.nextJob <= s'.nextJob && (s'.row.pending.Some? ==> s'.row.pending.value < s'.nextJob)
            && a.t in s'.ticks && KnownTo(s'.ticks[a.t].phase, s'.nextJob)
  {
  }

  lemma KnownMove(s: System, t: TickId, s': System)
    requires Known(s) && t in s.ticks && IsMove(s, t, s') && s.nextJob <= s'.nextJob
    requires (s'.row.pending.Some? ==> s'.row.pending.value < s'.nextJob) && KnownTo(s'.ticks[t].phase, s'.nextJob)
    ensures Known(s')
  {
    forall u <- s'.ticks ensures KnownTo(s'.ticks[u].phase, s'.nextJob) {
      if u != t { assert KnownTo(s.ticks[u].phase, s.nextJob) && s'.ticks[u] == s.ticks[u]; }
    }
  }

  lemma KnownStep(p: Params, s: System, a: Action)
    requires Known(s)
    ensures Known(Next(p, s, a))
  {
    if a.IsStep() {
      if a.t in s.ticks {
        StepMoves(s, a);
        KnownToStep(s, a);
        if Step(s, a) != s { KnownMove(s, a.t, Step(s, a)); }
      }
    }
  }

  lemma {:induction false} KnownHolds(p: Params, actions: seq<Action>)
    ensures Known(Run(p, actions))
  {
    if actions != [] {
      KnownHolds(p, actions[..|actions| - 1]);
      KnownStep(p, Run(p, actions[..|actions| - 1]), actions[|actions| - 1]);
    }
  }

  // What is left for such a resume to do until the row is no longer cancelled.
  function Rest(t: TickId, phase: Phase): seq<Action>
    requires Overwrites(phase)
  {
    match phase
    case Checking(job) => [JobDone(job), ReadJob(t), Advance(t, WaitingForWorker)]
    case Reviewing(_) => [Advance(t, WaitingForWorker)]
    case Touching(_, _) => [Store(t), Advance(t, WaitingForWorker)]
    case Recording(_) => [Store(t)]
  }

  function After(p: Params, s: System, more: seq<Action>): System
    decreases more
  {
    if more == [] then s else After(p, Next(p, s, more[0]), more[1..])
  }

  // A run, allowed or not, that ends in `s`; quantified like `Leads`.
  ghost predicate Lands(p: Params, actions: seq<Action>, s: System, allowed: bool) {
    forall q: Params :: q == p ==> Run(q, actions) == s && (allowed ==> AllowedRun(q, actions))
  }

  lemma LandsNext(p: Params, actions: seq<Action>, s: System, allowed: bool, a: Action, s': System)
    requires Lands(p, actions, s, allowed) && !a.Wait? && !a.UserBegin? && s' == Next(p, s, a)
    ensures Lands(p, actions + [a], s', allowed)
  {
    assert Run(p, actions) == s;
    Extend(p, actions, a);
  }

  lemma {:induction false} RunsOn(p: Params, actions: seq<Action>, s: System, allowed: bool, more: seq<Action>)
    requires Lands(p, actions, s, allowed) && forall a <- more :: !a.Wait? && !a.UserBegin?
    ensures Lands(p, actions + more, After(p, s, more), allowed)
    decreases more
  {
    if more == [] {
      assert actions + more == actions;
    } else {
      LandsNext(p, actions, s, allowed, more[0], Next(p, s, more[0]));
      RunsOn(p, actions + [more[0]], Next(p, s, more[0]), allowed, more[1..]);
      assert actions + more == actions + [more[0]] + more[1..];
    }
  }

  lemma AfterTwo(p: Params, s: System, a: Action, b: Action)
    ensures After(p, s, [a, b]) == Next(p, Next(p, s, a), b)
  {
    assert [a, b][1..] == [b];
    assert After(p, Next(p, s, a), [b]) == After(p, Next(p, Next(p, s, a), b), []);
  }

  lemma AfterThree(p: Params, s: System, a: Action, b: Action, c: Action)
    ensures After(p, s, [a, b, c]) == Next(p, Next(p, Next(p, s, a), b), c)
  {
    assert [a, b, c][1..] == [b, c];
    AfterTwo(p, Next(p, s, a), b, c);
  }

  lemma RestOverwrites(p: Params, s: System, t: TickId)
    requires Known(s) && t in s.ticks && Overwrites(s.ticks[t].phase)
    ensures !IsCancelled(After(p, s, Rest(t, s.ticks[t].phase)))
  {
    match s.ticks[t].phase
    case Checking(job) => AfterThree(p, s, JobDone(job), ReadJob(t), Advance(t, WaitingForWorker));
    case Touching(_, _) => AfterTwo(p, s, Store(t), Advance(t, WaitingForWorker));
    case _ =>
  }

  /**
   * A cancelled run stays cancelled, in every continuation and in every allowed one, iff its start is over, no
   * resume is between its read of the run and its advance, and no failing tick is about to write back a row
   * it has read before the cancel.
   */
  lemma CancelledIsFinalIff(p: Params, actions: seq<Action>)
    requires IsCancelled(Run(p, actions))
    ensures StaysCancelled(p, actions) <==> NoWriter(Run(p, actions))
    ensures AllowedRun(p, actions) ==> (StaysCancelledWhenAllowed(p, actions) <==> NoWriter(Run(p, actions)))
  {
    var s := Run(p, actions);
    if NoWriter(s) {
      forall more ensures IsCancelled(Run(p, actions + more)) {
        CancelledStays(p, actions, more);
      }
    } else if s.starting {
      Extend(p, actions, Started(WaitingForWorker));
      assert !IsCancelled(Run(p, actions + [Started(WaitingForWorker)]));
    } else {
      var t :| t in s.ticks && Overwrites(s.ticks[t].phase);
      KnownHolds(p, actions);
      RestOverwrites(p, s, t);
      var rest := Rest(t, s.ticks[t].phase);
      RunsOn(p, actions, s, AllowedRun(p, actions), rest);
      assert Run(p, actions + rest) == After(p, s, rest) && (AllowedRun(p, actions) ==> AllowedRun(p, actions + rest));
    }
  }

  // An allowed run in which a cancel at the end of `actions` is overwritten by `more`: the run waits for a new job.
  ghost predicate OverwrittenBy(p: Params, actions: seq<Action>, more: seq<Action>) {
    && AllowedRun(p, actions + more) && IsCancelled(Run(p, actions)) && Run(p, actions + more).row.status == WaitingForWorker
  }

  lemma CancelThen(p: Params, actions: seq<Action>, s: System, jobOk: bool, more: seq<Action>)
    requires Leads(p, actions, s) && !s.row.status.Terminal() && forall a <- more :: !a.Wait? && !a.UserBegin?
    requires After(p, Next(p, s, Cancel(jobOk, false)), more).row.status == WaitingForWorker
    ensures OverwrittenBy(p, actions + [Cancel(jobOk, false)], more)
  {
    var cancelled := actions + [Cancel(jobOk, false)];
    Follow(p, actions, s, Cancel(jobOk, false), Next(p, s, Cancel(jobOk, false)));
    assert AllowedRun(p, cancelled) && Run(p, cancelled) == Next(p, s, Cancel(jobOk, false));
    RunsOn(p, cancelled, Next(p, s, Cancel(jobOk, false)), true, more);
    assert AllowedRun(p, cancelled + more) && Run(p, cancelled + more) == After(p, Next(p, s, Cancel(jobOk, false)), more);
  }

  /** For all parameters: a cancel while a punctual resume reviews is overwritten by its advance. */
  lemma CancelIsOverwritten(p: Params, jobOk: bool) returns (actions: seq<Action>)
    ensures OverwrittenBy(p, actions, [Advance(0, WaitingForWorker)])
  {
    actions := TickReviews(p);
    CancelThen(p, actions, Locked(p, Reviewing(0)), jobOk, [Advance(0, WaitingForWorker)]);
    actions := actions + [Cancel(jobOk, false)];
  }

  /** For all parameters: so is one between a tick's read of the run and its read of the job. */
  lemma CancelBetweenReadsIsOverwritten(p: Params, jobOk: bool) returns (actions: seq<Action>)
    ensures OverwrittenBy(p, actions, [ReadJob(0), Advance(0, WaitingForWorker)])
  {
    actions := TickChecks(p);
    AfterTwo(p, Next(p, Locked(p, Checking(0)), Cancel(jobOk, false)), ReadJob(0), Advance(0, WaitingForWorker));
    CancelThen(p, actions, Locked(p, Checking(0)), jobOk, [ReadJob(0), Advance(0, WaitingForWorker)]);
    actions := actions + [Cancel(jobOk, false)];
  }

  // A user's resume has read the run; its job is still running.
  function UserChecks(): System {
    Queued(false).(ticks := map[1 := Tick(None, Checking(0), 0)])
  }

  /** A user's resume meets a job still running; the cancel ends that job first, and so lets the resume go on. */
  lemma CancelEndsTheJobItOverlooks(p: Params) returns (actions: seq<Action>)
    requires p.userResumes
    ensures Run(p, actions).done == {} && Run(p, actions).ticks == UserChecks().ticks
    ensures OverwrittenBy(p, actions + [Cancel(true, false)], [ReadJob(1), Advance(1, WaitingForWorker)])
  {
    actions := StartWaits(p, false);
    Follow(p, actions, Queued(false), UserBegin(1), UserChecks());
    actions := actions + [UserBegin(1)];
    assert Run(p, actions) == UserChecks();
    AfterTwo(p, Next(p, UserChecks(), Cancel(true, false)), ReadJob(1), Advance(1, WaitingForWorker));
    CancelThen(p, actions, UserChecks(), true, [ReadJob(1), Advance(1, WaitingForWorker)]);
  }

  /** A cancel before the start has written its outcome is overwritten without any resume. */
  lemma CancelDuringStartIsOverwritten(p: Params, jobOk: bool)
    ensures OverwrittenBy(p, [Cancel(jobOk, false)], [Started(WaitingForWorker)])
  {
    CancelThen(p, [], INITIAL, jobOk, [Started(WaitingForWorker)]);
    assert [] + [Cancel(jobOk, false)] == [Cancel(jobOk, false)];
  }

  /** A tick that notes its error writes back the status it has read before the cancel. */
  lemma CancelIsUndoneByErrorNote(p: Params, jobOk: bool) returns (actions: seq<Action>)
    ensures OverwrittenBy(p, actions, [Store(0)])
  {
    var noting := Locked(p, Recording(Columns(WaitingForWorker, Some(0))));
    actions := TickChecks(p);
    Follow(p, actions, Locked(p, Checking(0)), Fail(0), Locked(p, Failing));
    Follow(p, actions + [Fail(0)], Locked(p, Failing), Load(0), noting);
    CancelThen(p, actions + [Fail(0)] + [Load(0)], noting, jobOk, [Store(0)]);
    actions := actions + [Fail(0)] + [Load(0)] + [Cancel(jobOk, false)];
  }
}
