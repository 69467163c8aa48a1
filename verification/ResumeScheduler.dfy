/** The cron tick that resumes waiting runs: candidate selection, the resume lock, and the tick's summary. */
module ResumeScheduler {
  import opened Prelude
  import opened AsyncOrchestrator

  type RunId = nat
  type Owner = nat
  type JobNo = nat

  datatype Row = Row(status: RunStatus, pending: Option<JobNo>, lockOwner: Option<Owner>, lockExpiresAt: Option<int>, attempts: nat, failed: bool)

  // ---- The lock, one conditional update ----

  function TtlMs(ttlSeconds: int): (ms: int)
    ensures ms >= 1000
  {
    1000 * if ttlSeconds < 1 then 1 else ttlSeconds
  }

  predicate Lockable(r: Row, now: int) {
    r.status == WaitingForWorker && (r.lockOwner == None || r.lockExpiresAt == None || r.lockExpiresAt.value < now)
  }

  function Locked(r: Row, owner: Owner, ttlSeconds: int, now: int): Row {
    r.(lockOwner := Some(owner), lockExpiresAt := Some(now + TtlMs(ttlSeconds)))
  }

  function Released(r: Row, owner: Owner): Row {
    if r.lockOwner == Some(owner) then r.(lockOwner := None, lockExpiresAt := None) else r
  }

  // ---- Candidates ----

  predicate Ready(r: Row, done: set<JobNo>) {
    r.pending.Some? && r.pending.value in done
  }

  function First<T>(s: seq<T>, limit: nat): (r: seq<T>)
    ensures |r| <= limit && r <= s && (|s| <= limit ==> r == s)
  {
    if |s| <= limit then s else s[..limit]
  }

  // Those of the first `n` runs that are to be kept, in order.
  function Filter(ids: seq<RunId>, keep: set<RunId>, n: nat): seq<RunId>
    requires n <= |ids|
  {
    if n == 0 then [] else Filter(ids, keep, n - 1) + if ids[n - 1] in keep then [ids[n - 1]] else []
  }

  lemma {:induction false} FilterMembers(ids: seq<RunId>, keep: set<RunId>, n: nat)
    requires n <= |ids| && Distinct(ids)
    ensures Distinct(Filter(ids, keep, n)) && forall id <- Filter(ids, keep, n) :: id in ids[..n] && id in keep
  {
    if n > 0 {
      FilterMembers(ids, keep, n - 1);
      assert ids[..n] == ids[..n - 1] + [ids[n - 1]] && ids[n - 1] !in ids[..n - 1];
    }
  }

  lemma FirstKept(ids: seq<RunId>, keep: set<RunId>, limit: nat)
    requires Distinct(ids)
    ensures var r := First(Filter(ids, keep, |ids|), limit); Distinct(r) && forall id <- r :: id in ids && id in keep
  {
    FilterMembers(ids, keep, |ids|);
    var r := First(Filter(ids, keep, |ids|), limit);
    forall id <- r ensures id in ids && id in keep {
      assert id in Filter(ids, keep, |ids|);
    }
  }

  lemma {:induction false} FilterGrows(ids: seq<RunId>, keep: set<RunId>, n: nat, m: nat)
    requires n <= m <= |ids|
    ensures Filter(ids, keep, n) <= Filter(ids, keep, m)
  {
    if n < m { FilterGrows(ids, keep, n, m - 1); }
  }

  function WaitingRuns(rows: map<RunId, Row>): set<RunId> {
    set id | id in rows && rows[id].status == WaitingForWorker
  }

  function ReadyRuns(rows: map<RunId, Row>, done: set<JobNo>): set<RunId> {
    set id | id in rows && Ready(rows[id], done)
  }

  // The candidates of a tick: among the 4 * limit oldest waiting runs, the first `limit` whose job has ended.
  function Candidates(rows: map<RunId, Row>, order: seq<RunId>, done: set<JobNo>, limit: nat): seq<RunId> {
    var listed := First(Filter(order, WaitingRuns(rows), |order|), 4 * limit);
    First(Filter(listed, ReadyRuns(rows, done), |listed|), limit)
  }

  lemma CandidatesWaitAndAreReady(rows: map<RunId, Row>, order: seq<RunId>, done: set<JobNo>, limit: nat)
    requires Distinct(order)
    ensures var c := Candidates(rows, order, done, limit);
            |c| <= limit && Distinct(c) && forall id <- c :: id in rows && rows[id].status == WaitingForWorker && Ready(rows[id], done)
  {
    FirstKept(order, WaitingRuns(rows), 4 * limit);
    FirstKept(First(Filter(order, WaitingRuns(rows), |order|), 4 * limit), ReadyRuns(rows, done), limit);
  }

  // ---- Which runs those are, told from the rows ----

  ghost predicate IsWaiting(r: Row) {
    r.status == WaitingForWorker
  }

  ghost predicate IsReady(r: Row, done: set<JobNo>) {
    r.status == WaitingForWorker && r.pending.Some? && r.pending.value in done
  }

  // How many of the first `n` runs wait, and how many of them are ready as well.
  ghost function WaitingBefore(rows: map<RunId, Row>, order: seq<RunId>, n: nat): nat
    requires n <= |order| && forall id <- order :: id in rows
  {
    if n == 0 then 0 else WaitingBefore(rows, order, n - 1) + if IsWaiting(rows[order[n - 1]]) then 1 else 0
  }

  ghost function ReadyBefore(rows: map<RunId, Row>, order: seq<RunId>, done: set<JobNo>, n: nat): nat
    requires n <= |order| && forall id <- order :: id in rows
  {
    if n == 0 then 0 else ReadyBefore(rows, order, done, n - 1) + if IsReady(rows[order[n - 1]], done) then 1 else 0
  }

  // The k-th oldest run is due: ready, with fewer than 4 * limit waiting and fewer than `limit` ready ones before it.
  ghost predicate IsDue(rows: map<RunId, Row>, order: seq<RunId>, done: set<JobNo>, limit: nat, k: nat)
    requires k < |order| && forall id <- order :: id in rows
  {
    IsReady(rows[order[k]], done) && WaitingBefore(rows, order, k) < 4 * limit && ReadyBefore(rows, order, done, k) < limit
  }

  lemma {:induction false} FilterCounts(rows: map<RunId, Row>, order: seq<RunId>, done: set<JobNo>, n: nat)
    requires n <= |order| && forall id <- order :: id in rows
    ensures |Filter(order, WaitingRuns(rows), n)| == WaitingBefore(rows, order, n)
    ensures |Filter(order, WaitingRuns(rows) * ReadyRuns(rows, done), n)| == ReadyBefore(rows, order, done, n)
  {
    if n > 0 { FilterCounts(rows, order, done, n - 1); }
  }

  lemma {:induction false} FilterSame(a: seq<RunId>, b: seq<RunId>, keep: set<RunId>, n: nat)
    requires n <= |a| && n <= |b| && forall i | 0 <= i < n :: a[i] == b[i]
    ensures Filter(a, keep, n) == Filter(b, keep, n)
  {
    if n > 0 { FilterSame(a, b, keep, n - 1); }
  }

  lemma {:induction false} FilterTwice(ids: seq<RunId>, first: set<RunId>, second: set<RunId>, n: nat)
    requires n <= |ids|
    ensures Filter(Filter(ids, first, n), second, |Filter(ids, first, n)|) == Filter(ids, first * second, n)
  {
    if n > 0 {
      FilterTwice(ids, first, second, n - 1);
      FilterSame(Filter(ids, first, n - 1), Filter(ids, first, n), second, |Filter(ids, first, n - 1)|);
    }
  }

  // A kept run stands in the filtered list at the number of kept ones before it.
  lemma FilterAt(ids: seq<RunId>, keep: set<RunId>, k: nat)
    requires k < |ids| && ids[k] in keep
    ensures |Filter(ids, keep, k)| < |Filter(ids, keep, |ids|)| && Filter(ids, keep, |ids|)[|Filter(ids, keep, k)|] == ids[k]
    ensures Filter(ids, keep, |ids|)[..|Filter(ids, keep, k)|] == Filter(ids, keep, k)
  {
    FilterGrows(ids, keep, k, |ids|);
    FilterGrows(ids, keep, k + 1, |ids|);
  }

  lemma OnlyPlace(ids: seq<RunId>, i: nat, limit: nat)
    requires Distinct(ids) && i < |ids|
    ensures ids[i] in First(ids, limit) <==> i < limit
  {
    var r := First(ids, limit);
    if i < limit { assert r[i] == ids[i]; }
    forall j | 0 <= j < |r| ensures r[j] == ids[i] ==> i < limit {
      assert r[j] == ids[j];
    }
  }

  // A run that the first filter keeps as its j-th, and the second as well.
  lemma PlaceInBoth(order: seq<RunId>, waits: set<RunId>, ready: set<RunId>, limit: nat, k: nat)
    requires Distinct(order) && k < |order| && order[k] in waits && order[k] in ready
    ensures var listed := First(Filter(order, waits, |order|), 4 * limit);
            order[k] in First(Filter(listed, ready, |listed|), limit)
            <==> |Filter(order, waits, k)| < 4 * limit && |Filter(order, waits * ready, k)| < limit
  {
    var waiting, j := Filter(order, waits, |order|), |Filter(order, waits, k)|;
    var listed := First(waiting, 4 * limit);
    FilterMembers(order, waits, |order|);
    FilterAt(order, waits, k);
    OnlyPlace(waiting, j, 4 * limit);
    FirstKept(order, waits, 4 * limit);
    FirstKept(listed, ready, limit);
    if j < 4 * limit {
      FilterSame(listed, Filter(order, waits, k), ready, j);
      FilterTwice(order, waits, ready, k);
      FilterMembers(listed, ready, |listed|);
      FilterAt(listed, ready, j);
      OnlyPlace(Filter(listed, ready, |listed|), |Filter(listed, ready, j)|, limit);
    }
  }

  // The place of the k-th run in the list of waiting runs, and then among the ready ones of that list.
  lemma CandidatesAt(rows: map<RunId, Row>, order: seq<RunId>, done: set<JobNo>, limit: nat, k: nat)
    requires Distinct(order) && (forall id <- order :: id in rows) && k < |order| && IsReady(rows[order[k]], done)
    ensures order[k] in Candidates(rows, order, done, limit) <==> IsDue(rows, order, done, limit, k)
  {
    FilterCounts(rows, order, done, k);
    PlaceInBoth(order, WaitingRuns(rows), ReadyRuns(rows, done), limit, k);
  }

  /** The candidates of a tick are exactly the due runs. */
  lemma CandidatesAreDue(rows: map<RunId, Row>, order: seq<RunId>, done: set<JobNo>, limit: nat)
    requires Distinct(order) && forall id <- order :: id in rows
    ensures forall k | 0 <= k < |order| :: order[k] in Candidates(rows, order, done, limit) <==> IsDue(rows, order, done, limit, k)
  {
    CandidatesWaitAndAreReady(rows, order, done, limit);
    forall k | 0 <= k < |order| ensures order[k] in Candidates(rows, order, done, limit) <==> IsDue(rows, order, done, limit, k) {
      if IsReady(rows[order[k]], done) { CandidatesAt(rows, order, done, limit, k); }
    }
  }

  // What the injected resume answers and leaves in the row.
  datatype Reply = Reply(status: RunStatus, pending: Option<JobNo>)

  // What one tick meets: when it gets to its i-th candidate, and the replies; a run without one throws.
  datatype Surroundings = Surroundings(times: seq<int>, replies: map<RunId, Reply>) {
    function ReplyOf(run: RunId): Option<Reply> {
      if run in replies then Some(replies[run]) else None
    }
  }

  datatype Outcome = Resumed | StillWaiting | LockSkipped | ResumeFailed
  datatype RunResult = RunResult(run: RunId, outcome: Outcome, status: Option<RunStatus>)
  datatype Summary = Summary(scanned: nat, resumed: nat, stillWaiting: nat, skipped: nat, failed: nat, results: seq<RunResult>)

  function OutcomeOf(reply: Option<Reply>): Outcome {
    if reply == None then ResumeFailed else if reply.value.status == WaitingForWorker then StillWaiting else Resumed
  }

  // A run's row after this tick has dealt with it.
  function Processed(r: Row, reply: Option<Reply>, owner: Owner, ttlSeconds: int, now: int): Row {
    if !Lockable(r, now) then r
    else
      var attempted := Locked(r, owner, ttlSeconds, now).(attempts := r.attempts + 1);
      Released(if reply.Some? then attempted.(status := reply.value.status, pending := reply.value.pending) else attempted.(failed := true), owner)
  }

  function ResultOf(run: RunId, r: Row, reply: Option<Reply>, now: int): RunResult {
    if !Lockable(r, now) then RunResult(run, LockSkipped, None)
    else RunResult(run, OutcomeOf(reply), if reply.Some? then Some(reply.value.status) else None)
  }

  // One candidate's row and result: skipped when it does not wait or its lock is held; otherwise an attempt is counted, the
  // lock is free again, and the answer of the resume, or its error, is what row and result show.
  ghost predicate DealtWith(run: RunId, before: Row, reply: Option<Reply>, now: int, after: Row, result: RunResult) {
    && result.run == run
    && if !(before.status == WaitingForWorker && (before.lockOwner == None || before.lockExpiresAt == None || before.lockExpiresAt.value < now)) then
         after == before && result.outcome == LockSkipped && result.status == None
       else
         && after.attempts == before.attempts + 1 && after.lockOwner == None && after.lockExpiresAt == None
         && if reply == None then
              && result.outcome == ResumeFailed && result.status == None
              && after.failed && after.status == before.status && after.pending == before.pending
            else
              && result.status == Some(reply.value.status) && after.failed == before.failed
              && after.status == reply.value.status && after.pending == reply.value.pending
              && result.outcome == if reply.value.status == WaitingForWorker then StillWaiting else Resumed
  }

  lemma ProcessedMeans(run: RunId, before: Row, reply: Option<Reply>, owner: Owner, ttlSeconds: int, now: int)
    ensures DealtWith(run, before, reply, now, Processed(before, reply, owner, ttlSeconds, now), ResultOf(run, before, reply, now))
  {
  }

  // The rows after the first `n` candidates.
  function TickRows(rows: map<RunId, Row>, found: seq<RunId>,
                    owner: Owner, ttlSeconds: int, x: Surroundings, n: nat): (r: map<RunId, Row>)
    requires n <= |found| <= |x.times| && forall id <- found :: id in rows
    ensures r.Keys == rows.Keys
  {
    if n == 0 then rows
    else
      var before, id := TickRows(rows, found, owner, ttlSeconds, x, n - 1), found[n - 1];
      before[id := Processed(before[id], x.ReplyOf(id), owner, ttlSeconds, x.times[n - 1])]
  }

  lemma {:induction false} TickRowsAt(rows: map<RunId, Row>, found: seq<RunId>, owner: Owner,
                                      ttlSeconds: int, x: Surroundings, n: nat, id: RunId)
    requires n <= |found| <= |x.times| && Distinct(found) && (forall c <- found :: c in rows) && id in rows
    ensures id !in found[..n] ==> TickRows(rows, found, owner, ttlSeconds, x, n)[id] == rows[id]
    ensures forall k | 0 <= k < n && found[k] == id ::
              TickRows(rows, found, owner, ttlSeconds, x, n)[id] == Processed(rows[id], x.ReplyOf(id), owner, ttlSeconds, x.times[k])
  {
    if n > 0 {
      TickRowsAt(rows, found, owner, ttlSeconds, x, n - 1, id);
      assert found[..n] == found[..n - 1] + [found[n - 1]];
    }
  }

  // The results of the first `n` candidates.
  function TickResults(rows: map<RunId, Row>, found: seq<RunId>, x: Surroundings, n: nat): (r: seq<RunResult>)
    requires n <= |found| <= |x.times| && forall id <- found :: id in rows
    ensures |r| == n
  {
    if n == 0 then [] else TickResults(rows, found, x, n - 1) + [ResultOf(found[n - 1], rows[found[n - 1]], x.ReplyOf(found[n - 1]), x.times[n - 1])]
  }

  lemma {:induction false} TickResultsAt(rows: map<RunId, Row>, found: seq<RunId>, x: Surroundings, n: nat, i: nat)
    requires i < n <= |found| <= |x.times| && forall id <- found :: id in rows
    ensures TickResults(rows, found, x, n)[i] == ResultOf(found[i], rows[found[i]], x.ReplyOf(found[i]), x.times[i])
  {
    if i < n - 1 { TickResultsAt(rows, found, x, n - 1, i); }
  }

  // Every candidate has been dealt with and no other run has been touched.
  ghost predicate TickMeans(before: map<RunId, Row>, after: map<RunId, Row>, found: seq<RunId>, results: seq<RunResult>, x: Surroundings)
    requires |results| == |found| <= |x.times| && after.Keys == before.Keys && forall id <- found :: id in before
  {
    && (forall i | 0 <= i < |found| ::
          DealtWith(found[i], before[found[i]], x.ReplyOf(found[i]), x.times[i], after[found[i]], results[i]))
    && forall id <- before :: id !in found ==> after[id] == before[id]
  }

  lemma TickDealsWithAll(rows: map<RunId, Row>, found: seq<RunId>, owner: Owner, ttlSeconds: int, x: Surroundings)
    requires |found| <= |x.times| && Distinct(found) && forall id <- found :: id in rows
    ensures TickMeans(rows, TickRows(rows, found, owner, ttlSeconds, x, |found|), found, TickResults(rows, found, x, |found|), x)
  {
    var after := TickRows(rows, found, owner, ttlSeconds, x, |found|);
    assert found[..|found|] == found;
    forall id <- rows ensures id !in found ==> after[id] == rows[id] {
      TickRowsAt(rows, found, owner, ttlSeconds, x, |found|, id);
    }
    forall i | 0 <= i < |found|
      ensures DealtWith(found[i], rows[found[i]], x.ReplyOf(found[i]), x.times[i],
                        after[found[i]], TickResults(rows, found, x, |found|)[i])
    {
      TickRowsAt(rows, found, owner, ttlSeconds, x, |found|, found[i]);
      TickResultsAt(rows, found, x, |found|, i);
      ProcessedMeans(found[i], rows[found[i]], x.ReplyOf(found[i]), owner, ttlSeconds, x.times[i]);
    }
  }

  function Count(results: seq<RunResult>, outcome: Outcome): nat {
    if results == [] then 0
    else Count(results[..|results| - 1], outcome) + if results[|results| - 1].outcome == outcome then 1 else 0
  }

  // The counters are those of the result list, and together they account for every candidate.
  ghost predicate Accounts(s: Summary) {
    && s.resumed == Count(s.results, Resumed) && s.stillWaiting == Count(s.results, StillWaiting)
    && s.skipped == Count(s.results, LockSkipped) && s.failed == Count(s.results, ResumeFailed)
    && s.resumed + s.stillWaiting + s.skipped + s.failed == |s.results|
  }

  // One more result on the summary, and on the counter it belongs to.
  function Recorded(s: Summary, r: RunResult): Summary {
    var next := s.(results := s.results + [r]);
    match r.outcome
    case Resumed => next.(resumed := s.resumed + 1)
    case StillWaiting => next.(stillWaiting := s.stillWaiting + 1)
    case LockSkipped => next.(skipped := s.skipped + 1)
    case ResumeFailed => next.(failed := s.failed + 1)
  }

  lemma RecordedAccounts(s: Summary, r: RunResult)
    requires Accounts(s)
    ensures Accounts(Recorded(s, r)) && Recorded(s, r).results == s.results + [r] && Recorded(s, r).scanned == s.scanned
  {
    var longer := s.results + [r];
    assert longer[..|longer| - 1] == s.results;
  }

  class RunTable {
    var rows: map<RunId, Row>
    // Run ids, oldest first.
    var order: seq<RunId>

    ghost predicate Valid()
      reads this
    {
      Distinct(order) && forall id :: id in order <==> id in rows
    }

    constructor ()
      ensures Valid() && rows == map[] && order == []
    {
      rows, order := map[], [];
    }

    method ClaimLock(run: RunId, owner: Owner, ttlSeconds: int, now: int) returns (claimed: bool)
      requires Valid()
      modifies this`rows
      ensures Valid() && (claimed <==> run in old(rows) && Lockable(old(rows)[run], now))
      ensures rows == if claimed then old(rows)[run := Locked(old(rows)[run], owner, ttlSeconds, now)] else old(rows)
      ensures claimed <==> run in old(rows) && old(rows)[run].status == WaitingForWorker
                           && (old(rows)[run].lockOwner == None || old(rows)[run].lockExpiresAt == None || old(rows)[run].lockExpiresAt.value < now)
      ensures claimed ==> rows[run] == old(rows)[run].(lockOwner := Some(owner),
                                         lockExpiresAt := Some(now + if ttlSeconds < 1 then 1000 else 1000 * ttlSeconds))
    {
      claimed := run in rows && Lockable(rows[run], now);
      if claimed { rows := rows[run := Locked(rows[run], owner, ttlSeconds, now)]; }
    }

    method ReleaseLock(run: RunId, owner: Owner)
      requires Valid()
      modifies this`rows
      ensures Valid()
      ensures rows == if run in old(rows) then old(rows)[run := Released(old(rows)[run], owner)] else old(rows)
      ensures rows == if run in old(rows) && old(rows)[run].lockOwner == Some(owner)
                      then old(rows)[run := old(rows)[run].(lockOwner := None, lockExpiresAt := None)] else old(rows)
    {
      if run in rows && rows[run].lockOwner == Some(owner) {
        rows := rows[run := rows[run].(lockOwner := None, lockExpiresAt := None)];
      }
      assert run in rows ==> rows == rows[run := rows[run]];
    }

    // The oldest waiting runs, at most `limit` of them.
    method ListWaiting(limit: nat) returns (waiting: seq<RunId>)
      requires Valid()
      ensures waiting == First(Filter(order, WaitingRuns(rows), |order|), limit)
    {
      waiting := [];
      for i := 0 to |order|
        invariant waiting == Filter(order, WaitingRuns(rows), i) && |waiting| <= limit
      {
        if |waiting| == limit {
          FilterGrows(order, WaitingRuns(rows), i, |order|);
          return;
        }
        if rows[order[i]].status == WaitingForWorker { waiting := waiting + [order[i]]; }
      }
    }

    // Those listed runs whose job has ended, up to the limit.
    method PickReady(listed: seq<RunId>, limit: nat, done: set<JobNo>) returns (out: seq<RunId>)
      requires limit >= 1 && forall i | 0 <= i < |listed| :: listed[i] in rows
      ensures out == First(Filter(listed, ReadyRuns(rows, done), |listed|), limit)
    {
      ghost var ready := ReadyRuns(rows, done);
      out := [];
      for i := 0 to |listed|
        invariant out == Filter(listed, ready, i) && |out| < limit
      {
        if !Ready(rows[listed[i]], done) { continue; }
        out := out + [listed[i]];
        if |out| >= limit {
          FilterGrows(listed, ready, i + 1, |listed|);
          return;
        }
      }
    }

    /** Over-fetch, filter by finished job, stop at the limit. */
    method FindResumable(limit: nat, done: set<JobNo>) returns (out: seq<RunId>)
      requires Valid() && limit >= 1
      ensures out == Candidates(rows, order, done, limit)
      ensures forall k | 0 <= k < |order| :: order[k] in out <==> IsDue(rows, order, done, limit, k)
    {
      CandidatesAreDue(rows, order, done, limit);
      var listed := ListWaiting(limit * 4);
      FirstKept(order, WaitingRuns(rows), limit * 4);
      assert forall i | 0 <= i < |listed| :: listed[i] in WaitingRuns(rows) by {
        forall i | 0 <= i < |listed| ensures listed[i] in WaitingRuns(rows) { assert listed[i] in listed; }
      }
      out := PickReady(listed, limit, done);
    }

    // One candidate: lock, resume, record, release.
    method ProcessCandidate(run: RunId, owner: Owner, ttlSeconds: int, now: int, reply: Option<Reply>)
      returns (r: RunResult)
      requires Valid() && run in rows
      modifies this`rows
      ensures Valid()
      ensures rows == old(rows)[run := Processed(old(rows)[run], reply, owner, ttlSeconds, now)]
      ensures r == ResultOf(run, old(rows)[run], reply, now)
      ensures DealtWith(run, old(rows)[run], reply, now, rows[run], r)
    {
      ProcessedMeans(run, rows[run], reply, owner, ttlSeconds, now);
      var locked := ClaimLock(run, owner, ttlSeconds, now);
      if !locked {
        assert rows == rows[run := rows[run]];
        return RunResult(run, LockSkipped, None);
      }
      rows := rows[run := rows[run].(attempts := rows[run].attempts + 1)];
      if reply.Some? {
        rows := rows[run := rows[run].(status := reply.value.status, pending := reply.value.pending)];
        r := RunResult(run, OutcomeOf(reply), Some(reply.value.status));
      } else {
        r := RunResult(run, ResumeFailed, None);
        rows := rows[run := rows[run].(failed := true)];
      }
      ReleaseLock(run, owner);
    }

    // The i-th candidate of a tick that started on `before`.
    method ProcessNext(found: seq<RunId>, i: nat, ttlSeconds: int, owner: Owner, x: Surroundings,
            ghost before: map<RunId, Row>)
      returns (r: RunResult)
      requires Valid() && Distinct(found) && i < |found| <= |x.times| && forall id <- found :: id in before
      requires rows == TickRows(before, found, owner, ttlSeconds, x, i)
      modifies this`rows
      ensures Valid() && rows == TickRows(before, found, owner, ttlSeconds, x, i + 1)
      ensures r == ResultOf(found[i], before[found[i]], x.ReplyOf(found[i]), x.times[i])
    {
      TickRowsAt(before, found, owner, ttlSeconds, x, i, found[i]);
      r := ProcessCandidate(found[i], owner, ttlSeconds, x.times[i], x.ReplyOf(found[i]));
    }

    // The tick over its candidates.
    method ProcessAll(found: seq<RunId>, ttlSeconds: int, owner: Owner, x: Surroundings) returns (s: Summary)
      requires Valid() && Distinct(found) && |found| <= |x.times| && forall id <- found :: id in rows
      modifies this`rows
      ensures Valid() && rows == TickRows(old(rows), found, owner, ttlSeconds, x, |found|)
      ensures Accounts(s) && s.scanned == |found| && s.results == TickResults(old(rows), found, x, |found|)
    {
      s := Summary(|found|, 0, 0, 0, 0, []);
      for i := 0 to |found|
        invariant Valid() && rows == TickRows(old(rows), found, owner, ttlSeconds, x, i)
        invariant Accounts(s) && s.scanned == |found| && s.results == TickResults(old(rows), found, x, i)
      {
        var r := ProcessNext(found, i, ttlSeconds, owner, x, old(rows));
        RecordedAccounts(s, r);
        s := Recorded(s, r);
      }
    }

    /**
     * A whole tick: every candidate gets exactly one result, the counters account for all of them, no
     * other run is touched, and every lock the tick took is free again.
     */
    method ResumeDue(batch: nat, ttlSeconds: int, owner: Owner, done: set<JobNo>, x: Surroundings)
      returns (s: Summary, candidates: seq<RunId>)
      requires Valid() && 1 <= batch <= |x.times|
      modifies this`rows
      ensures Valid() && Accounts(s) && s.scanned == |candidates| == |s.results| <= batch && rows.Keys == old(rows).Keys
      ensures forall k | 0 <= k < |order| :: order[k] in candidates <==> IsDue(old(rows), order, done, batch, k)
      ensures candidates == Candidates(old(rows), order, done, batch) && forall id <- candidates :: id in old(rows)
      ensures rows == TickRows(old(rows), candidates, owner, ttlSeconds, x, |candidates|)
      ensures TickMeans(old(rows), rows, candidates, s.results, x)
    {
      candidates := FindResumable(batch, done);
      CandidatesWaitAndAreReady(rows, order, done, batch);
      s := ProcessAll(candidates, ttlSeconds, owner, x);
      TickDealsWithAll(old(rows), candidates, owner, ttlSeconds, x);
    }
  }
}
