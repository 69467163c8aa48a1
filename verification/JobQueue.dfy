/**
 * The lease queue: the rows, the claim scan, and the two-phase claim of the
 * database function. The value functions specify the queue class at the end.
 */
module JobQueue {
  import opened Prelude
  import opened JobTypes

  // Rows by id, plus the insertion order that breaks ties in a stable sort.
  datatype Table = Table(jobs: map<JobId, Job>, order: seq<JobId>) {
    ghost predicate Valid() {
      Distinct(order) && forall id :: id in order <==> id in jobs
    }
  }

  predicate Claimable(j: Job, now: int) {
    j.status == Queued
    || (j.status == Running && (j.leaseExpiresAt == None || j.leaseExpiresAt.value < now))
  }

  predicate HasAttemptsLeft(j: Job) {
    j.attempts < j.maxAttempts
  }

  function ClaimableAt(now: int): Job -> bool {
    j => Claimable(j, now)
  }

  function EligibleAt(now: int): Job -> bool {
    j => Claimable(j, now) && HasAttemptsLeft(j)
  }

  predicate KeyBefore(a: Job, b: Job) {
    a.priority < b.priority || (a.priority == b.priority && a.createdAt < b.createdAt)
  }

  function Exhausted(j: Job, now: int): Job {
    j.(status := Failed, error := Some(MaxAttemptsExceeded), finishedAt := Some(now), updatedAt := now)
  }

  function Leased(j: Job, worker: WorkerId, now: int, leaseMs: int): Job {
    j.(status := Running, leaseOwner := Some(worker), leaseExpiresAt := Some(now + leaseMs),
       attempts := j.attempts + 1,
       startedAt := if j.startedAt == None then Some(now) else j.startedAt, updatedAt := now)
  }

  // ---- Array.prototype.filter and the stable Array.prototype.sort ----

  function FilterIds(jobs: map<JobId, Job>, ids: seq<JobId>, keep: Job -> bool): (r: seq<JobId>)
    requires forall id <- ids :: id in jobs
    ensures forall id :: id in r <==> id in ids && keep(jobs[id])
  {
    if ids == [] then []
    else if keep(jobs[ids[0]]) then [ids[0]] + FilterIds(jobs, ids[1..], keep)
    else FilterIds(jobs, ids[1..], keep)
  }

  function InsertByKey(jobs: map<JobId, Job>, id: JobId, ids: seq<JobId>): (r: seq<JobId>)
    requires id in jobs && forall x <- ids :: x in jobs
    ensures forall x :: x in r <==> x == id || x in ids
  {
    if ids == [] || !KeyBefore(jobs[ids[0]], jobs[id]) then [id] + ids
    else [ids[0]] + InsertByKey(jobs, id, ids[1..])
  }

  function SortByKey(jobs: map<JobId, Job>, ids: seq<JobId>): (r: seq<JobId>)
    requires forall x <- ids :: x in jobs
    ensures forall x :: x in r <==> x in ids
  {
    if ids == [] then []
    else InsertByKey(jobs, ids[0], SortByKey(jobs, ids[1..]))
  }

  // ---- The order a claim must respect: priority, then age, then insertion ----

  function Position(order: seq<JobId>, id: JobId): (p: nat)
    requires id in order
    ensures p < |order| && order[p] == id
  {
    if order[0] == id then 0 else 1 + Position(order[1..], id)
  }

  ghost predicate Precedes(t: Table, a: JobId, b: JobId)
    requires t.Valid() && a in t.jobs && b in t.jobs
  {
    KeyBefore(t.jobs[a], t.jobs[b])
    || (!KeyBefore(t.jobs[b], t.jobs[a]) && Position(t.order, a) < Position(t.order, b))
  }

  ghost predicate InOrder(t: Table, ids: seq<JobId>)
    requires t.Valid()
  {
    && (forall x <- ids :: x in t.jobs)
    && (forall i, j :: 0 <= i < j < |ids| ==> Precedes(t, ids[i], ids[j]))
  }

  ghost predicate Subsequence(t: Table, ids: seq<JobId>)
    requires t.Valid()
  {
    && (forall x <- ids :: x in t.order)
    && (forall i, j :: 0 <= i < j < |ids| ==> Position(t.order, ids[i]) < Position(t.order, ids[j]))
  }

  lemma {:induction false} FilterKeepsOrder(t: Table, ids: seq<JobId>, keep: Job -> bool)
    requires t.Valid() && Subsequence(t, ids)
    ensures Subsequence(t, FilterIds(t.jobs, ids, keep))
  {
    if ids != [] {
      FilterKeepsOrder(t, ids[1..], keep);
      var rest := FilterIds(t.jobs, ids[1..], keep);
      forall x | x in rest ensures Position(t.order, ids[0]) < Position(t.order, x) {
        var k :| 0 <= k < |ids[1..]| && ids[1..][k] == x;
      }
    }
  }

  lemma {:induction false} InsertInOrder(t: Table, id: JobId, ids: seq<JobId>)
    requires t.Valid() && id in t.jobs && InOrder(t, ids)
    requires forall x <- ids :: Position(t.order, id) < Position(t.order, x)
    ensures InOrder(t, InsertByKey(t.jobs, id, ids))
  {
    if ids != [] && KeyBefore(t.jobs[ids[0]], t.jobs[id]) {
      InsertInOrder(t, id, ids[1..]);
      var rest := InsertByKey(t.jobs, id, ids[1..]);
      forall x | x in rest ensures Precedes(t, ids[0], x) {
        if x != id {
          var k :| 0 <= k < |ids[1..]| && ids[1..][k] == x;
        }
      }
    } else {
      forall x | x in ids ensures Precedes(t, id, x) {
        var k :| 0 <= k < |ids| && ids[k] == x;
        if k > 0 { assert Precedes(t, ids[0], ids[k]); }
      }
    }
  }

  lemma {:induction false} SortInOrder(t: Table, ids: seq<JobId>)
    requires t.Valid() && Subsequence(t, ids)
    ensures InOrder(t, SortByKey(t.jobs, ids))
  {
    if ids != [] {
      SortInOrder(t, ids[1..]);
      forall x | x in ids[1..] ensures Position(t.order, ids[0]) < Position(t.order, x) {
        var k :| 0 <= k < |ids[1..]| && ids[1..][k] == x;
      }
      InsertInOrder(t, ids[0], SortByKey(t.jobs, ids[1..]));
    }
  }

  lemma {:induction false} PositionAt(order: seq<JobId>, k: nat)
    requires Distinct(order) && k < |order|
    ensures Position(order, order[k]) == k
  {
    var p := Position(order, order[k]);
    assert order[p] == order[k];
  }

  lemma WholeOrderIsSubsequence(t: Table)
    requires t.Valid()
    ensures Subsequence(t, t.order)
  {
    forall i, j | 0 <= i < j < |t.order|
      ensures Position(t.order, t.order[i]) < Position(t.order, t.order[j])
    {
      PositionAt(t.order, i);
      PositionAt(t.order, j);
    }
  }

  function SelectInOrder(t: Table, keep: Job -> bool): (r: seq<JobId>)
    requires forall id <- t.order :: id in t.jobs
    ensures forall id :: id in r <==> id in t.order && keep(t.jobs[id])
  {
    SortByKey(t.jobs, FilterIds(t.jobs, t.order, keep))
  }

  lemma SelectedInOrder(t: Table, keep: Job -> bool)
    requires t.Valid()
    ensures InOrder(t, SelectInOrder(t, keep))
  {
    WholeOrderIsSubsequence(t);
    FilterKeepsOrder(t, t.order, keep);
    SortInOrder(t, FilterIds(t.jobs, t.order, keep));
  }

  // ---- The scanning claim: fail exhausted rows as they are met, lease the first live one ----

  function ClaimScan(jobs: map<JobId, Job>, ids: seq<JobId>, worker: WorkerId, now: int, leaseMs: int)
    : (r: (map<JobId, Job>, Option<JobId>))
    requires forall id <- ids :: id in jobs
    ensures r.0.Keys == jobs.Keys
  {
    if ids == [] then (jobs, None)
    else if HasAttemptsLeft(jobs[ids[0]]) then
      (jobs[ids[0] := Leased(jobs[ids[0]], worker, now, leaseMs)], Some(ids[0]))
    else
      ClaimScan(jobs[ids[0] := Exhausted(jobs[ids[0]], now)], ids[1..], worker, now, leaseMs)
  }

  function Claim(t: Table, worker: WorkerId, now: int, leaseMs: int): (r: (Table, Option<JobId>))
    requires forall id <- t.order :: id in t.jobs
  {
    var (jobs, pick) := ClaimScan(t.jobs, SelectInOrder(t, ClaimableAt(now)), worker, now, leaseMs);
    (Table(jobs, t.order), pick)
  }

  ghost predicate Eligible(j: Job, now: int) {
    Claimable(j, now) && HasAttemptsLeft(j)
  }

  ghost predicate Dead(j: Job, now: int) {
    Claimable(j, now) && !HasAttemptsLeft(j)
  }

  // No eligible row is left behind, and a picked row comes before every other eligible row.
  ghost predicate IsFirstEligible(t: Table, now: int, pick: Option<JobId>)
    requires t.Valid()
  {
    match pick
    case None => forall x <- t.jobs :: !Eligible(t.jobs[x], now)
    case Some(id) =>
      && id in t.jobs && Eligible(t.jobs[id], now)
      && forall x <- t.jobs :: x != id && Eligible(t.jobs[x], now) ==> Precedes(t, id, x)
  }

  // The whole new state of the scan: only rows the scan walked over have changed.
  ghost predicate ScanEffect(t: Table, worker: WorkerId, now: int, leaseMs: int, t': Table, pick: Option<JobId>)
    requires t.Valid() && (pick.Some? ==> pick.value in t.jobs)
  {
    && t'.order == t.order && t'.jobs.Keys == t.jobs.Keys
    && forall x <- t.jobs ::
         t'.jobs[x] ==
           if pick == Some(x) then Leased(t.jobs[x], worker, now, leaseMs)
           else if Dead(t.jobs[x], now) && (pick == None || Precedes(t, x, pick.value))
           then Exhausted(t.jobs[x], now)
           else t.jobs[x]
  }

  lemma {:induction false} ScanWalk(t: Table, jobs: map<JobId, Job>, ids: seq<JobId>,
                                    worker: WorkerId, now: int, leaseMs: int)
    requires t.Valid() && InOrder(t, ids) && jobs.Keys == t.jobs.Keys
    requires forall x <- ids :: jobs[x] == t.jobs[x]
    ensures var (jobs', pick) := ClaimScan(jobs, ids, worker, now, leaseMs);
            && (forall x <- jobs :: x !in ids ==> jobs'[x] == jobs[x])
            && (match pick
                case None => forall x <- ids :: !HasAttemptsLeft(t.jobs[x]) && jobs'[x] == Exhausted(t.jobs[x], now)
                case Some(p) =>
                  && p in ids && HasAttemptsLeft(t.jobs[p]) && jobs'[p] == Leased(t.jobs[p], worker, now, leaseMs)
                  && (forall x <- ids :: x != p ==>
                        || (Precedes(t, p, x) && !Precedes(t, x, p) && jobs'[x] == t.jobs[x])
                        || (Precedes(t, x, p) && !HasAttemptsLeft(t.jobs[x]) && jobs'[x] == Exhausted(t.jobs[x], now))))
  {
    if ids != [] {
      forall x | x in ids[1..] ensures Precedes(t, ids[0], x) && !Precedes(t, x, ids[0]) {
        var k :| 0 <= k < |ids[1..]| && ids[1..][k] == x;
      }
      if !HasAttemptsLeft(jobs[ids[0]]) {
        ScanWalk(t, jobs[ids[0] := Exhausted(jobs[ids[0]], now)], ids[1..], worker, now, leaseMs);
      }
    }
  }

  /** The scan leases the least eligible row, and says exactly which rows it failed on the way. */
  lemma ClaimCorrect(t: Table, worker: WorkerId, now: int, leaseMs: int)
    requires t.Valid()
    ensures var (t', pick) := Claim(t, worker, now, leaseMs);
            && t'.Valid()
            && IsFirstEligible(t, now, pick)
            && ScanEffect(t, worker, now, leaseMs, t', pick)
  {
    var keep := ClaimableAt(now);
    SelectedInOrder(t, keep);
    ScanWalk(t, t.jobs, SelectInOrder(t, keep), worker, now, leaseMs);
  }

  // What a claim can do to any one row, without naming the order of the scan.
  ghost predicate ClaimChanges(t: Table, worker: WorkerId, now: int, leaseMs: int, t': Table, pick: Option<JobId>) {
    && t'.order == t.order && t'.jobs.Keys == t.jobs.Keys
    && (pick.Some? ==> pick.value in t.jobs && Eligible(t.jobs[pick.value], now))
    && forall x <- t.jobs ::
         if pick == Some(x) then t'.jobs[x] == Leased(t.jobs[x], worker, now, leaseMs)
         else t'.jobs[x] == t.jobs[x] || (Dead(t.jobs[x], now) && t'.jobs[x] == Exhausted(t.jobs[x], now))
  }

  lemma ClaimIsLocal(t: Table, worker: WorkerId, now: int, leaseMs: int)
    requires t.Valid()
    ensures var (t', pick) := Claim(t, worker, now, leaseMs);
            t'.Valid() && ClaimChanges(t, worker, now, leaseMs, t', pick)
  {
    ClaimCorrect(t, worker, now, leaseMs);
  }

  lemma ClaimOfSingleRow(id: JobId, row: Job, worker: WorkerId, now: int, leaseMs: int)
    requires Claimable(row, now)
    ensures Claim(Table(map[id := row], [id]), worker, now, leaseMs) ==
            (if HasAttemptsLeft(row) then (Table(map[id := Leased(row, worker, now, leaseMs)], [id]), Some(id))
             else (Table(map[id := Exhausted(row, now)], [id]), None))
  {
    var t := Table(map[id := row], [id]);
    ClaimCorrect(t, worker, now, leaseMs);
    var (t', pick) := Claim(t, worker, now, leaseMs);
    assert t'.jobs == map[id := t'.jobs[id]];
  }

  // ---- The two-phase claim of the database function ----

  function FailDead(jobs: map<JobId, Job>, ids: seq<JobId>, now: int): (r: map<JobId, Job>)
    requires forall id <- ids :: id in jobs
    ensures r.Keys == jobs.Keys
    ensures forall x <- jobs :: r[x] == if x in ids && Dead(jobs[x], now) then Exhausted(jobs[x], now) else jobs[x]
  {
    if ids == [] then jobs
    else if Claimable(jobs[ids[0]], now) && !HasAttemptsLeft(jobs[ids[0]]) then
      FailDead(jobs[ids[0] := Exhausted(jobs[ids[0]], now)], ids[1..], now)
    else FailDead(jobs, ids[1..], now)
  }

  function RpcClaim(t: Table, worker: WorkerId, now: int, leaseMs: int): (r: (Table, Option<JobId>))
    requires forall id <- t.order :: id in t.jobs
  {
    var swept := Table(FailDead(t.jobs, t.order, now), t.order);
    var eligible := SelectInOrder(swept, EligibleAt(now));
    if eligible == [] then (swept, None)
    else (Table(swept.jobs[eligible[0] := Leased(swept.jobs[eligible[0]], worker, now, leaseMs)], t.order), Some(eligible[0]))
  }

  ghost predicate RpcEffect(t: Table, worker: WorkerId, now: int, leaseMs: int, t': Table, pick: Option<JobId>) {
    && t'.order == t.order && t'.jobs.Keys == t.jobs.Keys
    && forall x <- t.jobs ::
         t'.jobs[x] ==
           if pick == Some(x) then Leased(t.jobs[x], worker, now, leaseMs)
           else if Dead(t.jobs[x], now) then Exhausted(t.jobs[x], now)
           else t.jobs[x]
  }

  lemma FirstSelected(t: Table, keep: Job -> bool)
    requires t.Valid() && SelectInOrder(t, keep) != []
    ensures var first := SelectInOrder(t, keep)[0];
            && first in t.jobs && keep(t.jobs[first])
            && forall x <- t.jobs :: x != first && keep(t.jobs[x]) ==> Precedes(t, first, x)
  {
    SelectedInOrder(t, keep);
    var ids := SelectInOrder(t, keep);
    assert ids[0] in ids;
    forall x <- t.jobs | x != ids[0] && keep(t.jobs[x]) ensures Precedes(t, ids[0], x) {
      assert x in ids;
      var k :| 0 <= k < |ids| && ids[k] == x;
    }
  }

  lemma RpcPickIsFirst(t: Table, worker: WorkerId, now: int, leaseMs: int)
    requires t.Valid()
    ensures IsFirstEligible(t, now, RpcClaim(t, worker, now, leaseMs).1)
  {
    var keep := EligibleAt(now);
    var swept := Table(FailDead(t.jobs, t.order, now), t.order);
    var eligible := SelectInOrder(swept, keep);
    if eligible != [] {
      FirstSelected(swept, keep);
      forall x <- t.jobs | x != eligible[0] && Eligible(t.jobs[x], now) ensures Precedes(t, eligible[0], x) {
        assert Precedes(swept, eligible[0], x);
      }
    } else {
      forall x <- t.jobs ensures !Eligible(t.jobs[x], now) {
        assert x !in eligible;
      }
    }
  }

  lemma RpcWrites(t: Table, worker: WorkerId, now: int, leaseMs: int)
    requires t.Valid()
    ensures var (t', pick) := RpcClaim(t, worker, now, leaseMs); RpcEffect(t, worker, now, leaseMs, t', pick)
  {
    var swept := Table(FailDead(t.jobs, t.order, now), t.order);
    var eligible := SelectInOrder(swept, EligibleAt(now));
    if eligible != [] {
      assert eligible[0] in eligible;
      assert swept.jobs[eligible[0]] == t.jobs[eligible[0]];
    }
  }

  lemma RpcClaimCorrect(t: Table, worker: WorkerId, now: int, leaseMs: int)
    requires t.Valid()
    ensures var (t', pick) := RpcClaim(t, worker, now, leaseMs);
            && t'.Valid()
            && IsFirstEligible(t, now, pick)
            && RpcEffect(t, worker, now, leaseMs, t', pick)
  {
    RpcPickIsFirst(t, worker, now, leaseMs);
    RpcWrites(t, worker, now, leaseMs);
  }

  lemma PrecedesIsTotal(t: Table, a: JobId, b: JobId)
    requires t.Valid() && a in t.jobs && b in t.jobs && a != b
    ensures Precedes(t, a, b) <==> !Precedes(t, b, a)
  {
    assert Position(t.order, a) != Position(t.order, b);
  }

  lemma FirstIsUnique(t: Table, now: int, p: Option<JobId>, q: Option<JobId>)
    requires t.Valid() && IsFirstEligible(t, now, p) && IsFirstEligible(t, now, q)
    ensures p == q
  {
    if p.Some? && q.Some? && p != q { PrecedesIsTotal(t, p.value, q.value); }
  }

  ghost predicate DifferOnlyPastPick(t: Table, now: int, pick: Option<JobId>, scan: Table, rpc: Table)
    requires t.Valid() && (pick.Some? ==> pick.value in t.jobs)
  {
    && rpc.order == scan.order && rpc.jobs.Keys == scan.jobs.Keys == t.jobs.Keys
    && forall x <- t.jobs ::
         if pick.Some? && pick.value != x && Dead(t.jobs[x], now) && Precedes(t, pick.value, x)
         then rpc.jobs[x] == Exhausted(t.jobs[x], now) && scan.jobs[x] == t.jobs[x]
         else rpc.jobs[x] == scan.jobs[x]
  }

  lemma EffectsAgree(t: Table, worker: WorkerId, now: int, leaseMs: int, pick: Option<JobId>, scan: Table, rpc: Table)
    requires t.Valid() && (pick.Some? ==> pick.value in t.jobs)
    requires ScanEffect(t, worker, now, leaseMs, scan, pick) && RpcEffect(t, worker, now, leaseMs, rpc, pick)
    ensures DifferOnlyPastPick(t, now, pick, scan, rpc)
  {
    forall x <- t.jobs | pick.Some? && pick.value != x ensures Precedes(t, pick.value, x) <==> !Precedes(t, x, pick.value) {
      PrecedesIsTotal(t, pick.value, x);
    }
  }

  /**
   * Both claims pick the same row. Their states differ only in dead rows ordered after the pick,
   * which the database function has already failed and the scan has not reached.
   */
  lemma ClaimsAgree(t: Table, worker: WorkerId, now: int, leaseMs: int)
    requires t.Valid()
    ensures var (scan, pick) := Claim(t, worker, now, leaseMs);
            var (rpc, pick') := RpcClaim(t, worker, now, leaseMs);
            && pick' == pick
            && (pick.Some? ==> pick.value in t.jobs)
            && DifferOnlyPastPick(t, now, pick, scan, rpc)
  {
    ClaimCorrect(t, worker, now, leaseMs);
    RpcClaimCorrect(t, worker, now, leaseMs);
    var (scan, pick) := Claim(t, worker, now, leaseMs);
    var (rpc, pick') := RpcClaim(t, worker, now, leaseMs);
    FirstIsUnique(t, now, pick, pick');
    EffectsAgree(t, worker, now, leaseMs, pick, scan, rpc);
  }

  // ---- What a claim does, said in columns ----

  // A row that a claim may look at: queued, or running on a lease that is missing or over.
  ghost predicate Open(j: Job, now: int) {
    j.status == Queued || (j.status == Running && (j.leaseExpiresAt.Some? ==> j.leaseExpiresAt.value < now))
  }

  // Lower priority number, then earlier creation, then earlier insertion.
  ghost predicate Outranks(t: Table, a: JobId, b: JobId)
    requires a in t.jobs && b in t.jobs
  {
    || t.jobs[a].priority < t.jobs[b].priority
    || (t.jobs[a].priority == t.jobs[b].priority && t.jobs[a].createdAt < t.jobs[b].createdAt)
    || (t.jobs[a].priority == t.jobs[b].priority && t.jobs[a].createdAt == t.jobs[b].createdAt
        && exists i, k :: 0 <= i < k < |t.order| && t.order[i] == a && t.order[k] == b)
  }

  // Nothing is picked iff no open row has an attempt left, and what is picked outranks every other such row.
  ghost predicate PicksTheFirst(t: Table, now: int, pick: Option<JobId>) {
    && (pick == None ==> forall x <- t.jobs :: Open(t.jobs[x], now) ==> t.jobs[x].attempts >= t.jobs[x].maxAttempts)
    && (pick.Some? ==>
          && pick.value in t.jobs && Open(t.jobs[pick.value], now) && t.jobs[pick.value].attempts < t.jobs[pick.value].maxAttempts
          && forall x <- t.jobs ::
               x != pick.value && Open(t.jobs[x], now) && t.jobs[x].attempts < t.jobs[x].maxAttempts ==> Outranks(t, pick.value, x))
  }

  ghost predicate IsLeased(before: Job, after: Job, worker: WorkerId, now: int, leaseMs: int) {
    && after.status == Running && after.leaseOwner == Some(worker) && after.leaseExpiresAt == Some(now + leaseMs)
    && after.attempts == before.attempts + 1 && after.updatedAt == now
    && after.startedAt == (if before.startedAt.Some? then before.startedAt else Some(now))
    && after.jobType == before.jobType && after.patchSetId == before.patchSetId && after.payloadValid == before.payloadValid
    && after.priority == before.priority && after.maxAttempts == before.maxAttempts && after.createdAt == before.createdAt
    && after.result == before.result && after.error == before.error && after.finishedAt == before.finishedAt
  }

  ghost predicate IsSpent(before: Job, after: Job, now: int) {
    && after.status == Failed && after.error == Some(MaxAttemptsExceeded)
    && after.finishedAt == Some(now) && after.updatedAt == now
    && after == before.(status := after.status, error := after.error, finishedAt := after.finishedAt, updatedAt := after.updatedAt)
  }

  // The whole effect: the pick is leased; an open row without attempts is failed, by the scan (`all` is false) only
  // where it outranks the pick; every other row stays.
  ghost predicate ClaimsInColumns(t: Table, worker: WorkerId, now: int, leaseMs: int, t': Table, pick: Option<JobId>, all: bool) {
    && t'.order == t.order && t'.jobs.Keys == t.jobs.Keys && PicksTheFirst(t, now, pick)
    && forall x <- t.jobs ::
         if pick == Some(x) then IsLeased(t.jobs[x], t'.jobs[x], worker, now, leaseMs)
         else if Open(t.jobs[x], now) && t.jobs[x].attempts >= t.jobs[x].maxAttempts && (all || pick == None || Outranks(t, x, pick.value))
         then IsSpent(t.jobs[x], t'.jobs[x], now)
         else t'.jobs[x] == t.jobs[x]
  }

  lemma PrecedesOutranks(t: Table, a: JobId, b: JobId)
    requires t.Valid() && a in t.jobs && b in t.jobs
    ensures Precedes(t, a, b) <==> Outranks(t, a, b)
  {
    var i, k := Position(t.order, a), Position(t.order, b);
    assert t.order[i] == a && t.order[k] == b;
  }

  lemma FirstInColumns(t: Table, now: int, pick: Option<JobId>)
    requires t.Valid() && IsFirstEligible(t, now, pick)
    ensures PicksTheFirst(t, now, pick)
  {
    if pick.Some? {
      forall x <- t.jobs | x != pick.value && Open(t.jobs[x], now) && t.jobs[x].attempts < t.jobs[x].maxAttempts
        ensures Outranks(t, pick.value, x)
      {
        assert Eligible(t.jobs[x], now);
        PrecedesOutranks(t, pick.value, x);
      }
    } else {
      assert forall x <- t.jobs :: !Eligible(t.jobs[x], now);
    }
  }

  lemma ScanInColumns(t: Table, worker: WorkerId, now: int, leaseMs: int, t': Table, pick: Option<JobId>)
    requires t.Valid() && IsFirstEligible(t, now, pick) && ScanEffect(t, worker, now, leaseMs, t', pick)
    ensures ClaimsInColumns(t, worker, now, leaseMs, t', pick, false)
  {
    FirstInColumns(t, now, pick);
    forall x <- t.jobs | pick.Some? ensures Precedes(t, x, pick.value) <==> Outranks(t, x, pick.value) {
      PrecedesOutranks(t, x, pick.value);
    }
  }

  lemma RpcInColumns(t: Table, worker: WorkerId, now: int, leaseMs: int, t': Table, pick: Option<JobId>)
    requires t.Valid() && IsFirstEligible(t, now, pick) && RpcEffect(t, worker, now, leaseMs, t', pick)
    ensures ClaimsInColumns(t, worker, now, leaseMs, t', pick, true)
  {
    FirstInColumns(t, now, pick);
  }

  // ---- The other row updates ----

  function NewJob(jobType: JobType, patchSetId: Option<PatchSetId>, payloadValid: bool,
                  priority: int, maxAttempts: int, now: int): Job
  {
    Job(jobType, patchSetId, payloadValid, Queued, priority, None, None, None, None, 0, maxAttempts, now, None, None, now)
  }

  predicate OwnsLease(t: Table, id: JobId, worker: WorkerId) {
    id in t.jobs && t.jobs[id].leaseOwner == Some(worker)
  }

  predicate CanRenew(t: Table, id: JobId, worker: WorkerId) {
    OwnsLease(t, id, worker) && t.jobs[id].status == Running
  }

  function Renew(t: Table, id: JobId, worker: WorkerId, now: int, leaseMs: int): Table {
    if CanRenew(t, id, worker) then
      t.(jobs := t.jobs[id := t.jobs[id].(leaseExpiresAt := Some(now + leaseMs), updatedAt := now)])
    else t
  }

  function Cancel(t: Table, id: JobId, now: int): Table {
    if id in t.jobs && !t.jobs[id].status.Terminal() then
      t.(jobs := t.jobs[id := t.jobs[id].(status := Cancelled, finishedAt := Some(now), updatedAt := now)])
    else t
  }

  // `None` leaves a column alone; the worker always passes the owner and expiry as null.
  datatype StatusPatch = StatusPatch(
    status: Option<JobStatus>,
    result: Option<Option<JobResult>>,
    error: Option<Option<JobError>>,
    leaseOwner: Option<Option<WorkerId>>,
    leaseExpiresAt: Option<Option<int>>,
    finishedAt: Option<Option<int>>)

  function OrElse<T>(change: Option<T>, current: T): T {
    if change.Some? then change.value else current
  }

  function Patched(j: Job, p: StatusPatch, now: int): Job {
    j.(status := OrElse(p.status, j.status), result := OrElse(p.result, j.result), error := OrElse(p.error, j.error),
       leaseOwner := OrElse(p.leaseOwner, j.leaseOwner), leaseExpiresAt := OrElse(p.leaseExpiresAt, j.leaseExpiresAt),
       finishedAt := OrElse(p.finishedAt, j.finishedAt), updatedAt := now)
  }

  function FinalPatch(status: JobStatus, result: JobResult, now: int): StatusPatch {
    StatusPatch(Some(status), Some(Some(result)), None, Some(None), Some(None), Some(Some(now)))
  }

  function RejectionPatch(now: int): StatusPatch {
    StatusPatch(Some(Failed), None, Some(Some(InvalidPayload)), Some(None), Some(None), Some(Some(now)))
  }

  // Final write of a run: only while the lease owner is still this worker.
  function Finalise(t: Table, id: JobId, worker: WorkerId, status: JobStatus, result: JobResult, now: int): Table {
    if OwnsLease(t, id, worker) then t.(jobs := t.jobs[id := Patched(t.jobs[id], FinalPatch(status, result, now), now)]) else t
  }

  class InMemoryJobQueue {
    var jobs: map<JobId, Job>
    var order: seq<JobId>

    function Rows(): Table
      reads this
    {
      Table(jobs, order)
    }

    ghost predicate Valid()
      reads this
    {
      Rows().Valid()
    }

    constructor ()
      ensures Valid() && Rows() == Table(map[], [])
    {
      jobs, order := map[], [];
    }

    method Enqueue(id: JobId, jobType: JobType, patchSetId: Option<PatchSetId>, payloadValid: bool, priority: int,
            maxAttempts: int, now: int)
      requires Valid() && id !in jobs
      modifies this
      ensures Valid()
      ensures jobs == old(jobs)[id := NewJob(jobType, patchSetId, payloadValid, priority, maxAttempts, now)]
      ensures order == old(order) + [id]
      ensures jobs[id].status == Queued && jobs[id].attempts == 0 && jobs[id].leaseOwner == None && jobs[id].leaseExpiresAt == None
      ensures jobs[id].result == None && jobs[id].error == None && jobs[id].startedAt == None && jobs[id].finishedAt == None
      ensures jobs[id].jobType == jobType && jobs[id].patchSetId == patchSetId && jobs[id].payloadValid == payloadValid
      ensures jobs[id].priority == priority && jobs[id].maxAttempts == maxAttempts && jobs[id].createdAt == now == jobs[id].updatedAt
    {
      jobs := jobs[id := NewJob(jobType, patchSetId, payloadValid, priority, maxAttempts, now)];
      order := order + [id];
    }

    method ClaimNext(worker: WorkerId, now: int, leaseMs: int) returns (pick: Option<JobId>)
      requires Valid()
      modifies this`jobs
      ensures Valid()
      ensures (Rows(), pick) == Claim(old(Rows()), worker, now, leaseMs)
      ensures IsFirstEligible(old(Rows()), now, pick)
      ensures ScanEffect(old(Rows()), worker, now, leaseMs, Rows(), pick)
      ensures ClaimsInColumns(old(Rows()), worker, now, leaseMs, Rows(), pick, false)
    {
      ghost var before := Rows();
      var candidates := SelectInOrder(Rows(), ClaimableAt(now));
      for i := 0 to |candidates|
        invariant order == old(order) && jobs.Keys == old(jobs).Keys
        invariant ClaimScan(jobs, candidates[i..], worker, now, leaseMs) == ClaimScan(old(jobs), candidates, worker, now, leaseMs)
      {
        var id := candidates[i];
        var job := jobs[id];
        assert candidates[i..][0] == id && candidates[i..][1..] == candidates[i + 1..];
        if job.attempts >= job.maxAttempts {
          jobs := jobs[id := Exhausted(job, now)];
          continue;
        }
        jobs := jobs[id := Leased(job, worker, now, leaseMs)];
        ClaimCorrect(before, worker, now, leaseMs);
        ScanInColumns(before, worker, now, leaseMs, Rows(), Some(id));
        return Some(id);
      }
      ClaimCorrect(before, worker, now, leaseMs);
      ScanInColumns(before, worker, now, leaseMs, Rows(), None);
      return None;
    }

    method RenewLease(id: JobId, worker: WorkerId, leaseSeconds: int, now: int) returns (renewed: bool)
      requires Valid()
      modifies this`jobs
      ensures Valid()
      ensures renewed <==> CanRenew(old(Rows()), id, worker)
      ensures Rows() == Renew(old(Rows()), id, worker, now, leaseSeconds * 1000)
      ensures renewed <==> id in old(jobs) && old(jobs)[id].status == Running && old(jobs)[id].leaseOwner == Some(worker)
      ensures jobs == if renewed then old(jobs)[id := old(jobs)[id].(leaseExpiresAt := Some(now + leaseSeconds * 1000), updatedAt := now)] else old(jobs)
    {
      if id !in jobs || jobs[id].status != Running || jobs[id].leaseOwner != Some(worker) {
        return false;
      }
      jobs := jobs[id := jobs[id].(leaseExpiresAt := Some(now + leaseSeconds * 1000), updatedAt := now)];
      return true;
    }

    method SetStatus(id: JobId, patch: StatusPatch, now: int) returns (found: bool)
      requires Valid()
      modifies this`jobs
      ensures Valid()
      ensures found <==> id in old(jobs)
      ensures jobs == if found then old(jobs)[id := Patched(old(jobs)[id], patch, now)] else old(jobs)
      ensures found ==>
                var before, after := old(jobs)[id], jobs[id];
                && after.status == (if patch.status.Some? then patch.status.value else before.status)
                && after.result == (if patch.result.Some? then patch.result.value else before.result)
                && after.error == (if patch.error.Some? then patch.error.value else before.error)
                && after.leaseOwner == (if patch.leaseOwner.Some? then patch.leaseOwner.value else before.leaseOwner)
                && after.leaseExpiresAt == (if patch.leaseExpiresAt.Some? then patch.leaseExpiresAt.value else before.leaseExpiresAt)
                && after.finishedAt == (if patch.finishedAt.Some? then patch.finishedAt.value else before.finishedAt)
                && after.updatedAt == now && after.attempts == before.attempts && after.startedAt == before.startedAt
                && after.priority == before.priority && after.maxAttempts == before.maxAttempts && after.createdAt == before.createdAt
                && after.jobType == before.jobType && after.patchSetId == before.patchSetId && after.payloadValid == before.payloadValid
    {
      if id !in jobs { return false; }
      jobs := jobs[id := Patched(jobs[id], patch, now)];
      return true;
    }

    method CancelJob(id: JobId, now: int) returns (cancelled: bool)
      requires Valid()
      modifies this`jobs
      ensures Valid() && Rows() == Cancel(old(Rows()), id, now)
      ensures cancelled <==> id in old(jobs) && (old(jobs)[id].status == Queued || old(jobs)[id].status == Running)
      ensures jobs == if cancelled then old(jobs)[id := old(jobs)[id].(status := Cancelled, finishedAt := Some(now), updatedAt := now)] else old(jobs)
    {
      if id !in jobs { return false; }
      if jobs[id].status != Queued && jobs[id].status != Running { return false; }
      jobs := jobs[id := jobs[id].(status := Cancelled, finishedAt := Some(now), updatedAt := now)];
      return true;
    }

    // First phase of the database function: one pass over the rows.
    method FailDeadRows(now: int)
      requires Valid()
      modifies this`jobs
      ensures Valid() && jobs == FailDead(old(jobs), order, now)
    {
      for i := 0 to |order|
        invariant jobs.Keys == old(jobs).Keys
        invariant FailDead(jobs, order[i..], now) == FailDead(old(jobs), order, now)
      {
        assert order[i..][0] == order[i] && order[i..][1..] == order[i + 1..];
        var job := jobs[order[i]];
        if Claimable(job, now) && job.attempts >= job.maxAttempts {
          jobs := jobs[order[i] := Exhausted(job, now)];
        }
      }
    }

    // The database function: fail dead rows, then lease the first of a sorted selection.
    method RpcClaimNext(worker: WorkerId, now: int, leaseMs: int) returns (pick: Option<JobId>)
      requires Valid()
      modifies this`jobs
      ensures Valid()
      ensures (Rows(), pick) == RpcClaim(old(Rows()), worker, now, leaseMs)
      ensures IsFirstEligible(old(Rows()), now, pick)
      ensures RpcEffect(old(Rows()), worker, now, leaseMs, Rows(), pick)
      ensures ClaimsInColumns(old(Rows()), worker, now, leaseMs, Rows(), pick, true)
    {
      RpcClaimCorrect(Rows(), worker, now, leaseMs);
      RpcInColumns(Rows(), worker, now, leaseMs, RpcClaim(Rows(), worker, now, leaseMs).0, RpcClaim(Rows(), worker, now, leaseMs).1);
      FailDeadRows(now);
      var eligible := SelectInOrder(Rows(), EligibleAt(now));
      if eligible == [] { return None; }
      jobs := jobs[eligible[0] := Leased(jobs[eligible[0]], worker, now, leaseMs)];
      return Some(eligible[0]);
    }
  }
}
