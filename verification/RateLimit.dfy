/** Sliding-window rate limiting: the in-memory list, the sorted set, and the bound both enforce. */
module RateLimit {
  import opened Prelude

  function Retained(hits: seq<int>, cutoff: int): seq<int> {
    if hits == [] then []
    else (if hits[0] > cutoff then [hits[0]] else []) + Retained(hits[1..], cutoff)
  }

  function Hit(hits: seq<int>, windowMs: int, now: int): (r: seq<int>)
    ensures r != []
  {
    Retained(hits, now - windowMs) + [now]
  }

  // The stored hits of one key after its first `n` requests.
  function HitsAfter(times: seq<int>, windowMs: int, n: nat): seq<int>
    requires n <= |times|
  {
    if n == 0 then [] else Hit(HitsAfter(times, windowMs, n - 1), windowMs, times[n - 1])
  }

  function CeilDiv(a: int, b: int): int
    requires b > 0
  {
    -((-a) / b)
  }

  function RetryAfter(oldest: int, windowMs: int, now: int): int {
    var s := CeilDiv(oldest + windowMs - now, 1000);
    if s < 1 then 1 else s
  }

  datatype Verdict = Verdict(ok: bool, remaining: int, retryAfter: int)

  function Judge(count: int, oldest: int, limit: int, windowMs: int, now: int): Verdict {
    if count > limit then Verdict(false, 0, RetryAfter(oldest, windowMs, now))
    else Verdict(true, if limit - count < 0 then 0 else limit - count, 0)
  }

  // What the limiter answers to request `i` of a key, and whether that lets it through.
  function VerdictAt(times: seq<int>, windowMs: int, limit: int, i: nat): Verdict
    requires i < |times|
  {
    var hits := HitsAfter(times, windowMs, i + 1);
    Judge(|hits|, hits[0], limit, windowMs, times[i])
  }

  predicate Accepted(times: seq<int>, windowMs: int, limit: int, i: nat)
    requires i < |times|
  {
    VerdictAt(times, windowMs, limit, i).ok
  }

  // ---- What the list holds ----

  ghost predicate NonDecreasing(times: seq<int>) {
    forall i, j :: 0 <= i <= j < |times| ==> times[i] <= times[j]
  }

  // The requests that request `i` counts: itself, and those before it that are still in the window.
  ghost function Window(times: seq<int>, windowMs: int, i: nat): set<nat>
    requires i < |times|
  {
    set j: nat | j <= i && (j == i || times[j] > times[i] - windowMs)
  }

  // The answer in terms of the history: room for this one, the room left, and how long until the oldest counted one is out.
  ghost predicate Rightly(times: seq<int>, windowMs: int, limit: int, i: nat, v: Verdict)
    requires i < |times|
  {
    var count := |Window(times, windowMs, i)|;
    && (v.ok <==> limit >= 1 && (i < limit || times[i - limit] <= times[i] - windowMs))
    && (v.ok <==> count <= limit)
    && v.remaining == (if count <= limit then limit - count else 0)
    && (v.ok ==> v.retryAfter == 0)
    && (!v.ok ==> LeavesAfter(times, windowMs, i, v.retryAfter))
  }

  // The least positive number of seconds after which the oldest counted request has left the window.
  ghost predicate LeavesAfter(times: seq<int>, windowMs: int, i: nat, seconds: int)
    requires i < |times|
  {
    exists k :: k in Window(times, windowMs, i) && (forall j <- Window(times, windowMs, i) :: times[k] <= times[j])
      && seconds >= 1 && times[k] <= times[i] + 1000 * seconds - windowMs
      && forall s :: 1 <= s < seconds ==> times[k] > times[i] + 1000 * s - windowMs
  }

  // First of the first `n` requests that request n - 1 still counts.
  ghost predicate CountsFrom(times: seq<int>, windowMs: int, n: nat, k: nat)
    requires n <= |times|
  {
    && 0 < n && k < n
    && (forall i | 0 <= i < k :: times[i] <= times[n - 1] - windowMs)
    && (forall i | k <= i < n - 1 :: times[i] > times[n - 1] - windowMs)
  }

  lemma {:induction false} RetainedSlice(times: seq<int>, lo: nat, hi: nat, cutoff: int) returns (k: nat)
    requires NonDecreasing(times) && lo <= hi <= |times|
    ensures lo <= k <= hi && Retained(times[lo..hi], cutoff) == times[k..hi]
    ensures (forall i | lo <= i < k :: times[i] <= cutoff) && (forall i | k <= i < hi :: times[i] > cutoff)
    decreases hi - lo
  {
    k := lo;
    if lo < hi {
      assert times[lo..hi][1..] == times[lo + 1..hi];
      var rest := RetainedSlice(times, lo + 1, hi, cutoff);
      if times[lo] <= cutoff {
        k := rest;
      } else {
        assert lo + 1 < hi ==> times[lo] <= times[lo + 1];
        assert [times[lo]] + times[lo + 1..hi] == times[lo..hi];
      }
    }
  }

  /** The list is the run of requests that the last one still counts. */
  lemma {:induction false} HitsAreWindow(times: seq<int>, windowMs: int, n: nat) returns (k: nat)
    requires NonDecreasing(times) && 0 < n <= |times|
    ensures CountsFrom(times, windowMs, n, k) && HitsAfter(times, windowMs, n) == times[k..n]
  {
    var cutoff, before := times[n - 1] - windowMs, 0;
    if n > 1 {
      before := HitsAreWindow(times, windowMs, n - 1);
    } else {
      assert times[0..0] == HitsAfter(times, windowMs, 0);
    }
    k := RetainedSlice(times, before, n - 1, cutoff);
    assert times[k..n - 1] + [times[n - 1]] == times[k..n];
    forall i | 0 <= i < before ensures times[i] <= cutoff {
      assert times[n - 2] <= times[n - 1];
    }
  }

  lemma {:induction false} RangeSize(lo: nat, hi: nat, s: set<nat>)
    requires lo <= hi && forall j: nat :: j in s <==> lo <= j < hi
    ensures |s| == hi - lo
  {
    if lo < hi {
      assert hi - 1 in s;
      RangeSize(lo, hi - 1, s - {hi - 1});
    } else {
      assert s == {};
    }
  }

  lemma WindowIsHits(times: seq<int>, windowMs: int, i: nat) returns (k: nat)
    requires NonDecreasing(times) && i < |times|
    ensures k <= i && HitsAfter(times, windowMs, i + 1) == times[k..i + 1]
    ensures forall j: nat :: j in Window(times, windowMs, i) <==> k <= j < i + 1
    ensures |Window(times, windowMs, i)| == i + 1 - k
  {
    k := HitsAreWindow(times, windowMs, i + 1);
    RangeSize(k, i + 1, Window(times, windowMs, i));
  }

  lemma RoundedUp(oldest: int, windowMs: int, now: int)
    ensures var r := RetryAfter(oldest, windowMs, now);
            && r >= 1 && oldest <= now + 1000 * r - windowMs
            && forall s :: 1 <= s < r ==> oldest > now + 1000 * s - windowMs
  {
    var left := oldest + windowMs - now;
    assert 1000 * (CeilDiv(left, 1000) - 1) < left <= 1000 * CeilDiv(left, 1000);
  }

  /** The answer to every request of every non-decreasing history is the right one. */
  lemma VerdictIsRight(times: seq<int>, windowMs: int, limit: int, i: nat)
    requires NonDecreasing(times) && i < |times|
    ensures Rightly(times, windowMs, limit, i, VerdictAt(times, windowMs, limit, i))
  {
    var k := WindowIsHits(times, windowMs, i);
    var v := VerdictAt(times, windowMs, limit, i);
    RoundedUp(times[k], windowMs, times[i]);
    if !v.ok {
      assert k in Window(times, windowMs, i) && forall j <- Window(times, windowMs, i) :: times[k] <= times[j];
      assert LeavesAfter(times, windowMs, i, v.retryAfter);
    }
    if limit >= 1 { AcceptedIff(times, windowMs, limit, i); }
  }

  /** A request is accepted iff the one `limit` places before it, if there is one, has left its window. */
  lemma AcceptedIff(times: seq<int>, windowMs: int, limit: int, i: nat)
    requires NonDecreasing(times) && i < |times| && limit >= 1
    ensures Accepted(times, windowMs, limit, i) <==> i < limit || times[i - limit] <= times[i] - windowMs
  {
    var k := HitsAreWindow(times, windowMs, i + 1);
  }

  // ---- The global bound ----

  lemma {:induction false} RangeBound(s: set<nat>, lo: nat, hi: nat)
    requires lo <= hi && forall i <- s :: lo <= i < hi
    ensures |s| <= hi - lo
  {
    if s != {} {
      if hi - 1 in s {
        RangeBound(s - {hi - 1}, lo, hi - 1);
      } else {
        assert lo < hi by { var i :| i in s; }
        RangeBound(s, lo, hi - 1);
      }
    }
  }

  /** Accepted requests that all lie less than one window apart number at most `limit`. */
  lemma AcceptedWithinWindow(times: seq<int>, windowMs: int, limit: nat, s: set<nat>)
    requires NonDecreasing(times)
    requires forall i <- s :: i < |times| && Accepted(times, windowMs, limit, i)
    requires forall i, j | i in s && j in s :: times[j] - times[i] < windowMs
    ensures |s| <= limit
  {
    if s != {} {
      var m := LargestOf(s);
      var k := HitsAreWindow(times, windowMs, m + 1);
      RangeBound(s, k, m + 1);
    }
  }

  lemma {:induction false} LargestOf(s: set<nat>) returns (m: nat)
    requires s != {}
    ensures m in s && forall i <- s :: i <= m
  {
    m :| m in s;
    if s != {m} {
      var rest := LargestOf(s - {m});
      assert forall i <- s :: i == m || i in s - {m};
      if rest > m { m := rest; }
    }
  }

  /** Every half-open interval of one window, closed on either side, holds at most `limit` accepted requests. */
  lemma GlobalWindowBound(times: seq<int>, windowMs: int, limit: nat, a: int)
    requires NonDecreasing(times)
    ensures |set i: nat | i < |times| && a <= times[i] < a + windowMs && Accepted(times, windowMs, limit, i)| <= limit
    ensures |set i: nat | i < |times| && a < times[i] <= a + windowMs && Accepted(times, windowMs, limit, i)| <= limit
  {
    AcceptedWithinWindow(times, windowMs, limit,
                         set i: nat | i < |times| && a <= times[i] < a + windowMs && Accepted(times, windowMs, limit, i));
    AcceptedWithinWindow(times, windowMs, limit,
                         set i: nat | i < |times| && a < times[i] <= a + windowMs && Accepted(times, windowMs, limit, i));
  }

  // ---- Retry-After ----

  /** retryAfter is the least whole number of seconds after which the oldest counted hit is outside the window. */
  lemma RetryAfterIsLeast(times: seq<int>, windowMs: int, n: nat)
    requires NonDecreasing(times) && 0 < n <= |times| && windowMs > 0
    ensures var now, oldest := times[n - 1], HitsAfter(times, windowMs, n)[0];
            var r := RetryAfter(oldest, windowMs, now);
            && oldest <= now + 1000 * r - windowMs
            && forall seconds :: 0 <= seconds < r ==> oldest > now + 1000 * seconds - windowMs
  {
    var k := HitsAreWindow(times, windowMs, n);
    var now, oldest := times[n - 1], times[k];
    var r := RetryAfter(oldest, windowMs, now);
    assert oldest + windowMs - now > 0;
    assert 1000 * (r - 1) < oldest + windowMs - now <= 1000 * r;
    forall seconds | 0 <= seconds < r ensures oldest > now + 1000 * seconds - windowMs {
      assert seconds <= r - 1;
    }
  }

  /** After a window of silence only the new request counts, so it passes iff the limit admits any at all. */
  lemma SilenceFreesTheWindow(times: seq<int>, windowMs: int, limit: int, n: nat)
    requires NonDecreasing(times) && 0 < n < |times| && times[n] >= times[n - 1] + windowMs
    ensures HitsAfter(times, windowMs, n + 1) == [times[n]]
    ensures Accepted(times, windowMs, limit, n) <==> limit >= 1
  {
    var k := HitsAreWindow(times, windowMs, n + 1);
    assert times[n] - windowMs >= times[n - 1];
    assert times[n..n + 1] == [times[n]];
  }

  // Request `m` is made exactly the advised time after the rejection of request `n`.
  ghost predicate WaitedOut(times: seq<int>, windowMs: int, limit: int, n: nat, m: nat) {
    && n < m < |times| && NonDecreasing(times) && !Accepted(times, windowMs, limit, n)
    && times[m] == times[n] + 1000 * RetryAfter(HitsAfter(times, windowMs, n + 1)[0], windowMs, times[n])
  }

  /** A request made after the advised time is accepted iff the request `limit` places before it has left the window by then. */
  lemma RetryIsAcceptedIff(times: seq<int>, windowMs: int, limit: int, n: nat, m: nat)
    requires limit >= 1 && WaitedOut(times, windowMs, limit, n, m)
    ensures var r := RetryAfter(HitsAfter(times, windowMs, n + 1)[0], windowMs, times[n]);
            limit <= m && (Accepted(times, windowMs, limit, m) <==> times[m - limit] <= times[n] + 1000 * r - windowMs)
  {
    AcceptedIff(times, windowMs, limit, n);
    AcceptedIff(times, windowMs, limit, m);
  }

  // The next request after a rejection is accepted if it waits out the advised time.
  ghost predicate RetryPromises(windowMs: int, limit: int) {
    forall times, n: nat, m: nat :: m == n + 1 && WaitedOut(times, windowMs, limit, n, m) ==> Accepted(times, windowMs, limit, m)
  }

  // One early request, `limit` more just before it leaves the window, and one after the advised second.
  function Crowded(windowMs: int, limit: nat): (times: seq<int>)
    ensures |times| == limit + 2 && times[0] == 0 && times[limit + 1] == windowMs + 999
    ensures forall i :: 1 <= i <= limit ==> times[i] == windowMs - 1
  {
    [0] + seq(limit, _ => windowMs - 1) + [windowMs + 999]
  }

  /** Waiting out retryAfter need not help, whatever the limit: the rejected requests themselves still count. */
  lemma RejectedHitsCount(windowMs: int, limit: nat)
    requires windowMs > 1000 && limit >= 1
    ensures WaitedOut(Crowded(windowMs, limit), windowMs, limit, limit, limit + 1)
    ensures !Accepted(Crowded(windowMs, limit), windowMs, limit, limit + 1)
  {
    var times := Crowded(windowMs, limit);
    AcceptedIff(times, windowMs, limit, limit);
    AcceptedIff(times, windowMs, limit, limit + 1);
    var k := HitsAreWindow(times, windowMs, limit + 1);
    assert k == 0;
    assert CeilDiv(1, 1000) == 1;
  }

  /** Waiting out retryAfter promises admission, for any limit, iff the window is no longer than a second. */
  lemma RetryPromisesIff(windowMs: int, limit: nat)
    requires limit >= 1
    ensures RetryPromises(windowMs, limit) <==> windowMs <= 1000
  {
    if windowMs > 1000 {
      RejectedHitsCount(windowMs, limit);
    } else {
      forall times, n: nat, m: nat | m == n + 1 && WaitedOut(times, windowMs, limit, n, m) ensures Accepted(times, windowMs, limit, m) {
        RetryIsAcceptedIff(times, windowMs, limit, n, m);
      }
    }
  }

  // The stored hits are those of all requests in `times` but the last, which is made now.
  ghost predicate Remembers(hits: seq<int>, windowMs: int, now: int, times: seq<int>) {
    times != [] && NonDecreasing(times) && times[|times| - 1] == now && hits == HitsAfter(times, windowMs, |times| - 1)
  }

  lemma RememberedVerdict(hits: seq<int>, windowMs: int, limit: int, now: int, times: seq<int>)
    requires Remembers(hits, windowMs, now, times)
    ensures var all := Hit(hits, windowMs, now);
            var v := Judge(|all|, all[0], limit, windowMs, now);
            && all == HitsAfter(times, windowMs, |times|)
            && v == VerdictAt(times, windowMs, limit, |times| - 1) && Rightly(times, windowMs, limit, |times| - 1, v)
  {
    VerdictIsRight(times, windowMs, limit, |times| - 1);
  }

  class InMemoryStore {
    var hits: map<string, seq<int>>

    function Of(key: string): seq<int>
      reads this
    {
      if key in hits then hits[key] else []
    }

    constructor ()
      ensures hits == map[]
    {
      hits := map[];
    }

    method Record(key: string, windowMs: int, now: int) returns (count: nat, oldest: int)
      modifies this
      ensures hits == old(hits)[key := Hit(old(Of(key)), windowMs, now)]
      ensures count == |Of(key)| && oldest == Of(key)[0]
    {
      var cutoff := now - windowMs;
      var existing := Retained(if key in hits then hits[key] else [], cutoff);
      existing := existing + [now];
      hits := hits[key := existing];
      count, oldest := |existing|, existing[0];
    }

    // `times` are the requests of the key so far and this one, as far as the list goes back to them.
    method Check(key: string, limit: int, windowMs: int, now: int, ghost times: seq<int>) returns (v: Verdict)
      modifies this
      ensures hits == old(hits)[key := Hit(old(Of(key)), windowMs, now)]
      ensures v == Judge(|Of(key)|, Of(key)[0], limit, windowMs, now)
      ensures Remembers(old(Of(key)), windowMs, now, times) ==>
                && Of(key) == HitsAfter(times, windowMs, |times|)
                && v == VerdictAt(times, windowMs, limit, |times| - 1)
                && Rightly(times, windowMs, limit, |times| - 1, v)
    {
      var count, oldest := Record(key, windowMs, now);
      v := Judge(count, oldest, limit, windowMs, now);
      if Remembers(old(Of(key)), windowMs, now, times) { RememberedVerdict(old(Of(key)), windowMs, limit, now, times); }
    }
  }
}
