/**
 * The sorted-set store. One hit is a pipeline of five commands; the key also
 * disappears when its time to live runs out.
 */
module RedisRateLimit {
  import opened Prelude
  import R = RateLimit

  // Members are unique per request; the set is kept by score, then member.
  datatype Entry = Entry(score: int, member: nat)
  datatype SortedSet = SortedSet(entries: seq<Entry>, expiresAt: Option<int>)

  const MISSING := SortedSet([], None)

  function RemoveByScore(entries: seq<Entry>, lo: int, hi: int): seq<Entry> {
    if entries == [] then []
    else (if lo <= entries[0].score <= hi then [] else [entries[0]]) + RemoveByScore(entries[1..], lo, hi)
  }

  function RemoveMember(entries: seq<Entry>, member: nat): seq<Entry> {
    if entries == [] then []
    else (if entries[0].member == member then [] else [entries[0]]) + RemoveMember(entries[1..], member)
  }

  function Insert(entries: seq<Entry>, e: Entry): seq<Entry> {
    if entries == [] || e.score < entries[0].score || (e.score == entries[0].score && e.member < entries[0].member)
    then [e] + entries
    else [entries[0]] + Insert(entries[1..], e)
  }

  // ZADD moves a member that is already present.
  function Add(entries: seq<Entry>, e: Entry): seq<Entry> {
    Insert(RemoveMember(entries, e.member), e)
  }

  function Alive(z: SortedSet, now: int): SortedSet {
    if z.expiresAt.Some? && z.expiresAt.value <= now then MISSING else z
  }

  function Hit(z: SortedSet, windowMs: int, now: int, member: nat): SortedSet {
    SortedSet(Add(RemoveByScore(Alive(z, now).entries, 0, now - windowMs), Entry(now, member)), Some(now + windowMs))
  }

  class UpstashStore {
    var keys: map<string, SortedSet>

    function Of(key: string): SortedSet
      reads this
    {
      if key in keys then keys[key] else MISSING
    }

    constructor ()
      ensures keys == map[]
    {
      keys := map[];
    }

    method Record(key: string, windowMs: int, now: int, member: nat) returns (count: nat, oldest: int)
      modifies this
      ensures keys == old(keys)[key := Hit(old(Of(key)), windowMs, now, member)]
      ensures count == |Of(key).entries|
      ensures oldest == if Of(key).entries == [] then now else Of(key).entries[0].score
    {
      var stored := if key in keys then keys[key] else MISSING;
      if stored.expiresAt.Some? && stored.expiresAt.value <= now { stored := MISSING; }
      var entries := RemoveByScore(stored.entries, 0, now - windowMs);
      entries := Add(entries, Entry(now, member));
      count := |entries|;
      oldest := if |entries| >= 1 then entries[0].score else now;
      keys := keys[key := SortedSet(entries, Some(now + windowMs))];
    }
  }

  // ---- Refinement of the in-memory list ----

  function Scores(entries: seq<Entry>): (r: seq<int>)
    ensures |r| == |entries| && forall i | 0 <= i < |r| :: r[i] == entries[i].score
  {
    seq(|entries|, i requires 0 <= i < |entries| => entries[i].score)
  }

  function SetAfter(times: seq<int>, members: seq<nat>, windowMs: int, n: nat): SortedSet
    requires n <= |times| == |members|
  {
    if n == 0 then MISSING else Hit(SetAfter(times, members, windowMs, n - 1), windowMs, times[n - 1], members[n - 1])
  }

  lemma {:induction false} RemoveIsRetain(entries: seq<Entry>, hi: int)
    requires forall e <- entries :: e.score >= 0
    ensures Scores(RemoveByScore(entries, 0, hi)) == R.Retained(Scores(entries), hi)
    ensures forall e <- RemoveByScore(entries, 0, hi) :: e in entries
  {
    if entries != [] {
      RemoveIsRetain(entries[1..], hi);
      assert Scores(entries)[1..] == Scores(entries[1..]);
      assert Scores(entries)[0] == entries[0].score;
    }
  }

  lemma {:induction false} NothingToRemove(entries: seq<Entry>, member: nat)
    requires forall x <- entries :: x.member != member
    ensures RemoveMember(entries, member) == entries
  {
    if entries != [] { NothingToRemove(entries[1..], member); }
  }

  lemma {:induction false} InsertIsAppend(entries: seq<Entry>, e: Entry)
    requires R.NonDecreasing(Scores(entries)) && forall x <- entries :: x.score <= e.score
    ensures Scores(Insert(entries, e)) == Scores(entries) + [e.score]
    ensures forall x :: x in Insert(entries, e) <==> x == e || x in entries
  {
    var scores := Scores(entries);
    if entries != [] {
      assert scores[0] == entries[0].score <= e.score;
      if e.score == entries[0].score && e.member < entries[0].member {
        forall i | 0 <= i < |scores| ensures scores[i] == e.score {
          assert scores[0] <= scores[i] && entries[i] in entries;
        }
      } else {
        assert Scores(entries[1..]) == scores[1..];
        InsertIsAppend(entries[1..], e);
        assert Insert(entries, e)[1..] == Insert(entries[1..], e);
      }
    }
  }

  ghost predicate Refines(z: SortedSet, hits: seq<int>, windowMs: int, last: int, members: seq<nat>) {
    && Scores(z.entries) == hits
    && z.expiresAt == Some(last + windowMs)
    && (forall x <- z.entries :: 0 <= x.score <= last && x.member in members)
  }

  lemma FirstHit(windowMs: int, now: int, member: nat)
    requires now >= 0
    ensures Refines(Hit(MISSING, windowMs, now, member), R.Hit([], windowMs, now), windowMs, now, [member])
  {
  }

  lemma {:induction false} AllExpired(hits: seq<int>, cutoff: int)
    requires forall i | 0 <= i < |hits| :: hits[i] <= cutoff
    ensures R.Retained(hits, cutoff) == []
  {
    if hits != [] { AllExpired(hits[1..], cutoff); }
  }

  lemma NextHit(z: SortedSet, hits: seq<int>, windowMs: int, last: int, members: seq<nat>, now: int, member: nat)
    requires Refines(z, hits, windowMs, last, members) && R.NonDecreasing(R.Retained(hits, now - windowMs))
    requires 0 <= last <= now && member !in members
    ensures Refines(Hit(z, windowMs, now, member), R.Hit(hits, windowMs, now), windowMs, now, members + [member])
  {
    if last + windowMs <= now {
      forall i | 0 <= i < |hits| ensures hits[i] <= now - windowMs {
        assert z.entries[i] in z.entries;
      }
      AllExpired(hits, now - windowMs);
    } else {
      RemoveIsRetain(z.entries, now - windowMs);
      var kept := RemoveByScore(z.entries, 0, now - windowMs);
      NothingToRemove(kept, member);
      InsertIsAppend(kept, Entry(now, member));
    }
  }

  lemma KeptHitsInOrder(times: seq<int>, windowMs: int, n: nat)
    requires R.NonDecreasing(times) && 0 < n < |times|
    ensures R.NonDecreasing(R.Retained(R.HitsAfter(times, windowMs, n), times[n] - windowMs))
  {
    var before := R.HitsAreWindow(times, windowMs, n);
    var k := R.RetainedSlice(times, before, n, times[n] - windowMs);
  }

  lemma {:induction false} StoresAgree(times: seq<int>, members: seq<nat>, windowMs: int, n: nat)
    requires 0 < n <= |times| == |members|
    requires R.NonDecreasing(times) && times[0] >= 0 && Distinct(members)
    ensures Refines(SetAfter(times, members, windowMs, n), R.HitsAfter(times, windowMs, n), windowMs, times[n - 1], members[..n])
  {
    if n == 1 {
      assert SetAfter(times, members, windowMs, 0) == MISSING && R.HitsAfter(times, windowMs, 0) == [];
      FirstHit(windowMs, times[0], members[0]);
      assert members[..1] == [members[0]];
    } else {
      StoresAgree(times, members, windowMs, n - 1);
      KeptHitsInOrder(times, windowMs, n - 1);
      assert times[0] <= times[n - 2] <= times[n - 1];
      assert members[n - 1] !in members[..n - 1];
      var z, hits := SetAfter(times, members, windowMs, n - 1), R.HitsAfter(times, windowMs, n - 1);
      assert members[..n - 1] + [members[n - 1]] == members[..n];
      NextHit(z, hits, windowMs, times[n - 2], members[..n - 1], times[n - 1], members[n - 1]);
    }
  }

  /** Both stores answer every request of a non-decreasing, non-negative history alike, key expiry included. */
  lemma StoreRefinement(times: seq<int>, members: seq<nat>, windowMs: int, n: nat)
    requires 0 < n <= |times| == |members|
    requires R.NonDecreasing(times) && times[0] >= 0 && Distinct(members)
    ensures var z, hits := SetAfter(times, members, windowMs, n), R.HitsAfter(times, windowMs, n);
            |z.entries| == |hits| && z.entries[0].score == hits[0]
  {
    StoresAgree(times, members, windowMs, n);
    assert Scores(SetAfter(times, members, windowMs, n).entries)[0] == R.HitsAfter(times, windowMs, n)[0];
  }
}
