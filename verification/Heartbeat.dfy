/**
 * Lease renewal while a job runs. One `Beat` is what a single tick meets: the
 * reply of the renewal call, and whether the log lines it writes are accepted.
 */
module Heartbeat {
  import opened Prelude

  datatype Reason = ExternalCancel | LeaseLost | LeaseRenewalFailed

  // `Rejected` is a null renewal, classified by the status read that follows it.
  datatype Reply = Renewed | Rejected(cancelled: bool) | Threw

  // `tryLogOk`: the line logged inside the try block; `catchLogOk`: the one in its catch block.
  datatype Beat = Beat(reply: Reply, tryLogOk: bool, catchLogOk: bool)

  // `signals` lists the onAbort calls made so far.
  datatype Monitor = Monitor(
    renewals: nat, failures: nat, leaseRenewed: bool, reason: Option<Reason>,
    consecutive: nat, aborted: bool, signals: seq<Reason>)

  const IDLE := Monitor(0, 0, false, None, 0, false, [])

  function Fire(m: Monitor, reason: Reason): Monitor {
    if m.aborted then m else m.(aborted := true, reason := Some(reason), signals := m.signals + [reason])
  }

  // A rejected catch-block log line ends the tick before the threshold test.
  function CatchArm(threshold: int, m: Monitor, b: Beat): Monitor {
    var counted := m.(failures := m.failures + 1, consecutive := m.consecutive + 1);
    if b.catchLogOk && counted.consecutive >= threshold then Fire(counted, LeaseRenewalFailed) else counted
  }

  function Step(threshold: int, m: Monitor, b: Beat): Monitor {
    if m.aborted then m
    else
      match b.reply
      case Renewed =>
        var renewed := m.(renewals := m.renewals + 1, leaseRenewed := true, consecutive := 0);
        if b.tryLogOk then renewed else CatchArm(threshold, renewed, b)
      case Rejected(cancelled) =>
        if b.tryLogOk then Fire(m, if cancelled then ExternalCancel else LeaseLost) else CatchArm(threshold, m, b)
      case Threw => CatchArm(threshold, m, b)
  }

  function After(threshold: int, beats: seq<Beat>, n: nat): Monitor
    requires n <= |beats|
  {
    if n == 0 then IDLE else Step(threshold, After(threshold, beats, n - 1), beats[n - 1])
  }

  // ---- When the monitor aborts, said without its counters ----

  predicate Caught(b: Beat) {
    b.reply.Threw? || !b.tryLogOk
  }

  // Beats lo..hi all end in the catch block, and no renewal restarts the count after the first.
  ghost predicate FailedRow(beats: seq<Beat>, lo: int, hi: int)
    requires 0 <= lo <= hi <= |beats|
  {
    forall i :: lo <= i < hi ==> Caught(beats[i]) && (i > lo ==> !beats[i].reply.Renewed?)
  }

  ghost predicate Triggers(threshold: int, beats: seq<Beat>, i: nat)
    requires i < |beats|
  {
    var k := if threshold < 1 then 1 else threshold;
    || (beats[i].reply.Rejected? && beats[i].tryLogOk)
    || (beats[i].catchLogOk && k <= i + 1 && FailedRow(beats, i + 1 - k, i + 1))
  }

  lemma ExtendRow(beats: seq<Beat>, lo: int, n: int)
    requires 0 <= lo < n <= |beats|
    ensures FailedRow(beats, lo, n) <==>
            Caught(beats[n - 1]) && (lo < n - 1 ==> !beats[n - 1].reply.Renewed? && FailedRow(beats, lo, n - 1))
  {
  }

  lemma {:induction false} CounterIsLongestRow(threshold: int, beats: seq<Beat>, n: nat)
    requires n <= |beats| && !After(threshold, beats, n).aborted
    ensures After(threshold, beats, n).consecutive <= n
    ensures forall lo :: 0 <= lo <= n ==> (FailedRow(beats, lo, n) <==> n - lo <= After(threshold, beats, n).consecutive)
  {
    if n > 0 {
      CounterIsLongestRow(threshold, beats, n - 1);
      forall lo | 0 <= lo < n
        ensures FailedRow(beats, lo, n) <==> n - lo <= After(threshold, beats, n).consecutive
      {
        ExtendRow(beats, lo, n);
      }
    }
  }

  lemma TriggerIsThreshold(threshold: int, beats: seq<Beat>, n: nat)
    requires 0 < n <= |beats| && !After(threshold, beats, n - 1).aborted
    ensures After(threshold, beats, n).aborted <==> Triggers(threshold, beats, n - 1)
  {
    CounterIsLongestRow(threshold, beats, n - 1);
    var k := if threshold < 1 then 1 else threshold;
    if k <= n { ExtendRow(beats, n - k, n); }
  }

  /** The monitor has aborted iff some beat was a clean rejection or completed a logged row of failures. */
  lemma {:induction false} AbortsExactlyWhenTriggered(threshold: int, beats: seq<Beat>, n: nat)
    requires n <= |beats|
    ensures After(threshold, beats, n).aborted <==> exists i :: 0 <= i < n && Triggers(threshold, beats, i)
  {
    if n > 0 {
      AbortsExactlyWhenTriggered(threshold, beats, n - 1);
      if !After(threshold, beats, n - 1).aborted { TriggerIsThreshold(threshold, beats, n); }
    }
  }

  // Beat `i` is the first that triggers.
  ghost predicate FirstTrigger(threshold: int, beats: seq<Beat>, i: nat)
    requires i < |beats|
  {
    Triggers(threshold, beats, i) && forall k | 0 <= k < i :: !Triggers(threshold, beats, k)
  }

  /**
   * The reason of an abort is told by the first beat that triggers: an external cancel or a lost lease when the
   * renewal was rejected and that was logged, else that renewals kept failing.
   */
  lemma {:induction false} ReasonOfFirstTrigger(threshold: int, beats: seq<Beat>, n: nat, i: nat)
    requires i < n <= |beats| && FirstTrigger(threshold, beats, i)
    ensures After(threshold, beats, n).reason == Some(
              if beats[i].reply.Rejected? && beats[i].tryLogOk
              then if beats[i].reply.cancelled then ExternalCancel else LeaseLost
              else LeaseRenewalFailed)
  {
    if i < n - 1 {
      ReasonOfFirstTrigger(threshold, beats, n - 1, i);
      AbortsExactlyWhenTriggered(threshold, beats, n - 1);
    } else {
      AbortsExactlyWhenTriggered(threshold, beats, i);
      TriggerIsThreshold(threshold, beats, n);
    }
  }

  function Count(beats: seq<Beat>, n: nat, renewed: bool): nat
    requires n <= |beats|
  {
    if n == 0 then 0
    else Count(beats, n - 1, renewed) + if (if renewed then beats[n - 1].reply.Renewed? else Caught(beats[n - 1])) then 1 else 0
  }

  /** Up to the beat that aborts, the statistics count the renewals and the beats that ended in the catch block. */
  lemma {:induction false} StatisticsCount(threshold: int, beats: seq<Beat>, n: nat)
    requires n <= |beats| && (n > 0 ==> !After(threshold, beats, n - 1).aborted)
    ensures var m := After(threshold, beats, n);
            && m.renewals == Count(beats, n, true) && m.failures == Count(beats, n, false)
            && (m.leaseRenewed <==> m.renewals > 0)
  {
    if n > 1 { StillRunning(threshold, beats, n - 1); }
    if n > 0 { StatisticsCount(threshold, beats, n - 1); }
  }

  lemma StillRunning(threshold: int, beats: seq<Beat>, n: nat)
    requires 0 < n <= |beats| && !After(threshold, beats, n).aborted
    ensures !After(threshold, beats, n - 1).aborted
  {
  }

  lemma {:induction false} SignalsMatchReason(threshold: int, beats: seq<Beat>, n: nat)
    requires n <= |beats|
    ensures var m := After(threshold, beats, n);
            (m.aborted <==> m.reason.Some?) && m.signals == if m.aborted then [m.reason.value] else []
  {
    if n > 0 { SignalsMatchReason(threshold, beats, n - 1); }
  }

  lemma {:induction false} FrozenOnceAborted(threshold: int, beats: seq<Beat>, n: nat, later: nat)
    requires n <= later <= |beats| && After(threshold, beats, n).aborted
    ensures After(threshold, beats, later) == After(threshold, beats, n)
  {
    if later > n { FrozenOnceAborted(threshold, beats, n, later - 1); }
  }

  /** onAbort is called at most once, with the recorded reason, and nothing changes afterwards. */
  lemma SignalsOnce(threshold: int, beats: seq<Beat>, n: nat, later: nat)
    requires n <= later <= |beats|
    ensures var m := After(threshold, beats, n);
            && (m.aborted <==> m.reason.Some?)
            && m.signals == (if m.aborted then [m.reason.value] else [])
            && (m.aborted ==> After(threshold, beats, later) == m)
  {
    SignalsMatchReason(threshold, beats, n);
    if After(threshold, beats, n).aborted { FrozenOnceAborted(threshold, beats, n, later); }
  }

  /** With renewals failing and the log sink down as well, no number of beats aborts the job. */
  lemma {:induction false} SilentSinkNeverAborts(threshold: int, n: nat)
    ensures var beats := seq(n, _ => Beat(Threw, false, false));
            After(threshold, beats, n) == IDLE.(failures := n, consecutive := n)
  {
    var beats := seq(n, _ => Beat(Threw, false, false));
    for i := 0 to n
      invariant After(threshold, beats, i) == IDLE.(failures := i, consecutive := i)
    {
    }
  }

  class Heartbeat {
    const threshold: int
    var renewals: nat
    var failures: nat
    var leaseRenewed: bool
    var reason: Option<Reason>
    var consecutive: nat
    var aborted: bool
    var signals: seq<Reason>

    function State(): Monitor
      reads this
    {
      Monitor(renewals, failures, leaseRenewed, reason, consecutive, aborted, signals)
    }

    constructor (failClosedThreshold: Option<int>)
      ensures threshold == (if failClosedThreshold == None then 3 else failClosedThreshold.value)
      ensures State() == IDLE
    {
      threshold := if failClosedThreshold == None then 3 else failClosedThreshold.value;
      renewals, failures, leaseRenewed, reason, consecutive, aborted, signals := 0, 0, false, None, 0, false, [];
    }

    method FireAbort(why: Reason)
      modifies this
      ensures State() == Fire(old(State()), why)
    {
      if aborted { return; }
      aborted := true;
      reason := Some(why);
      signals := signals + [why];
    }

    method Tick(b: Beat)
      modifies this
      ensures State() == Step(threshold, old(State()), b)
      ensures old(aborted) ==> State() == old(State())
      ensures !old(aborted) && b.reply.Renewed? && b.tryLogOk ==>
                State() == old(State()).(renewals := old(renewals) + 1, leaseRenewed := true, consecutive := 0)
      ensures !old(aborted) && b.reply.Rejected? && b.tryLogOk ==>
                && aborted && reason == Some(if b.reply.cancelled then ExternalCancel else LeaseLost) && signals == old(signals) + [reason.value]
                && renewals == old(renewals) && failures == old(failures) && consecutive == old(consecutive)
      ensures !old(aborted) && (b.reply.Threw? || !b.tryLogOk) ==>
                && failures == old(failures) + 1 && consecutive == (if b.reply.Renewed? then 1 else old(consecutive) + 1)
                && renewals == old(renewals) + (if b.reply.Renewed? then 1 else 0) && leaseRenewed == (old(leaseRenewed) || b.reply.Renewed?)
                && (aborted <==> b.catchLogOk && consecutive >= threshold)
                && (aborted ==> reason == Some(LeaseRenewalFailed) && signals == old(signals) + [LeaseRenewalFailed])
                && (!aborted ==> reason == old(reason) && signals == old(signals))
    {
      if aborted { return; }
      if b.reply.Renewed? {
        renewals := renewals + 1;
        leaseRenewed := true;
        consecutive := 0;
        if b.tryLogOk { return; }
      } else if b.reply.Rejected? && b.tryLogOk {
        FireAbort(if b.reply.cancelled then ExternalCancel else LeaseLost);
        return;
      }
      failures := failures + 1;
      consecutive := consecutive + 1;
      if !b.catchLogOk { return; }
      if consecutive >= threshold {
        FireAbort(LeaseRenewalFailed);
      }
    }

    // A whole run of ticks, as the interval timer delivers them.
    method Beats(beats: seq<Beat>)
      requires State() == IDLE
      modifies this
      ensures State() == After(threshold, beats, |beats|)
      ensures aborted <==> exists i :: 0 <= i < |beats| && Triggers(threshold, beats, i)
    {
      for i := 0 to |beats|
        invariant State() == After(threshold, beats, i)
      {
        Tick(beats[i]);
      }
      AbortsExactlyWhenTriggered(threshold, beats, |beats|);
    }
  }
}
