/** The bounded wait of the synchronous orchestrator for its test job. */
module TestJobWait {
  import opened Prelude
  import opened Orchestration

  // Reading number `i` sees `polls(i)` and then the clock at `clock(i)`; a sleep takes at least `pollMs`.
  ghost predicate Ticking(clock: nat -> int, pollMs: int) {
    forall i: nat, j: nat :: j == i + 1 ==> clock(j) >= clock(i) + pollMs
  }

  lemma StepUp(i: nat, pollMs: int)
    ensures (i + 1) * pollMs == i * pollMs + pollMs
  {
  }

  // Reading `last` is where the wait ends: the job has ended or the time is over, and neither was so before.
  ghost predicate EndsAt(polls: nat -> Option<JobEnd>, clock: nat -> int, timeoutMs: int, last: nat) {
    && (polls(last).Some? || clock(last) - clock(0) >= timeoutMs)
    && forall k: nat | k < last :: polls(k) == None && clock(k) - clock(0) < timeoutMs
  }

  /**
   * The wait returns the first reading that shows the job ended; it gives up only at a reading that does
   * not, once the time is over; and it makes no more readings than the timeout has poll intervals, plus one.
   */
  method WaitForTerminal(polls: nat -> Option<JobEnd>, clock: nat -> int, timeoutMs: int, pollMs: int)
    returns (end: Option<JobEnd>)
    requires pollMs >= 1 && Ticking(clock, pollMs)
    ensures exists last: nat :: EndsAt(polls, clock, timeoutMs, last) && end == polls(last) && (last > 0 ==> (last - 1) * pollMs < timeoutMs)
  {
    var start := clock(0);
    var i: nat := 0;
    while true
      invariant forall k: nat | k < i :: polls(k) == None && clock(k) - clock(0) < timeoutMs
      invariant i * pollMs <= clock(i) - clock(0)
      invariant i > 0 ==> (i - 1) * pollMs < timeoutMs
      decreases timeoutMs - i * pollMs
    {
      end := polls(i);
      if end.Some? || clock(i) - start >= timeoutMs {
        assert EndsAt(polls, clock, timeoutMs, i);
        return;
      }
      StepUp(i, pollMs);
      assert clock(i + 1) >= clock(i) + pollMs;
      i := i + 1;
    }
  }
}
