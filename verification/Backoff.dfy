/** The reconnect loop of the agent, with the outcome of every iteration as a parameter. */
module Backoff {
  import opened Prelude

  const RECONNECT_MIN := 1
  const RECONNECT_MAX := 60

  datatype Outcome = CleanEnd | SessionError | ConnectFailed

  /** When the shutdown signal arrives: seen at the top of an iteration, or during its sleep. */
  datatype Iteration = Run(outcome: Outcome, shutdownInSleep: bool) | ShutdownSeen

  /** Iterations since the start or since the last clean session, whose own iteration has 0. */
  function Failures(its: seq<Iteration>, i: nat): nat
    requires i < |its|
  {
    if i == 0 || (its[i].Run? && its[i].outcome.CleanEnd?) then 0 else Failures(its, i - 1) + 1
  }

  function Pow2(k: nat): (p: nat)
    ensures p >= 1
  {
    if k == 0 then 1 else 2 * Pow2(k - 1)
  }

  function Delay(its: seq<Iteration>, i: nat): int
    requires i < |its|
  {
    Min(Pow2(Failures(its, i)), RECONNECT_MAX)
  }

  /** How many iterations reach their sleep. */
  function Slept(its: seq<Iteration>): (n: nat)
    ensures n <= |its|
  {
    if its == [] || its[0].ShutdownSeen? then 0
    else if its[0].shutdownInSleep then 1
    else 1 + Slept(its[1..])
  }

  /** One after a clean session and at the start, else twice the sleep before, up to the maximum. */
  predicate SleepAt(its: seq<Iteration>, sleeps: seq<int>, i: nat)
    requires i < |sleeps| && i < |its|
  {
    sleeps[i] == if i == 0 || (its[i].Run? && its[i].outcome.CleanEnd?) then 1
                 else if 2 * sleeps[i - 1] < 60 then 2 * sleeps[i - 1] else 60
  }

  /** `n` iterations reach their sleep: the loop ends at the top of the next one, or during the last sleep. */
  predicate StopsAfter(its: seq<Iteration>, n: nat) {
    && n <= |its|
    && (forall i | 0 <= i < n :: its[i].Run? && (its[i].shutdownInSleep ==> i + 1 == n))
    && (n < |its| ==> its[n].ShutdownSeen? || (n > 0 && its[n - 1].shutdownInSleep))
  }

  lemma {:induction false} StopsAtSlept(its: seq<Iteration>, n: nat)
    requires StopsAfter(its, n)
    ensures n == Slept(its)
    decreases |its|
  {
    if its != [] && its[0].Run? && !its[0].shutdownInSleep {
      assert n > 0;
      forall i | 0 <= i < n - 1 ensures its[1..][i].Run? && (its[1..][i].shutdownInSleep ==> i + 1 == n - 1) {
        assert its[1..][i] == its[i + 1];
      }
      StopsAtSlept(its[1..], n - 1);
    }
  }

  lemma {:induction false} ClosedForm(its: seq<Iteration>, sleeps: seq<int>, i: nat)
    requires i < |sleeps| <= |its| && forall j | 0 <= j < |sleeps| :: SleepAt(its, sleeps, j)
    ensures sleeps[i] == Delay(its, i) && 1 <= sleeps[i] <= 60
  {
    assert SleepAt(its, sleeps, i);
    if i > 0 {
      ClosedForm(its, sleeps, i - 1);
    }
  }

  method RunWithReconnect(its: seq<Iteration>) returns (sleeps: seq<int>)
    ensures StopsAfter(its, |sleeps|) && |sleeps| == Slept(its)
    ensures forall i | 0 <= i < |sleeps| :: SleepAt(its, sleeps, i)
    ensures forall i | 0 <= i < |sleeps| :: sleeps[i] == Delay(its, i) && 1 <= sleeps[i] <= 60
  {
    sleeps := [];
    var backoff := RECONNECT_MIN;
    var i := 0;
    while i < |its|
      invariant i == |sleeps| <= |its|
      invariant forall j | 0 <= j < i :: its[j].Run? && !its[j].shutdownInSleep && SleepAt(its, sleeps, j)
      invariant backoff == if i == 0 then 1 else Min(2 * sleeps[i - 1], 60)
    {
      if its[i].ShutdownSeen? {
        break;
      }
      if its[i].outcome.CleanEnd? {
        backoff := RECONNECT_MIN;
      }
      sleeps := sleeps + [backoff];
      if its[i].shutdownInSleep {
        break;
      }
      backoff := Min(backoff * 2, RECONNECT_MAX);
      i := i + 1;
    }
    StopsAtSlept(its, |sleeps|);
    forall j | 0 <= j < |sleeps| ensures sleeps[j] == Delay(its, j) && 1 <= sleeps[j] <= 60 {
      ClosedForm(its, sleeps, j);
    }
  }

  /** The delay never shrinks while failures continue, and from the sixth on it is the maximum. */
  lemma {:induction false} DelayGrowsToMax(its: seq<Iteration>, i: nat)
    requires 0 < i < |its| && !(its[i].Run? && its[i].outcome.CleanEnd?)
    ensures Delay(its, i) == if 2 * Delay(its, i - 1) < 60 then 2 * Delay(its, i - 1) else 60
    ensures Delay(its, i) == 60 <==> Failures(its, i) >= 6
  {
    PowBeyond(Failures(its, i));
  }

  lemma {:induction false} PowBeyond(k: nat)
    ensures Pow2(k) >= 60 <==> k >= 6
  {
    if k > 6 {
      PowBeyond(k - 1);
    } else if k > 0 {
      assert Pow2(1) == 2 && Pow2(2) == 4 && Pow2(3) == 8 && Pow2(4) == 16 && Pow2(5) == 32 && Pow2(6) == 64;
    }
  }
}
