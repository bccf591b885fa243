/** How often and how long the retry loops can go on, with the outcomes that get there. */
module RetryBounds {
  import opened Wrappers
  import opened RetryPolicy

  // ---- calls ----

  lemma {:induction false} CallsAreBounded(p: Policy, a: nat, o: nat, k: nat, oracle: nat -> Outcome)
    ensures 1 <= Loop(p, a, o, k, oracle).calls <= 1 + RetriesLeft(p, a, o)
    decreases RetriesLeft(p, a, o)
  {
    hide Decide;
    var outcome := oracle(k);
    if outcome.Fails? && Decide(p, outcome.failure, a, o).Some? {
      RetryIsPaidFor(p, outcome.failure, a, o);
      CallsAreBounded(p, NextAttempt(outcome.failure, a), NextOverload(outcome.failure, o), k + 1, oracle);
    }
  }

  /** Failed calls before call `k`, overloads not counted. */
  function OthersBefore(oracle: nat -> Outcome, k: nat): nat {
    if k == 0 then 0
    else OthersBefore(oracle, k - 1) + if oracle(k - 1).Fails? && !oracle(k - 1).failure.kind.Overloaded? then 1 else 0
  }

  function OverloadsBefore(oracle: nat -> Outcome, k: nat): nat {
    if k == 0 then 0
    else OverloadsBefore(oracle, k - 1) + if oracle(k - 1).Fails? && oracle(k - 1).failure.kind.Overloaded? then 1 else 0
  }

  /** Call `k` fails and the failures before it leave room for a retry. */
  predicate Retried(p: Policy, oracle: nat -> Outcome, k: nat) {
    && oracle(k).Fails?
    && Decide(p, oracle(k).failure, OthersBefore(oracle, k), OverloadsBefore(oracle, k)).Some?
  }

  lemma {:induction false} LoopFrom(p: Policy, oracle: nat -> Outcome, k: nat, n: nat)
    requires k <= n
    ensures var run := Loop(p, OthersBefore(oracle, k), OverloadsBefore(oracle, k), k, oracle);
      && (k + run.calls > n <==> forall j :: k <= j < n ==> Retried(p, oracle, j))
      && run.calls > 0 && (run.succeeded <==> oracle(k + run.calls - 1).Success?)
    decreases RetriesLeft(p, OthersBefore(oracle, k), OverloadsBefore(oracle, k))
  {
    var a, o := OthersBefore(oracle, k), OverloadsBefore(oracle, k);
    var outcome := oracle(k);
    hide Decide, AttemptLimit, OverloadLimit;
    CallsAreBounded(p, a, o, k, oracle);
    if Retried(p, oracle, k) {
      RetryIsPaidFor(p, outcome.failure, a, o);
      LoopFrom(p, oracle, k + 1, if n > k then n else k + 1);
    } else if n > k {
      assert !Retried(p, oracle, k);
    }
  }

  /** The loop reaches call `n` exactly when every call before it is retried; it succeeds
      exactly when its last call does. */
  lemma ReachesCall(p: Policy, oracle: nat -> Outcome, n: nat)
    ensures var run := Loop(p, 0, 0, 0, oracle);
      && (run.calls > n <==> forall j :: 0 <= j < n ==> Retried(p, oracle, j))
      && run.calls > 0 && (run.succeeded <==> oracle(run.calls - 1).Success?)
  {
    LoopFrom(p, oracle, 0, n);
  }

  // ---- sleeping ----

  /** No failure carries a Retry-After hint. */
  ghost predicate NoHints(oracle: nat -> Outcome) {
    forall k :: oracle(k).Fails? ==> oracle(k).failure.retryAfter.None?
  }

  /** The longest sleep at an attempt, without hints. */
  function LongestSleep(p: Policy, attempt: nat): real {
    match p
    case Shared(Foreground) =>
      if attempt < 3 then Pow2(attempt) else Min(RATE_LIMIT_BASE * Pow2(attempt), PERSISTENT_MAX)
    case _ => Pow2(attempt)
  }

  function SleepLeft(p: Policy, attempt: nat): real
    decreases Left(AttemptLimit(p), attempt)
  {
    if attempt >= AttemptLimit(p) then 0.0 else LongestSleep(p, attempt) + SleepLeft(p, attempt + 1)
  }

  function OverloadSleepLeft(p: Policy, overloadAttempt: nat): real
    decreases Left(OverloadLimit(p), overloadAttempt)
  {
    if overloadAttempt >= OverloadLimit(p) then 0.0
    else OverloadBackoff(overloadAttempt) + OverloadSleepLeft(p, overloadAttempt + 1)
  }

  lemma SleepIsPaidFor(p: Policy, f: Failure, a: nat, o: nat)
    requires f.retryAfter.None? && Decide(p, f, a, o).Some?
    ensures Decide(p, f, a, o).value + SleepLeft(p, NextAttempt(f, a)) + OverloadSleepLeft(p, NextOverload(f, o))
      <= SleepLeft(p, a) + OverloadSleepLeft(p, o)
  {
  }

  lemma {:induction false} SleepLeftIsNotNegative(p: Policy, a: nat, o: nat)
    ensures SleepLeft(p, a) >= 0.0 && OverloadSleepLeft(p, o) >= 0.0
    decreases Left(AttemptLimit(p), a) + Left(OverloadLimit(p), o)
  {
    if a < AttemptLimit(p) {
      SleepLeftIsNotNegative(p, a + 1, o);
    }
    if o < OverloadLimit(p) {
      SleepLeftIsNotNegative(p, a, o + 1);
    }
  }

  lemma {:induction false} SleepIsBounded(p: Policy, a: nat, o: nat, k: nat, oracle: nat -> Outcome)
    requires NoHints(oracle)
    ensures Loop(p, a, o, k, oracle).slept <= SleepLeft(p, a) + OverloadSleepLeft(p, o)
    decreases RetriesLeft(p, a, o)
  {
    SleepLeftIsNotNegative(p, a, o);
    hide Decide, SleepLeft, OverloadSleepLeft;
    var outcome := oracle(k);
    if outcome.Fails? && Decide(p, outcome.failure, a, o).Some? {
      RetryIsPaidFor(p, outcome.failure, a, o);
      SleepIsPaidFor(p, outcome.failure, a, o);
      SleepIsBounded(p, NextAttempt(outcome.failure, a), NextOverload(outcome.failure, o), k + 1, oracle);
    }
  }

  // ---- the worst case ----

  /** First the failures of the attempt track, each of the kind that sleeps longest; then overloads. */
  function Worst(p: Policy, k: nat): Outcome {
    if k >= AttemptLimit(p) then Fails(Failure(Overloaded, None))
    else if p == Shared(Foreground) && k >= 3 then Fails(Failure(RateLimited, None))
    else Fails(Failure(Connection, None))
  }

  function WorstCase(p: Policy): nat -> Outcome {
    (k: nat) => Worst(p, k)
  }

  lemma WorstStep(p: Policy, a: nat, o: nat)
    requires a <= AttemptLimit(p) && o <= OverloadLimit(p) && (o > 0 ==> a == AttemptLimit(p))
    ensures WorstCase(p)(a + o).Fails?
    ensures var f := WorstCase(p)(a + o).failure;
      if a < AttemptLimit(p) then !f.kind.Overloaded? && Decide(p, f, a, o) == Some(LongestSleep(p, a))
      else f.kind.Overloaded? && Decide(p, f, a, o) == if o < OverloadLimit(p) then Some(OverloadBackoff(o)) else None
  {
    assert Pow2(0) == 1.0 && Pow2(1) == 2.0 && Pow2(2) == 4.0;
  }

  lemma {:induction false} WorstFrom(p: Policy, a: nat, o: nat)
    requires a <= AttemptLimit(p) && o <= OverloadLimit(p) && (o > 0 ==> a == AttemptLimit(p))
    ensures var run := Loop(p, a, o, a + o, WorstCase(p));
      run.calls == 1 + RetriesLeft(p, a, o) && run.slept == SleepLeft(p, a) + OverloadSleepLeft(p, o) && !run.succeeded
    decreases RetriesLeft(p, a, o)
  {
    hide Loop, WorstCase, Decide, LongestSleep, OverloadBackoff, AttemptLimit, OverloadLimit, SleepLeft,
         OverloadSleepLeft;
    WorstStep(p, a, o);
    SleepLeftStep(p, a, o);
    if a < AttemptLimit(p) {
      WorstFrom(p, a + 1, o);
      OneRetry(p, a, o, a + o, WorstCase(p), LongestSleep(p, a));
    } else if o < OverloadLimit(p) {
      WorstFrom(p, a, o + 1);
      OneRetry(p, a, o, a + o, WorstCase(p), OverloadBackoff(o));
    } else {
      GivesUp(p, a, o, a + o, WorstCase(p));
    }
  }

  lemma SleepLeftStep(p: Policy, a: nat, o: nat)
    ensures SleepLeft(p, a) == if a < AttemptLimit(p) then LongestSleep(p, a) + SleepLeft(p, a + 1) else 0.0
    ensures OverloadSleepLeft(p, o) ==
      if o < OverloadLimit(p) then OverloadBackoff(o) + OverloadSleepLeft(p, o + 1) else 0.0
  {
  }

  lemma GivesUp(p: Policy, a: nat, o: nat, k: nat, oracle: nat -> Outcome)
    requires oracle(k).Fails? && Decide(p, oracle(k).failure, a, o).None?
    ensures var run := Loop(p, a, o, k, oracle); run.calls == 1 && run.slept == 0.0 && !run.succeeded
  {
  }

  /** One retried failure at the front of a run. */
  lemma OneRetry(p: Policy, a: nat, o: nat, k: nat, oracle: nat -> Outcome, sleep: real)
    requires oracle(k).Fails? && Decide(p, oracle(k).failure, a, o) == Some(sleep)
    ensures var f := oracle(k).failure;
      var rest := Loop(p, NextAttempt(f, a), NextOverload(f, o), k + 1, oracle);
      Loop(p, a, o, k, oracle) == rest.(calls := rest.calls + 1, slept := rest.slept + sleep)
  {
    hide Decide;
  }

  lemma {:induction false} ProviderSleep(n: nat, a: nat)
    requires a <= n
    ensures SleepLeft(Provider(n), a) == Pow2(n) - Pow2(a)
    decreases n - a
  {
    if a < n {
      ProviderSleep(n, a + 1);
    }
  }

  lemma ForegroundAttemptSleep()
    ensures SleepLeft(Shared(Foreground), 0) == 515.0
  {
    var p := Shared(Foreground);
    assert Pow2(0) == 1.0 && Pow2(1) == 2.0 && Pow2(2) == 4.0 && Pow2(3) == 8.0 && Pow2(4) == 16.0;
    assert Pow2(5) == 32.0 && Pow2(6) == 64.0 && Pow2(7) == 128.0 && Pow2(8) == 256.0 && Pow2(9) == 512.0;
    assert SleepLeft(p, 10) == 0.0;
    assert SleepLeft(p, 9) == 256.0 && SleepLeft(p, 8) == 384.0 && SleepLeft(p, 7) == 448.0;
    assert SleepLeft(p, 6) == 480.0 && SleepLeft(p, 5) == 496.0 && SleepLeft(p, 4) == 504.0;
    assert SleepLeft(p, 3) == 508.0 && SleepLeft(p, 2) == 512.0 && SleepLeft(p, 1) == 514.0;
  }

  lemma {:induction false} LongOverloadSleep(p: Policy, o: nat)
    requires 3 <= o <= OverloadLimit(p)
    ensures OverloadSleepLeft(p, o) == (OverloadLimit(p) - o) as real * PERSISTENT_MAX
    decreases OverloadLimit(p) - o
  {
    if o < OverloadLimit(p) {
      LongOverloadSleep(p, o + 1);
    }
  }

  lemma OverloadSleeps(n: nat)
    ensures OverloadSleepLeft(Shared(Foreground), 0) == 5310.0
    ensures OverloadSleepLeft(Shared(Background), 0) == 30.0 && SleepLeft(Shared(Background), 0) == 1.0
    ensures OverloadSleepLeft(Provider(n), 0) == 210.0
  {
    var fg, bg, own := Shared(Foreground), Shared(Background), Provider(n);
    LongOverloadSleep(fg, 3);
    assert OverloadSleepLeft(fg, 2) == 5220.0 && OverloadSleepLeft(fg, 1) == 5280.0;
    LongOverloadSleep(own, 3);
    assert OverloadSleepLeft(own, 2) == 120.0 && OverloadSleepLeft(own, 1) == 180.0;
    assert OverloadSleepLeft(bg, 1) == 0.0 && SleepLeft(bg, 1) == 0.0 && Pow2(0) == 1.0;
  }

  /** A foreground request makes at most 31 calls and, without hints, sleeps at most 5825
      seconds; one sequence of failures reaches both. */
  lemma ForegroundBudget(oracle: nat -> Outcome)
    ensures Loop(Shared(Foreground), 0, 0, 0, oracle).calls <= 31
    ensures NoHints(oracle) ==> Loop(Shared(Foreground), 0, 0, 0, oracle).slept <= 5825.0
    ensures var worst := Loop(Shared(Foreground), 0, 0, 0, WorstCase(Shared(Foreground)));
      worst.calls == 31 && worst.slept == 5825.0
  {
    hide Loop, SleepLeft, OverloadSleepLeft, WorstCase;
    Budget(Shared(Foreground), oracle);
    ForegroundAttemptSleep();
    OverloadSleeps(0);
  }

  /** A background request makes at most 3 calls and, without hints, sleeps at most 31 seconds. */
  lemma BackgroundBudget(oracle: nat -> Outcome)
    ensures Loop(Shared(Background), 0, 0, 0, oracle).calls <= 3
    ensures NoHints(oracle) ==> Loop(Shared(Background), 0, 0, 0, oracle).slept <= 31.0
    ensures var worst := Loop(Shared(Background), 0, 0, 0, WorstCase(Shared(Background)));
      worst.calls == 3 && worst.slept == 31.0
  {
    hide Loop, SleepLeft, OverloadSleepLeft, WorstCase;
    Budget(Shared(Background), oracle);
    OverloadSleeps(0);
  }

  /** The providers' own loop posts at most `maxRetries + 4` times; without hints it sleeps at
      most `2^maxRetries - 1 + 210` seconds. */
  lemma ProviderBudget(n: nat, oracle: nat -> Outcome)
    ensures Loop(Provider(n), 0, 0, 0, oracle).calls <= n + 4
    ensures NoHints(oracle) ==> Loop(Provider(n), 0, 0, 0, oracle).slept <= Pow2(n) + 209.0
    ensures var worst := Loop(Provider(n), 0, 0, 0, WorstCase(Provider(n)));
      worst.calls == n + 4 && worst.slept == Pow2(n) + 209.0
  {
    assert Pow2(0) == 1.0;
    hide Loop, SleepLeft, OverloadSleepLeft, Pow2, WorstCase;
    Budget(Provider(n), oracle);
    ProviderSleep(n, 0);
    OverloadSleeps(n);
  }

  lemma Budget(p: Policy, oracle: nat -> Outcome)
    ensures Loop(p, 0, 0, 0, oracle).calls <= 1 + AttemptLimit(p) + OverloadLimit(p)
    ensures NoHints(oracle) ==> Loop(p, 0, 0, 0, oracle).slept <= SleepLeft(p, 0) + OverloadSleepLeft(p, 0)
    ensures var worst := Loop(p, 0, 0, 0, WorstCase(p));
      && worst.calls == 1 + AttemptLimit(p) + OverloadLimit(p)
      && worst.slept == SleepLeft(p, 0) + OverloadSleepLeft(p, 0)
  {
    hide Loop, SleepLeft, OverloadSleepLeft;
    CallsAreBounded(p, 0, 0, 0, oracle);
    if NoHints(oracle) {
      SleepIsBounded(p, 0, 0, 0, oracle);
    }
    WorstFrom(p, 0, 0);
  }
}
