/** When the retry loops go on after a failure, and how long they sleep first, by the kind of the
    failure and the failures before it. */
module RetryLaws {
  import opened RetryPolicy
  import opened RetryBounds

  /** Earlier failures of the same track: overloads are counted apart from the rest. */
  function Earlier(oracle: nat -> Outcome, k: nat, kind: Classification): nat {
    if kind == Overloaded then OverloadsBefore(oracle, k) else OthersBefore(oracle, k)
  }

  /** A failed call that the loop reaches is followed by another exactly when its track has seen
      fewer failures than its kind allows. */
  lemma FollowedWhen(p: Policy, oracle: nat -> Outcome, k: nat)
    requires Loop(p, 0, 0, 0, oracle).calls > k && oracle(k).Fails?
    ensures var kind := oracle(k).failure.kind;
      Loop(p, 0, 0, 0, oracle).calls > k + 1 <==> Earlier(oracle, k, kind) < Allowance(p, kind)
  {
    ReachesCall(p, oracle, k);
    ReachesCall(p, oracle, k + 1);
    DecisionMeans(p, oracle(k).failure, OthersBefore(oracle, k), OverloadsBefore(oracle, k));
    hide Decide, Allowance, Sleep;
    assert Retried(p, oracle, k) <==>
      Earlier(oracle, k, oracle(k).failure.kind) < Allowance(p, oracle(k).failure.kind);
  }

  /** Nothing comes after a permanent failure, under any policy. */
  lemma PermanentIsFinal(p: Policy, oracle: nat -> Outcome, k: nat)
    requires Loop(p, 0, 0, 0, oracle).calls > k && oracle(k).Fails? && oracle(k).failure.kind == Permanent
    ensures Loop(p, 0, 0, 0, oracle).calls == k + 1 && !Loop(p, 0, 0, 0, oracle).succeeded
  {
    FollowedWhen(p, oracle, k);
    ReachesCall(p, oracle, k);
  }

  /** The sleeps of the loop before call `k`. */
  function SleptBefore(p: Policy, oracle: nat -> Outcome, k: nat): real {
    if k == 0 then 0.0
    else SleptBefore(p, oracle, k - 1) +
         if oracle(k - 1).Fails?
         then Sleep(p, oracle(k - 1).failure, OthersBefore(oracle, k - 1), OverloadsBefore(oracle, k - 1)) else 0.0
  }

  /** One failure, from any counters, such as those of a handler that gave up before. */
  lemma AfterFailure(p: Policy, attempt: nat, overloadAttempt: nat, k: nat, oracle: nat -> Outcome)
    requires oracle(k).Fails?
    ensures var f := oracle(k).failure;
      var run := Loop(p, attempt, overloadAttempt, k, oracle);
      if (if f.kind == Overloaded then overloadAttempt else attempt) < Allowance(p, f.kind) then
        var rest := if f.kind == Overloaded then Loop(p, attempt, overloadAttempt + 1, k + 1, oracle)
                    else Loop(p, attempt + 1, overloadAttempt, k + 1, oracle);
        && run.calls == 1 + rest.calls && run.slept == Sleep(p, f, attempt, overloadAttempt) + rest.slept
        && run.succeeded == rest.succeeded
      else run.calls == 1 && run.slept == 0.0 && !run.succeeded
  {
    var f := oracle(k).failure;
    hide Decide, Allowance, Sleep, Loop;
    DecisionMeans(p, f, attempt, overloadAttempt);
    if Decide(p, f, attempt, overloadAttempt).Some? {
      OneRetry(p, attempt, overloadAttempt, k, oracle, Sleep(p, f, attempt, overloadAttempt));
    } else {
      GivesUp(p, attempt, overloadAttempt, k, oracle);
    }
  }

  lemma {:induction false} SleptFrom(p: Policy, oracle: nat -> Outcome, k: nat)
    ensures var run := Loop(p, OthersBefore(oracle, k), OverloadsBefore(oracle, k), k, oracle);
      SleptBefore(p, oracle, k) + run.slept == SleptBefore(p, oracle, k + run.calls - 1)
    decreases RetriesLeft(p, OthersBefore(oracle, k), OverloadsBefore(oracle, k))
  {
    var a, o := OthersBefore(oracle, k), OverloadsBefore(oracle, k);
    hide Decide, Sleep, Allowance, AttemptLimit, OverloadLimit;
    CallsAreBounded(p, a, o, k, oracle);
    if Retried(p, oracle, k) {
      var f := oracle(k).failure;
      RetryIsPaidFor(p, f, a, o);
      DecisionMeans(p, f, a, o);
      SleptFrom(p, oracle, k + 1);
    }
  }

  /** In all, the loop sleeps after every call but its last, for the time that the call's failure
      asks for: a rate limit's positive hint exactly, otherwise by the schedule. */
  lemma SleepsBetweenCalls(p: Policy, oracle: nat -> Outcome)
    ensures var run := Loop(p, 0, 0, 0, oracle);
      run.calls > 0 && run.slept == SleptBefore(p, oracle, run.calls - 1)
  {
    CallsAreBounded(p, 0, 0, 0, oracle);
    SleptFrom(p, oracle, 0);
  }
}
