/** Retrying failed calls: the shared policy of `RateLimitHandler`, the loop that both providers
    fall back to without a handler, and the budgets of both. Times are exact seconds. */
module RetryPolicy {
  import opened Wrappers

  datatype Classification = RateLimited | Overloaded | Connection | Timeout | Permanent | Unknown

  /** A classified exception; `retryAfter` is the provider's hint. */
  datatype Failure = Failure(kind: Classification, retryAfter: Option<real>)

  datatype RequestKind = Foreground | Background

  const PERSISTENT_MAX := 300.0
  const RATE_LIMIT_BASE := 0.5
  const CONNECTION_BASE := 1.0

  function Pow2(n: nat): (r: real)
    ensures r >= 1.0
  {
    if n == 0 then 1.0 else 2.0 * Pow2(n - 1)
  }

  function Min(a: real, b: real): real {
    if a <= b then a else b
  }

  function OverloadBackoff(overloadAttempt: nat): real {
    if overloadAttempt == 0 then 30.0
    else if overloadAttempt == 1 then 60.0
    else if overloadAttempt == 2 then 120.0
    else PERSISTENT_MAX
  }

  /** `next_backoff` */
  function NextBackoff(f: Failure, attempt: nat, overloadAttempt: nat): real {
    match f.kind
    case RateLimited =>
      if f.retryAfter.Some? && f.retryAfter.value > 0.0 then f.retryAfter.value
      else Min(RATE_LIMIT_BASE * Pow2(attempt), PERSISTENT_MAX)
    case Overloaded => OverloadBackoff(overloadAttempt)
    case Connection => Min(CONNECTION_BASE * Pow2(attempt), PERSISTENT_MAX)
    case Timeout => Min(CONNECTION_BASE * Pow2(attempt), PERSISTENT_MAX)
    case _ => 0.0
  }

  /** `should_retry`: the time to sleep before another try, or `None` to give up. */
  function ShouldRetry(f: Failure, attempt: nat, overloadAttempt: nat, request: RequestKind): Option<real> {
    var isFg := request.Foreground?;
    match f.kind
    case Permanent => None
    case RateLimited =>
      if attempt >= if isFg then 10 else 0 then None else Some(NextBackoff(f, attempt, overloadAttempt))
    case Overloaded =>
      if overloadAttempt >= if isFg then 20 else 1 then None else Some(NextBackoff(f, attempt, overloadAttempt))
    case Unknown => if isFg && attempt == 0 then Some(CONNECTION_BASE) else None
    case _ =>
      if attempt >= if isFg then 3 else 1 then None else Some(NextBackoff(f, attempt, overloadAttempt))
  }

  /** The `except` clauses of the providers' own loop. */
  function ProviderRetry(f: Failure, attempt: nat, overloadAttempt: nat, maxRetries: int): Option<real> {
    match f.kind
    case Overloaded => if overloadAttempt < 3 then Some(OverloadBackoff(overloadAttempt)) else None
    case RateLimited =>
      if attempt >= maxRetries then None
      else Some(if f.retryAfter.Some? then f.retryAfter.value else Pow2(attempt))
    case Connection => if attempt < maxRetries then Some(Pow2(attempt)) else None
    case Timeout => if attempt < maxRetries then Some(Pow2(attempt)) else None
    case _ => None
  }

  datatype Policy = Shared(request: RequestKind) | Provider(maxRetries: nat)

  function Decide(p: Policy, f: Failure, attempt: nat, overloadAttempt: nat): Option<real> {
    match p
    case Shared(request) => ShouldRetry(f, attempt, overloadAttempt, request)
    case Provider(n) => ProviderRetry(f, attempt, overloadAttempt, n)
  }

  // ---- the decisions, as a table ----

  /** How many failures of its track a failure may follow and still be retried. */
  function Allowance(p: Policy, kind: Classification): nat {
    match (p, kind)
    case (_, Permanent) => 0
    case (Shared(Foreground), RateLimited) => 10
    case (Shared(Foreground), Overloaded) => 20
    case (Shared(Foreground), Unknown) => 1
    case (Shared(Foreground), _) => 3
    case (Shared(Background), RateLimited) => 0
    case (Shared(Background), Unknown) => 0
    case (Shared(Background), _) => 1
    case (Provider(_), Overloaded) => 3
    case (Provider(_), Unknown) => 0
    case (Provider(n), _) => n
  }

  /** The sleep before the call that follows a failure, from the counters of both tracks. No cap
      appears: within the allowances none is reached but that of the overload schedule. */
  function Sleep(p: Policy, f: Failure, attempt: nat, overloadAttempt: nat): real {
    var hinted := f.kind == RateLimited && f.retryAfter.Some? && (p.Provider? || f.retryAfter.value > 0.0);
    if hinted then f.retryAfter.value
    else if f.kind == Overloaded then
      if overloadAttempt < 3 then [30.0, 60.0, 120.0][overloadAttempt] else 300.0
    else if f.kind == RateLimited && p.Shared? then Pow2(attempt) / 2.0
    else Pow2(attempt)
  }

  lemma {:induction false} Pow2Grows(m: nat, n: nat)
    requires m <= n
    ensures Pow2(m) <= Pow2(n)
    decreases n
  {
    if m < n {
      Pow2Grows(m, n - 1);
    }
  }

  lemma SmallPowers(n: nat)
    ensures n < 10 ==> Pow2(n) <= 512.0
    ensures n < 3 ==> Pow2(n) <= 4.0
    ensures n < 1 ==> Pow2(n) == 1.0
  {
    assert Pow2(0) == 1.0 && Pow2(1) == 2.0 && Pow2(2) == 4.0 && Pow2(3) == 8.0 && Pow2(4) == 16.0;
    assert Pow2(5) == 32.0 && Pow2(6) == 64.0 && Pow2(7) == 128.0 && Pow2(8) == 256.0 && Pow2(9) == 512.0;
    if n < 10 {
      Pow2Grows(n, 9);
    }
    if n < 3 {
      Pow2Grows(n, 2);
    }
  }

  /** What the policies decide. */
  lemma DecisionMeans(p: Policy, f: Failure, attempt: nat, overloadAttempt: nat)
    ensures var decision := Decide(p, f, attempt, overloadAttempt);
      && (decision.Some? <==> (if f.kind == Overloaded then overloadAttempt else attempt) < Allowance(p, f.kind))
      && (decision.Some? ==> decision.value == Sleep(p, f, attempt, overloadAttempt))
  {
    SmallPowers(attempt);
    hide Pow2;
  }

  // ---- the loop, against any sequence of outcomes ----

  /** The outcome of the `k`-th call. */
  datatype Outcome = Success | Fails(failure: Failure)

  datatype Run = Run(calls: nat, slept: real, succeeded: bool, attempt: nat, overloadAttempt: nat)

  function AttemptLimit(p: Policy): nat {
    match p
    case Shared(Foreground) => 10
    case Shared(Background) => 1
    case Provider(n) => n
  }

  function OverloadLimit(p: Policy): nat {
    match p
    case Shared(Foreground) => 20
    case Shared(Background) => 1
    case Provider(_) => 3
  }

  function Left(limit: nat, used: nat): nat {
    if used < limit then limit - used else 0
  }

  function RetriesLeft(p: Policy, attempt: nat, overloadAttempt: nat): nat {
    Left(AttemptLimit(p), attempt) + Left(OverloadLimit(p), overloadAttempt)
  }

  function NextAttempt(f: Failure, attempt: nat): nat {
    if f.kind.Overloaded? then attempt else attempt + 1
  }

  function NextOverload(f: Failure, overloadAttempt: nat): nat {
    if f.kind.Overloaded? then overloadAttempt + 1 else overloadAttempt
  }

  /** A retry uses up one of the retries that are left. */
  lemma RetryIsPaidFor(p: Policy, f: Failure, attempt: nat, overloadAttempt: nat)
    requires Decide(p, f, attempt, overloadAttempt).Some?
    ensures RetriesLeft(p, NextAttempt(f, attempt), NextOverload(f, overloadAttempt))
      == RetriesLeft(p, attempt, overloadAttempt) - 1
  {
  }

  /** What the loop does from call `k` on. */
  function Loop(p: Policy, attempt: nat, overloadAttempt: nat, k: nat, oracle: nat -> Outcome): Run
    decreases RetriesLeft(p, attempt, overloadAttempt)
  {
    match oracle(k)
    case Success => Run(1, 0.0, true, attempt, overloadAttempt)
    case Fails(f) =>
      var a, o := NextAttempt(f, attempt), NextOverload(f, overloadAttempt);
      (match Decide(p, f, attempt, overloadAttempt)
       case None => Run(1, 0.0, false, a, o)
       case Some(sleep) =>
         RetryIsPaidFor(p, f, attempt, overloadAttempt);
         var rest := Loop(p, a, o, k + 1, oracle);
         rest.(calls := rest.calls + 1, slept := rest.slept + sleep))
  }

  // ---- the loops of the source ----

  class RateLimitHandler {
    const requestKind: RequestKind
    var attempt: nat
    var overloadAttempt: nat

    constructor (requestKind: RequestKind)
      ensures this.requestKind == requestKind && attempt == 0 && overloadAttempt == 0
    {
      this.requestKind, attempt, overloadAttempt := requestKind, 0, 0;
    }

    /** `on_exception`; the counters move even when the answer is to give up. */
    method OnException(f: Failure) returns (sleep: Option<real>)
      modifies this
      ensures sleep == ShouldRetry(f, old(attempt), old(overloadAttempt), requestKind)
      ensures sleep.Some? <==>
        (if f.kind == Overloaded then old(overloadAttempt) else old(attempt)) < Allowance(Shared(requestKind), f.kind)
      ensures sleep.Some? ==> sleep.value == Sleep(Shared(requestKind), f, old(attempt), old(overloadAttempt))
      ensures attempt == NextAttempt(f, old(attempt)) && overloadAttempt == NextOverload(f, old(overloadAttempt))
    {
      DecisionMeans(Shared(requestKind), f, attempt, overloadAttempt);
      sleep := ShouldRetry(f, attempt, overloadAttempt, requestKind);
      if f.kind.Overloaded? {
        overloadAttempt := overloadAttempt + 1;
      } else {
        attempt := attempt + 1;
      }
    }

    method RecordSuccess()
      modifies this
      ensures attempt == 0 && overloadAttempt == 0
    {
      attempt, overloadAttempt := 0, 0;
    }
  }

  method RunWithRateLimit(handler: RateLimitHandler, oracle: nat -> Outcome)
    returns (calls: nat, slept: real, succeeded: bool)
    modifies handler
    ensures var run := Loop(Shared(handler.requestKind), old(handler.attempt), old(handler.overloadAttempt), 0, oracle);
      && calls == run.calls && slept == run.slept && succeeded == run.succeeded
      && handler.attempt == (if succeeded then 0 else run.attempt)
      && handler.overloadAttempt == if succeeded then 0 else run.overloadAttempt
  {
    hide ShouldRetry;
    var p := Shared(handler.requestKind);
    ghost var run := Loop(p, handler.attempt, handler.overloadAttempt, 0, oracle);
    calls, slept := 0, 0.0;
    while true
      invariant var rest := Loop(p, handler.attempt, handler.overloadAttempt, calls, oracle);
        run == rest.(calls := calls + rest.calls, slept := slept + rest.slept)
      decreases RetriesLeft(p, handler.attempt, handler.overloadAttempt)
    {
      ghost var a, o := handler.attempt, handler.overloadAttempt;
      var outcome := oracle(calls);
      calls := calls + 1;
      match outcome {
        case Success =>
          handler.RecordSuccess();
          succeeded := true;
          return;
        case Fails(f) =>
          var sleep := handler.OnException(f);
          if sleep.None? {
            succeeded := false;
            return;
          }
          RetryIsPaidFor(p, f, a, o);
          slept := slept + sleep.value;
      }
    }
  }

  datatype PostEnd = Returned | Raised | RaisedNothing

  /** One round of the provider's loop. */
  lemma ProviderLoopStep(n: nat, attempt: nat, overloadAttempt: nat, k: nat, oracle: nat -> Outcome)
    ensures var p, outcome := Provider(n), oracle(k);
      var run := Loop(p, attempt, overloadAttempt, k, oracle);
      if outcome.Success? then run.calls == 1 && run.slept == 0.0 && run.succeeded
      else
        var f := outcome.failure;
        var sleep := ProviderRetry(f, attempt, overloadAttempt, n);
        if sleep.None? then run.calls == 1 && run.slept == 0.0 && !run.succeeded
        else
          var rest := Loop(p, NextAttempt(f, attempt), NextOverload(f, overloadAttempt), k + 1, oracle);
          && run == rest.(calls := rest.calls + 1, slept := rest.slept + sleep.value)
          && RetriesLeft(p, NextAttempt(f, attempt), NextOverload(f, overloadAttempt))
             == RetriesLeft(p, attempt, overloadAttempt) - 1
  {
    hide ProviderRetry, RetriesLeft;
    if oracle(k).Fails? && Decide(Provider(n), oracle(k).failure, attempt, overloadAttempt).Some? {
      RetryIsPaidFor(Provider(n), oracle(k).failure, attempt, overloadAttempt);
    }
  }

  /** `_post_with_retry`. A negative `maxRetries` posts nothing and then raises `None`. */
  method PostWithRetry(maxRetries: int, oracle: nat -> Outcome)
    returns (posts: nat, slept: real, end: PostEnd)
    ensures maxRetries < 0 ==> posts == 0 && slept == 0.0 && end == RaisedNothing
    ensures maxRetries >= 0 ==>
      var run := Loop(Provider(maxRetries), 0, 0, 0, oracle);
      posts == run.calls && slept == run.slept && end == if run.succeeded then Returned else Raised
  {
    hide Pow2, OverloadBackoff;
    posts, slept := 0, 0.0;
    var attempt, overloadAttempt := 0, 0;
    var lastExc := false;
    ghost var p := Provider(if maxRetries >= 0 then maxRetries else 0);
    ghost var run := Loop(p, 0, 0, 0, oracle);
    while attempt <= maxRetries
      invariant maxRetries >= 0 ==> attempt <= maxRetries
      invariant var rest := Loop(p, attempt, overloadAttempt, posts, oracle);
        run.calls == posts + rest.calls && run.slept == slept + rest.slept && run.succeeded == rest.succeeded
      invariant maxRetries < 0 ==> posts == 0 && slept == 0.0 && !lastExc
      decreases RetriesLeft(p, attempt, overloadAttempt)
    {
      hide Loop, RetriesLeft;
      ProviderLoopStep(maxRetries, attempt, overloadAttempt, posts, oracle);
      var outcome := oracle(posts);
      posts := posts + 1;
      if outcome.Success? {
        return posts, slept, Returned;
      }
      var f := outcome.failure;
      lastExc := true;
      ghost var sleep := ProviderRetry(f, attempt, overloadAttempt, maxRetries);
      ghost var before, a, o := slept, NextAttempt(f, attempt), NextOverload(f, overloadAttempt);
      match f.kind {
        case Overloaded =>
          if overloadAttempt < 3 {
            slept := slept + OverloadBackoff(overloadAttempt);
            overloadAttempt := overloadAttempt + 1;
          } else {
            return posts, slept, Raised;
          }
        case RateLimited =>
          if attempt < maxRetries {
            slept := slept + if f.retryAfter.Some? then f.retryAfter.value else Pow2(attempt);
            attempt := attempt + 1;
          } else {
            return posts, slept, Raised;
          }
        case Connection =>
          if attempt < maxRetries {
            slept := slept + Pow2(attempt);
            attempt := attempt + 1;
          } else {
            return posts, slept, Raised;
          }
        case Timeout =>
          if attempt < maxRetries {
            slept := slept + Pow2(attempt);
            attempt := attempt + 1;
          } else {
            return posts, slept, Raised;
          }
        case _ => return posts, slept, Raised;
      }
      assert sleep.Some? && slept == before + sleep.value && attempt == a && overloadAttempt == o;
    }
    end := if lastExc then Raised else RaisedNothing;
  }
}
