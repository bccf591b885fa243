/** The per-session request limit and its Retry-After hint, over exact times in seconds. */
module SessionRate {
  import opened Wrappers
  import opened SlidingWindow

  const PERIOD := 60.0

  /** `max(1, int(x + 0.999))` */
  function Hint(x: real): int
    requires x > 0.0
  {
    var whole := (x + 0.999).Floor;
    if whole > 1 then whole else 1
  }

  class HayhooksSession {
    const rpm: int
    var requestTimes: seq<real>
    /** Every accepted request, and the time of the latest check. */
    ghost var accepted: seq<real>
    ghost var latest: real

    ghost predicate Valid()
      reads this
    {
      rpm > 0 ==>
        Spaced(accepted, rpm, PERIOD) && QueueIsRecent(Config(rpm, PERIOD, None), latest, requestTimes, accepted)
    }

    constructor (rpm: int)
      ensures Valid() && this.rpm == rpm && accepted == [] && requestTimes == []
    {
      this.rpm, requestTimes, accepted := rpm, [], [];
    }

    /** `check_rate_limit`: `None` lets the request through, and `Some` is the hint. */
    method CheckRateLimit(now: real) returns (retryAfter: Option<int>)
      requires Valid() && (accepted != [] ==> latest <= now)
      modifies this
      ensures Valid() && latest == now
      ensures rpm <= 0 ==> retryAfter.None? && accepted == old(accepted) && requestTimes == old(requestTimes)
      ensures rpm > 0 ==> var rolled := Roll(old(requestTimes), now - PERIOD);
        if |rolled| < rpm then retryAfter.None? && requestTimes == rolled + [now] && accepted == old(accepted) + [now]
        else rolled[0] > now - PERIOD && retryAfter == Some(Hint(rolled[0] + PERIOD - now))
             && requestTimes == rolled && accepted == old(accepted)
    {
      hide Spaced, QueueIsRecent, Roll;
      ghost var c := Config(if rpm > 0 then rpm else 0, PERIOD, None);
      if rpm > 0 {
        TimePasses(c, latest, now, requestTimes, accepted);
        AfterRolling(c, now, requestTimes, accepted);
      }
      latest := now;
      if rpm <= 0 {
        return None;
      }
      DropOld(now);
      if |requestTimes| >= rpm {
        return Some(Hint(requestTimes[0] + PERIOD - now));
      }
      GrantIsSpaced(c, now, requestTimes, accepted);
      PushKeepsRecent(c, now, requestTimes, accepted);
      requestTimes := requestTimes + [now];
      accepted := accepted + [now];
      retryAfter := None;
    }

    /** The loop that pops what left the window. */
    method DropOld(now: real)
      modifies `requestTimes
      ensures requestTimes == Roll(old(requestTimes), now - PERIOD)
    {
      while requestTimes != [] && now - requestTimes[0] >= PERIOD
        invariant Roll(requestTimes, now - PERIOD) == Roll(old(requestTimes), now - PERIOD)
        decreases |requestTimes|
      {
        requestTimes := requestTimes[1..];
      }
    }
  }

  lemma TimePasses(c: Config, before: real, now: real, queue: seq<real>, log: seq<real>)
    requires QueueIsRecent(c, before, queue, log) && (log != [] ==> before <= now)
    ensures QueueIsRecent(c, now, queue, log)
  {
  }

  /** In a session's whole life, every half-open minute holds at most `rpm` accepted requests. */
  lemma SessionRateHolds(accepted: seq<real>, rpm: int, t: real)
    requires rpm > 0 && Spaced(accepted, rpm, PERIOD)
    ensures CountIn(accepted, t - PERIOD, t) <= rpm
  {
    SpacedMeansFew(accepted, rpm, PERIOD, t);
  }

  /** The whole part of a time that is left over after whole seconds. */
  function Fraction(x: real): real {
    x - x.Floor as real
  }

  /** Waiting for the hint is enough exactly when the time left is at most one second, or its
      fraction is zero or at least a millisecond; then the hint is the smallest such number
      of whole seconds. */
  lemma HintIsEnoughWhen(x: real)
    requires x > 0.0
    ensures Hint(x) as real >= x <==> x <= 1.0 || Fraction(x) == 0.0 || Fraction(x) >= 0.001
    ensures Hint(x) > 1 ==> (Hint(x) - 1) as real < x
  {
    var n, f := x.Floor, Fraction(x);
    var whole := (x + 0.999).Floor;
    if f >= 0.001 {
      assert whole == n + 1;
    } else {
      assert whole == n;
    }
  }

  /** At millisecond granularity the hint is always enough. */
  lemma HintIsEnoughForMilliseconds(ms: int)
    requires ms > 0
    ensures Hint(ms as real / 1000.0) as real >= ms as real / 1000.0
  {
    var x := ms as real / 1000.0;
    var n := x.Floor;
    assert 1000 * n <= ms < 1000 * n + 1000;
    if ms > 1000 * n {
      assert ms >= 1000 * n + 1;
      assert Fraction(x) >= 0.001;
    }
    HintIsEnoughWhen(x);
  }

  /** With exact times the hint can be too short. */
  lemma HintCanBeTooShort()
    ensures Hint(30.0005) == 30
  {
    assert (30.0005 + 0.999).Floor == 30;
  }

  /** A request that waits for the hint is let through, if no other came first, exactly when
      the hint covers the time left. */
  lemma RetryAfterHint(times: seq<real>, rpm: nat, now: real)
    requires rpm > 0 && |times| == rpm && times[0] > now - PERIOD
    ensures var later := now + Hint(times[0] + PERIOD - now) as real;
      |Roll(times, later - PERIOD)| < rpm <==> Hint(times[0] + PERIOD - now) as real >= times[0] + PERIOD - now
  {
    var later := now + Hint(times[0] + PERIOD - now) as real;
    RollStops(times[1..], later - PERIOD);
  }
}
