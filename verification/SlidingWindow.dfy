/** The sliding-window limiter: its critical section, and every run of concurrent acquirers. */
module SlidingWindow {
  import opened SeqFacts
  import opened Wrappers

  // ---- the critical section ----

  /** Times that fell out of the window leave the queue. */
  function Roll(ts: seq<real>, cutoff: real): seq<real> {
    if ts != [] && ts[0] <= cutoff then Roll(ts[1..], cutoff) else ts
  }

  datatype Outcome = Granted | Wait(seconds: real)

  function Admission(rolled: seq<real>, max: nat, window: real, now: real): Outcome {
    if |rolled| < max || rolled == [] then Granted else Wait(rolled[0] + window - now)
  }

  class SlidingWindowLimiter {
    const max: nat
    const window: real
    var timestamps: seq<real>

    constructor (max: nat, window: real)
      requires max > 0 && window > 0.0
      ensures this.max == max && this.window == window && timestamps == []
    {
      this.max, this.window, timestamps := max, window, [];
    }

    /** What `acquire` does under the lock. */
    method TryAcquire(now: real) returns (outcome: Outcome)
      requires max > 0
      modifies `timestamps
      ensures var rolled := Roll(old(timestamps), now - window);
        outcome == Admission(rolled, max, window, now)
        && timestamps == if outcome.Granted? then rolled + [now] else rolled
    {
      var cutoff := now - window;
      while timestamps != [] && timestamps[0] <= cutoff
        invariant Roll(timestamps, cutoff) == Roll(old(timestamps), cutoff)
        decreases |timestamps|
      {
        timestamps := timestamps[1..];
      }
      if |timestamps| < max {
        timestamps := timestamps + [now];
        return Granted;
      }
      var oldest := timestamps[0];
      var wait := oldest + window - now;
      outcome := Wait(if wait > 0.0 then wait else 0.0);
      RollStops(old(timestamps), cutoff);
    }
  }

  lemma {:induction false} RollStops(ts: seq<real>, cutoff: real)
    ensures var r := Roll(ts, cutoff); r != [] ==> r[0] > cutoff
    ensures var r := Roll(ts, cutoff); |r| <= |ts| && r == ts[|ts| - |r|..]
    ensures var r := Roll(ts, cutoff); forall k :: 0 <= k < |ts| - |r| ==> ts[k] <= cutoff
    decreases |ts|
  {
    if ts != [] && ts[0] <= cutoff {
      RollStops(ts[1..], cutoff);
      var r := Roll(ts, cutoff);
      forall k | 0 <= k < |ts| - |r| ensures ts[k] <= cutoff {
        if k > 0 {
          assert ts[k] == ts[1..][k - 1];
        }
      }
    }
  }

  // ---- runs ----

  datatype Config = Config(max: nat, window: real, concurrency: Option<nat>)

  /** Where an acquirer is. A sleeper keeps the number of grants there were when it computed
      its wait, which only the proofs look at. */
  datatype Phase = NeedsPermit | Trying | Sleeping(until: real, grantsSeen: nat) | Holding | Gone

  /** `log` is every grant ever made, and `queue` the limiter's deque. */
  datatype State = State(now: real, queue: seq<real>, log: seq<real>, permits: nat, phases: seq<Phase>)

  /** `Attempt` is one pass through the critical section, by a task that has just got its
      permit or just woke up, perhaps too early. */
  datatype Event = Tick(seconds: real) | TakePermit(i: nat) | Attempt(i: nat) | Cancel(i: nat) | Release(i: nat)

  predicate HasPermit(p: Phase) {
    p.Trying? || p.Sleeping? || p.Holding?
  }

  predicate Enabled(c: Config, s: State, e: Event) {
    match e
    case Tick(d) => d >= 0.0
    case TakePermit(i) => i < |s.phases| && s.phases[i].NeedsPermit? && (c.concurrency.Some? ==> s.permits > 0)
    case Attempt(i) => i < |s.phases| && (s.phases[i].Trying? || s.phases[i].Sleeping?)
    case Cancel(i) => i < |s.phases| && !s.phases[i].Holding? && !s.phases[i].Gone?
    case Release(i) => i < |s.phases| && s.phases[i].Holding?
  }

  function GiveBack(c: Config, s: State): nat {
    if c.concurrency.Some? then s.permits + 1 else s.permits
  }

  function Apply(c: Config, s: State, e: Event): State
    requires Enabled(c, s, e)
  {
    match e
    case Tick(d) => s.(now := s.now + d)
    case TakePermit(i) =>
      s.(permits := if c.concurrency.Some? then s.permits - 1 else s.permits, phases := s.phases[i := Trying])
    case Attempt(i) =>
      var rolled := Roll(s.queue, s.now - c.window);
      (match Admission(rolled, c.max, c.window, s.now)
       case Granted => s.(queue := rolled + [s.now], log := s.log + [s.now], phases := s.phases[i := Holding])
       case Wait(w) => s.(queue := rolled, phases := s.phases[i := Sleeping(s.now + w, |s.log|)]))
    case Cancel(i) =>
      s.(permits := if HasPermit(s.phases[i]) then GiveBack(c, s) else s.permits, phases := s.phases[i := Gone])
    case Release(i) => s.(permits := GiveBack(c, s), phases := s.phases[i := Gone])
  }

  predicate IsRun(c: Config, s: State, es: seq<Event>)
    decreases |es|
  {
    es == [] || (Enabled(c, s, es[0]) && IsRun(c, Apply(c, s, es[0]), es[1..]))
  }

  function After(c: Config, s: State, es: seq<Event>): State
    requires IsRun(c, s, es)
    decreases |es|
  {
    if es == [] then s else After(c, Apply(c, s, es[0]), es[1..])
  }

  predicate IsStart(c: Config, s: State) {
    && s.queue == [] && s.log == []
    && (c.concurrency.Some? ==> s.permits == c.concurrency.value)
    && forall i :: 0 <= i < |s.phases| ==> s.phases[i] == NeedsPermit
  }

  // ---- what every run keeps ----

  /** Grants are recorded in order, and a grant is at least a window after the one `max` before. */
  predicate Spaced(log: seq<real>, max: nat, window: real) {
    && (forall k :: 0 < k < |log| ==> log[k - 1] <= log[k])
    && (forall k :: 0 <= k < |log| - max ==> log[k] <= log[k + max] - window)
  }

  /** The deque is the recent end of the log; what left it is out of the window. */
  predicate QueueIsRecent(c: Config, now: real, queue: seq<real>, log: seq<real>) {
    && |queue| <= |log| && |queue| <= c.max
    && queue == log[|log| - |queue|..]
    && (forall k :: 0 <= k < |log| - |queue| ==> log[k] <= now - c.window)
    && (log != [] ==> log[|log| - 1] <= now)
  }

  /** A sleeper waits for the stamp that was oldest when it computed its wait. */
  predicate SleeperOk(c: Config, log: seq<real>, p: Phase) {
    p.Sleeping? ==>
      0 < c.max <= p.grantsSeen <= |log| && p.until == log[p.grantsSeen - c.max] + c.window
  }

  predicate SleepersOk(c: Config, log: seq<real>, phases: seq<Phase>) {
    forall i :: 0 <= i < |phases| ==> SleeperOk(c, log, phases[i])
  }

  function PermitsHeld(phases: seq<Phase>): nat {
    if phases == [] then 0
    else PermitsHeld(phases[1..]) + if HasPermit(phases[0]) then 1 else 0
  }

  predicate PermitsAddUp(c: Config, s: State) {
    c.concurrency.Some? ==> s.permits + PermitsHeld(s.phases) == c.concurrency.value
  }

  predicate Good(c: Config, s: State) {
    && c.max > 0 && c.window > 0.0
    && Spaced(s.log, c.max, c.window)
    && QueueIsRecent(c, s.now, s.queue, s.log)
    && PermitsAddUp(c, s)
    && SleepersOk(c, s.log, s.phases)
  }

  lemma {:induction false} HeldAfterUpdate(phases: seq<Phase>, i: nat, p: Phase)
    requires i < |phases|
    ensures PermitsHeld(phases[i := p]) ==
      PermitsHeld(phases) + (if HasPermit(p) then 1 else 0) - (if HasPermit(phases[i]) then 1 else 0)
    decreases |phases|
  {
    hide HasPermit;
    if i == 0 {
      assert phases[i := p][1..] == phases[1..];
    } else {
      assert phases[i := p][1..] == phases[1..][i - 1 := p];
      HeldAfterUpdate(phases[1..], i - 1, p);
    }
  }

  /** What the critical section finds. */
  lemma AfterRolling(c: Config, now: real, queue: seq<real>, log: seq<real>)
    requires QueueIsRecent(c, now, queue, log)
    ensures var rolled := Roll(queue, now - c.window);
      QueueIsRecent(c, now, rolled, log) && (rolled != [] ==> rolled[0] > now - c.window)
  {
    var rolled := Roll(queue, now - c.window);
    RollStops(queue, now - c.window);
    var dropped := |log| - |queue|;
    forall k | 0 <= k < |log| - |rolled| ensures log[k] <= now - c.window {
      if k >= dropped {
        assert log[k] == queue[k - dropped];
      }
    }
  }

  lemma GrantIsSpaced(c: Config, now: real, queue: seq<real>, log: seq<real>)
    requires Spaced(log, c.max, c.window) && QueueIsRecent(c, now, queue, log) && |queue| < c.max
    ensures Spaced(log + [now], c.max, c.window)
  {
    var t := log + [now];
    forall k | 0 <= k < |t| - c.max ensures t[k] <= t[k + c.max] - c.window {
      if k == |log| - c.max {
        assert t[k] == log[k] && t[k + c.max] == now;
      } else {
        assert t[k] == log[k] && t[k + c.max] == log[k + c.max];
      }
    }
  }

  lemma OldestStamp(c: Config, now: real, queue: seq<real>, log: seq<real>)
    requires QueueIsRecent(c, now, queue, log) && queue != []
    ensures |queue| <= c.max && |queue| <= |log| && queue[0] == log[|log| - |queue|]
  {
  }

  lemma PushKeepsRecent(c: Config, now: real, queue: seq<real>, log: seq<real>)
    requires QueueIsRecent(c, now, queue, log) && |queue| < c.max
    ensures QueueIsRecent(c, now, queue + [now], log + [now])
  {
    var q, l := queue + [now], log + [now];
    assert q == l[|l| - |q|..];
    assert forall k :: 0 <= k < |log| ==> l[k] == log[k];
  }

  lemma SleepersStay(c: Config, log: seq<real>, phases: seq<Phase>, i: nat, log': seq<real>, p: Phase)
    requires SleepersOk(c, log, phases) && i < |phases|
    requires log <= log' && SleeperOk(c, log', p)
    ensures SleepersOk(c, log', phases[i := p])
  {
    var phases' := phases[i := p];
    forall j | 0 <= j < |phases'| ensures SleeperOk(c, log', phases'[j]) {
      if j != i {
        assert phases'[j] == phases[j] && SleeperOk(c, log, phases[j]);
      }
    }
  }

  lemma GrantKeeps(c: Config, s: State, i: nat, rolled: seq<real>)
    requires Good(c, s) && i < |s.phases| && HasPermit(s.phases[i])
    requires QueueIsRecent(c, s.now, rolled, s.log) && |rolled| < c.max
    ensures Good(c, s.(queue := rolled + [s.now], log := s.log + [s.now], phases := s.phases[i := Holding]))
  {
    hide Spaced, SleepersOk, QueueIsRecent, SleeperOk, PermitsHeld;
    HeldAfterUpdate(s.phases, i, Holding);
    GrantIsSpaced(c, s.now, rolled, s.log);
    PushKeepsRecent(c, s.now, rolled, s.log);
    HolderIsNoSleeper(c, s.log + [s.now]);
    SleepersStay(c, s.log, s.phases, i, s.log + [s.now], Holding);
  }

  lemma WaitKeeps(c: Config, s: State, i: nat, rolled: seq<real>)
    requires Good(c, s) && i < |s.phases| && HasPermit(s.phases[i])
    requires QueueIsRecent(c, s.now, rolled, s.log) && |rolled| >= c.max
    ensures var until := s.now + (rolled[0] + c.window - s.now);
      Good(c, s.(queue := rolled, phases := s.phases[i := Sleeping(until, |s.log|)]))
  {
    hide Spaced, SleepersOk, QueueIsRecent, SleeperOk, PermitsHeld;
    var p := Sleeping(s.now + (rolled[0] + c.window - s.now), |s.log|);
    HeldAfterUpdate(s.phases, i, p);
    NewSleeper(c, s.now, rolled, s.log);
    SleepersStay(c, s.log, s.phases, i, s.log, p);
  }

  lemma AttemptKeeps(c: Config, s: State, i: nat)
    requires Good(c, s) && Enabled(c, s, Attempt(i))
    ensures Good(c, Apply(c, s, Attempt(i)))
  {
    var rolled := Roll(s.queue, s.now - c.window);
    hide Roll, Spaced, SleepersOk, QueueIsRecent, PermitsAddUp;
    AfterRolling(c, s.now, s.queue, s.log);
    if |rolled| < c.max {
      GrantKeeps(c, s, i, rolled);
    } else {
      WaitKeeps(c, s, i, rolled);
    }
  }

  lemma HolderIsNoSleeper(c: Config, log: seq<real>)
    ensures SleeperOk(c, log, Holding)
  {
  }

  lemma NewSleeper(c: Config, now: real, rolled: seq<real>, log: seq<real>)
    requires QueueIsRecent(c, now, rolled, log) && |rolled| >= c.max > 0
    ensures SleeperOk(c, log, Sleeping(now + (rolled[0] + c.window - now), |log|))
  {
    hide QueueIsRecent;
    OldestStamp(c, now, rolled, log);
  }

  lemma StepKeeps(c: Config, s: State, e: Event)
    requires Good(c, s) && Enabled(c, s, e)
    ensures Good(c, Apply(c, s, e))
  {
    var t := Apply(c, s, e);
    match e {
      case Tick(_) =>
      case Attempt(i) => AttemptKeeps(c, s, i);
      case _ =>
        HeldAfterUpdate(s.phases, e.i, t.phases[e.i]);
        hide Spaced, QueueIsRecent, SleepersOk;
        SleepersStay(c, s.log, s.phases, e.i, s.log, t.phases[e.i]);
    }
  }

  lemma {:induction false} RunKeeps(c: Config, s: State, es: seq<Event>)
    requires Good(c, s) && IsRun(c, s, es)
    ensures Good(c, After(c, s, es))
    decreases |es|
  {
    if es != [] {
      hide Good, Apply, Enabled;
      StepKeeps(c, s, es[0]);
      RunKeeps(c, Apply(c, s, es[0]), es[1..]);
    }
  }

  lemma {:induction false} StartIsGood(c: Config, s: State)
    requires IsStart(c, s) && c.max > 0 && c.window > 0.0
    ensures Good(c, s)
  {
    NobodyHolds(s.phases);
  }

  lemma {:induction false} NobodyHolds(phases: seq<Phase>)
    requires forall i :: 0 <= i < |phases| ==> phases[i] == NeedsPermit
    ensures PermitsHeld(phases) == 0
    decreases |phases|
  {
    if phases != [] {
      NobodyHolds(phases[1..]);
    }
  }

  // ---- the window ----

  /** How many times lie in the half-open window `(lo, hi]`. */
  function CountIn(log: seq<real>, lo: real, hi: real): nat {
    if log == [] then 0 else CountIn(log[1..], lo, hi) + if lo < log[0] <= hi then 1 else 0
  }

  lemma {:induction false} CountSplit(a: seq<real>, b: seq<real>, lo: real, hi: real)
    ensures CountIn(a + b, lo, hi) == CountIn(a, lo, hi) + CountIn(b, lo, hi)
    ensures CountIn(a, lo, hi) <= |a|
    decreases |a|
  {
    if a == [] {
      assert a + b == b;
    } else {
      assert (a + b)[1..] == a[1..] + b;
      CountSplit(a[1..], b, lo, hi);
    }
  }

  lemma {:induction false} CountBeyond(log: seq<real>, lo: real, hi: real)
    requires forall k :: 0 <= k < |log| ==> log[k] > hi
    ensures CountIn(log, lo, hi) == 0
    decreases |log|
  {
    if log != [] {
      CountBeyond(log[1..], lo, hi);
    }
  }

  lemma {:induction false} SortedFrom(log: seq<real>, j: nat, k: nat)
    requires forall i :: 0 < i < |log| ==> log[i - 1] <= log[i]
    requires j <= k < |log|
    ensures log[j] <= log[k]
    decreases k
  {
    if j < k {
      SortedFrom(log, j, k - 1);
    }
  }

  lemma LaterIsBeyond(log: seq<real>, max: nat, window: real, t: real)
    requires Spaced(log, max, window) && |log| > max && log[0] > t - window
    ensures forall k :: 0 <= k < |log| - max ==> log[max..][k] > t
  {
    assert log[0] <= log[max] - window;
    forall k | 0 <= k < |log| - max ensures log[max..][k] > t {
      SortedFrom(log, max, max + k);
    }
  }

  lemma {:induction false} SpacedMeansFew(log: seq<real>, max: nat, window: real, t: real)
    requires Spaced(log, max, window) && max > 0
    ensures CountIn(log, t - window, t) <= max
    decreases |log|
  {
    if log == [] {
    } else if log[0] <= t - window {
      SpacedMeansFew(log[1..], max, window, t);
    } else if |log| > max {
      LaterIsBeyond(log, max, window, t);
      hide Spaced;
      CountBeyond(log[max..], t - window, t);
      CountSplit(log[..max], log[max..], t - window, t);
      assert log == log[..max] + log[max..];
    } else {
      CountSplit(log, [], t - window, t);
    }
  }

  /** In every run, however the acquirers interleave and get cancelled, every half-open
      window holds at most `max` grants, and permits are neither lost nor made up. */
  lemma RateHolds(c: Config, s: State, es: seq<Event>, t: real)
    requires IsStart(c, s) && c.max > 0 && c.window > 0.0 && IsRun(c, s, es)
    ensures CountIn(After(c, s, es).log, t - c.window, t) <= c.max
    ensures PermitsAddUp(c, After(c, s, es))
  {
    StartIsGood(c, s);
    RunKeeps(c, s, es);
    SpacedMeansFew(After(c, s, es).log, c.max, c.window, t);
  }

  // ---- the closed window ----

  function CountClosed(log: seq<real>, lo: real, hi: real): nat {
    if log == [] then 0 else CountClosed(log[1..], lo, hi) + if lo <= log[0] <= hi then 1 else 0
  }

  function CountAt(log: seq<real>, t: real): nat {
    if log == [] then 0 else CountAt(log[1..], t) + if log[0] == t then 1 else 0
  }

  lemma {:induction false} ClosedSplits(log: seq<real>, lo: real, hi: real, before: real)
    requires before < lo <= hi
    ensures CountClosed(log, lo, hi) == CountAt(log, lo) + CountIn(log, lo, hi)
    ensures CountAt(log, lo) <= CountIn(log, before, lo)
    decreases |log|
  {
    if log != [] {
      ClosedSplits(log[1..], lo, hi, before);
    }
  }

  /** A closed window holds more than `max` grants exactly when there are more of them at its
      open end than the half-open window leaves room for, and never more than twice `max`. */
  lemma ClosedWindowHolds(c: Config, s: State, es: seq<Event>, t: real)
    requires IsStart(c, s) && c.max > 0 && c.window > 0.0 && IsRun(c, s, es)
    ensures var log := After(c, s, es).log;
      && CountClosed(log, t - c.window, t) <= 2 * c.max
      && (CountClosed(log, t - c.window, t) > c.max
          <==> CountAt(log, t - c.window) > c.max - CountIn(log, t - c.window, t))
  {
    RateHolds(c, s, es, t);
    RateHolds(c, s, es, t - c.window);
    ClosedSplits(After(c, s, es).log, t - c.window, t, t - c.window - c.window);
  }

  function Times(k: nat, t: real): seq<real> {
    seq(k, _ => t)
  }

  /** `k` acquirers, each taking a permit and trying once. */
  function Burst(first: nat, k: nat): seq<Event>
    decreases k
  {
    if k == 0 then [] else [TakePermit(first), Attempt(first)] + Burst(first + 1, k - 1)
  }

  lemma {:induction false} RunAppend(c: Config, s: State, a: seq<Event>, b: seq<Event>)
    requires IsRun(c, s, a) && IsRun(c, After(c, s, a), b)
    ensures IsRun(c, s, a + b) && After(c, s, a + b) == After(c, After(c, s, a), b)
    decreases |a|
  {
    hide Apply, Enabled;
    if a == [] {
      assert a + b == b;
    } else {
      assert (a + b)[1..] == a[1..] + b && (a + b)[0] == a[0];
      RunAppend(c, Apply(c, s, a[0]), a[1..], b);
    }
  }

  predicate AreFresh(s: State, first: nat, k: nat) {
    first + k <= |s.phases| && forall i :: first <= i < first + k ==> s.phases[i] == NeedsPermit
  }

  lemma {:induction false} RollAppend(ts: seq<real>, cutoff: real, now: real)
    requires now > cutoff
    ensures Roll(ts + [now], cutoff) == Roll(ts, cutoff) + [now]
    ensures Roll(Roll(ts, cutoff), cutoff) == Roll(ts, cutoff)
    decreases |ts|
  {
    if ts == [] {
      assert ts + [now] == [now];
    } else {
      assert (ts + [now])[1..] == ts[1..] + [now];
      RollAppend(ts[1..], cutoff, now);
    }
  }

  lemma GrantNext(c: Config, s: State, first: nat, k: nat)
    requires c.max > 0 && c.window > 0.0 && c.concurrency == None && k > 0 && AreFresh(s, first, k)
    requires |Roll(s.queue, s.now - c.window)| < c.max
    ensures var es := [TakePermit(first), Attempt(first)];
      && IsRun(c, s, es)
      && var t := After(c, s, es);
         && t.now == s.now && t.log == s.log + [s.now] && |t.phases| == |s.phases|
         && Roll(t.queue, t.now - c.window) == Roll(s.queue, s.now - c.window) + [s.now]
         && forall i :: first < i < |s.phases| ==> t.phases[i] == s.phases[i]
  {
    var take, attempt := TakePermit(first), Attempt(first);
    TwoSteps(c, s, take, attempt);
    var rolled := Roll(s.queue, s.now - c.window);
    RollAppend(s.queue, s.now - c.window, s.now);
    RollAppend(rolled, s.now - c.window, s.now);
    hide IsRun, After, Roll;
    var s1 := Apply(c, s, take);
    assert Apply(c, s1, attempt).queue == rolled + [s.now];
  }

  lemma TwoSteps(c: Config, s: State, a: Event, b: Event)
    requires Enabled(c, s, a) && Enabled(c, Apply(c, s, a), b)
    ensures IsRun(c, s, [a, b]) && After(c, s, [a, b]) == Apply(c, Apply(c, s, a), b)
  {
    hide Apply, Enabled;
    var t := Apply(c, s, a);
    assert [a, b][1..] == [b] && [b][1..] == [];
    assert IsRun(c, t, [b]) && After(c, t, [b]) == Apply(c, t, b);
  }

  lemma {:induction false} BurstIsGranted(c: Config, s: State, first: nat, k: nat)
    requires c.max > 0 && c.window > 0.0 && c.concurrency == None && AreFresh(s, first, k)
    requires |Roll(s.queue, s.now - c.window)| + k <= c.max
    ensures IsRun(c, s, Burst(first, k))
    ensures var t := After(c, s, Burst(first, k));
      && t.now == s.now && t.log == s.log + Times(k, s.now) && |t.phases| == |s.phases|
      && Roll(t.queue, t.now - c.window) == Roll(s.queue, s.now - c.window) + Times(k, s.now)
      && forall i :: first + k <= i < |s.phases| ==> t.phases[i] == s.phases[i]
    decreases k
  {
    hide Roll, Apply, Enabled;
    if k > 0 {
      var es := [TakePermit(first), Attempt(first)];
      GrantNext(c, s, first, k);
      var t := After(c, s, es);
      BurstIsGranted(c, t, first + 1, k - 1);
      RunAppend(c, s, es, Burst(first + 1, k - 1));
      assert [s.now] + Times(k - 1, s.now) == Times(k, s.now);
      TakeSome(s.log, [s.now], Times(k - 1, s.now));
      TakeSome(Roll(s.queue, s.now - c.window), [s.now], Times(k - 1, s.now));
    }
  }

  lemma {:induction false} RollAll(k: nat, t: real, cutoff: real)
    requires t <= cutoff
    ensures Roll(Times(k, t), cutoff) == []
    decreases k
  {
    if k > 0 {
      assert Times(k, t)[1..] == Times(k - 1, t);
      RollAll(k - 1, t, cutoff);
    }
  }

  lemma {:induction false} CountTimes(k: nat, t: real, lo: real, hi: real)
    requires lo <= t <= hi
    ensures CountClosed(Times(k, t), lo, hi) == k
    decreases k
  {
    if k > 0 {
      assert Times(k, t)[1..] == Times(k - 1, t);
      CountTimes(k - 1, t, lo, hi);
    }
  }

  lemma {:induction false} CountClosedAppend(a: seq<real>, b: seq<real>, lo: real, hi: real)
    ensures CountClosed(a + b, lo, hi) == CountClosed(a, lo, hi) + CountClosed(b, lo, hi)
    decreases |a|
  {
    if a == [] {
      assert a + b == b;
    } else {
      assert (a + b)[1..] == a[1..] + b;
      CountClosedAppend(a[1..], b, lo, hi);
    }
  }

  /** For every `max`, a burst at the start and another one window later put twice `max` grants
      into a closed window. */
  lemma ClosedWindowCanHoldTwice(max: nat, window: real)
    requires max > 0 && window > 0.0
    ensures var c, s := Config(max, window, None), State(0.0, [], [], 0, seq(2 * max, _ => NeedsPermit));
      var es := Burst(0, max) + [Tick(window)] + Burst(max, max);
      && IsStart(c, s) && IsRun(c, s, es)
      && CountClosed(After(c, s, es).log, 0.0, window) == 2 * max
  {
    var c, s := Config(max, window, None), State(0.0, [], [], 0, seq(2 * max, _ => NeedsPermit));
    assert Roll([], 0.0 - window) == [];
    hide Roll, Enabled, CountClosed;
    BurstIsGranted(c, s, 0, max);
    var s1 := After(c, s, Burst(0, max));
    LaterIsFree(c, s1, max);
    var s2 := After(c, s1, [Tick(window)]);
    RunAppend(c, s, Burst(0, max), [Tick(window)]);
    BurstIsGranted(c, s2, max, max);
    RunAppend(c, s, Burst(0, max) + [Tick(window)], Burst(max, max));
    CountTimes(max, 0.0, 0.0, window);
    CountTimes(max, window, 0.0, window);
    CountClosedAppend(Times(max, 0.0), Times(max, window), 0.0, window);
    assert [] + Times(max, 0.0) == Times(max, 0.0);
  }

  lemma LaterIsFree(c: Config, s: State, k: nat)
    requires c.window > 0.0 && Roll(s.queue, s.now - c.window) == Times(k, s.now)
    ensures var es := [Tick(c.window)];
      && IsRun(c, s, es)
      && After(c, s, es) == s.(now := s.now + c.window)
      && Roll(s.queue, s.now) == []
  {
    assert [Tick(c.window)][1..] == [];
    RollFurther(s.queue, s.now - c.window, s.now);
    RollAll(k, s.now, s.now);
  }

  lemma {:induction false} RollFurther(ts: seq<real>, a: real, b: real)
    requires a <= b
    ensures Roll(Roll(ts, a), b) == Roll(ts, b)
    decreases |ts|
  {
    if ts != [] && ts[0] <= a {
      RollFurther(ts[1..], a, b);
    }
  }

  // ---- waiting ----

  /** A computed wait is positive and at most one window. */
  lemma WaitIsShort(c: Config, s: State)
    requires Good(c, s)
    ensures var outcome := Admission(Roll(s.queue, s.now - c.window), c.max, c.window, s.now);
      outcome.Wait? ==> 0.0 < outcome.seconds <= c.window
  {
    AfterRolling(c, s.now, s.queue, s.log);
    var rolled := Roll(s.queue, s.now - c.window);
    if |rolled| >= c.max {
      assert Spaced(s.log, c.max, c.window) && rolled[0] == s.log[|s.log| - |rolled|];
      SortedFrom(s.log, |s.log| - |rolled|, |s.log| - 1);
    }
  }

  /** A sleeper whose time has come finds the stamp it waited for expired; if nobody was
      granted meanwhile, it is granted now. */
  lemma SleeperFindsRoom(c: Config, s: State, i: nat)
    requires Good(c, s) && i < |s.phases| && s.phases[i].Sleeping? && s.now >= s.phases[i].until
    ensures var p, t := s.phases[i], Apply(c, s, Attempt(i));
      s.log[p.grantsSeen - c.max] <= s.now - c.window
      && |t.log| - |t.queue| > p.grantsSeen - c.max
      && (|s.log| == p.grantsSeen ==> t.phases[i] == Holding)
  {
    hide QueueIsRecent;
    var p := s.phases[i];
    var k := p.grantsSeen - c.max;
    assert SleeperOk(c, s.log, p);
    AfterRolling(c, s.now, s.queue, s.log);
    var rolled := Roll(s.queue, s.now - c.window);
    hide Roll;
    if rolled != [] {
      OldestStamp(c, s.now, rolled, s.log);
      InOrder(s.log, |s.log| - |rolled|, k);
    }
  }

  lemma InOrder(log: seq<real>, j: nat, k: nat)
    requires forall i :: 0 < i < |log| ==> log[i - 1] <= log[i]
    requires j < |log| && k < |log|
    ensures j <= k ==> log[j] <= log[k]
  {
    if j <= k {
      SortedFrom(log, j, k);
    }
  }
}
