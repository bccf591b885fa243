/** Concurrent requests over one LSP connection: one reader at a time holds the read lock,
    and a response read on behalf of somebody else is stashed for its owner. The lock is
    first come, first served. */
module LspDemux {

  type Body = string

  /** Requests are numbered from 0 here; on the wire request `n` carries id `n + 1`. */
  datatype Message = Response(to: nat, body: Body) | Notification

  /** Where a caller stands inside `_await_response`. */
  datatype Place =
    | Looking            // top of the loop: about to check the stash
    | Queued             // waiting for the read lock
    | Locked             // holds the lock, about to check the stash again
    | Reading            // holds the lock, waiting for the transport
    | Returned(message: Message)

  datatype State = State(
    callers: seq<Place>,
    queue: seq<nat>,
    holder: int,                    // lock holder, or -1
    stash: map<nat, Message>,
    wire: seq<Message>,
    answers: map<nat, Body>)        // what the server has answered so far

  const INITIAL := State([], [], -1, map[], [], map[])

  // ---- steps ----

  /** A caller takes the next id and sends its request. */
  predicate Request(s: State, t: State) {
    t == s.(callers := s.callers + [Looking])
  }

  /** The server answers a pending request, once. */
  predicate Answer(s: State, t: State, n: nat, body: Body) {
    n < |s.callers| && n !in s.answers &&
    t == s.(wire := s.wire + [Response(n, body)], answers := s.answers[n := body])
  }

  predicate Notify(s: State, t: State) {
    t == s.(wire := s.wire + [Notification])
  }

  predicate Look(s: State, t: State, n: nat) {
    n < |s.callers| && s.callers[n] == Looking &&
    t == if n in s.stash then
           s.(callers := s.callers[n := Returned(s.stash[n])], stash := s.stash - {n})
         else if s.holder == -1 && s.queue == [] then
           s.(callers := s.callers[n := Locked], holder := n)
         else
           s.(callers := s.callers[n := Queued], queue := s.queue + [n])
  }

  /** The lock is free and goes to the first in the queue. */
  predicate Grant(s: State, t: State) {
    s.holder == -1 && s.queue != [] && s.queue[0] < |s.callers| &&
    t == s.(callers := s.callers[s.queue[0] := Locked], holder := s.queue[0], queue := s.queue[1..])
  }

  predicate Recheck(s: State, t: State, n: nat) {
    n < |s.callers| && s.callers[n] == Locked &&
    t == if n in s.stash then
           s.(callers := s.callers[n := Returned(s.stash[n])], stash := s.stash - {n}, holder := -1)
         else
           s.(callers := s.callers[n := Reading])
  }

  predicate Receive(s: State, t: State, n: nat) {
    n < |s.callers| && s.callers[n] == Reading && s.wire != [] &&
    var m := s.wire[0];
    t == if m.Response? && m.to == n then
           s.(callers := s.callers[n := Returned(m)], wire := s.wire[1..], holder := -1)
         else if m.Response? then
           s.(callers := s.callers[n := Looking], wire := s.wire[1..], stash := s.stash[m.to := m], holder := -1)
         else
           s.(callers := s.callers[n := Looking], wire := s.wire[1..], holder := -1)
  }

  /** Steps of the client; the rest are new requests and the server's doing. */
  ghost predicate ClientStep(s: State, t: State) {
    (exists n :: Look(s, t, n)) || Grant(s, t) || (exists n :: Recheck(s, t, n)) || (exists n :: Receive(s, t, n))
  }

  ghost predicate Step(s: State, t: State) {
    ClientStep(s, t) || Request(s, t) || Notify(s, t) || exists n, body :: Answer(s, t, n, body)
  }

  ghost predicate IsRun(run: seq<State>) {
    run != [] && run[0] == INITIAL && forall i {:trigger run[i]} :: 0 < i < |run| ==> Step(run[i - 1], run[i])
  }

  // ---- conservation of responses ----

  function OnWire(wire: seq<Message>, n: nat): nat {
    if wire == [] then 0
    else (if wire[0].Response? && wire[0].to == n then 1 else 0) + OnWire(wire[1..], n)
  }

  lemma {:induction false} OnWireAppend(wire: seq<Message>, m: Message, n: nat)
    ensures OnWire(wire + [m], n) == OnWire(wire, n) + if m.Response? && m.to == n then 1 else 0
  {
    if wire != [] {
      assert (wire + [m])[1..] == wire[1..] + [m];
      OnWireAppend(wire[1..], m, n);
    }
  }

  function Copies(s: State, n: nat): nat {
    OnWire(s.wire, n) + (if n in s.stash then 1 else 0) +
    (if n < |s.callers| && s.callers[n].Returned? then 1 else 0)
  }

  /** An answer exists in exactly one place: on the wire, in the stash, or returned to the
      caller it is for. Without an answer there is nothing anywhere. */
  ghost predicate Conserved(s: State, n: nat) {
    Copies(s, n) == (if n in s.answers then 1 else 0) &&
    (n in s.answers ==> n < |s.callers|)
  }

  ghost predicate Genuine(s: State, m: Message, n: nat) {
    n in s.answers && m == Response(n, s.answers[n])
  }

  ghost predicate AllGenuine(s: State) {
    (forall m :: m in s.wire && m.Response? ==> Genuine(s, m, m.to)) &&
    (forall n :: n in s.stash ==> Genuine(s, s.stash[n], n)) &&
    (forall n :: 0 <= n < |s.callers| && s.callers[n].Returned? ==> Genuine(s, s.callers[n].message, n))
  }

  /** One lock: its holder is the caller past the queue, queued callers are in the queue. */
  ghost predicate LockKept(s: State) {
    -1 <= s.holder < |s.callers| &&
    (forall n :: 0 <= n < |s.callers| ==> ((s.callers[n].Locked? || s.callers[n].Reading?) <==> n == s.holder)) &&
    (forall n :: n in s.queue ==> n < |s.callers| && s.callers[n].Queued?) &&
    (forall n :: 0 <= n < |s.callers| && s.callers[n].Queued? ==> n in s.queue) &&
    (forall i, j :: 0 <= i < j < |s.queue| ==> s.queue[i] != s.queue[j])
  }

  /** Nobody waits on the transport while their own response is stashed. */
  ghost predicate NoBlindReader(s: State) {
    forall n :: 0 <= n < |s.callers| && s.callers[n].Reading? ==> n !in s.stash
  }

  ghost predicate Kept(s: State) {
    (forall n: nat {:trigger Conserved(s, n)} :: Conserved(s, n)) && AllGenuine(s) && LockKept(s) && NoBlindReader(s)
  }

  lemma ConservedByAnswer(s: State, t: State, n: nat, body: Body, k: nat)
    requires Conserved(s, k) && Answer(s, t, n, body)
    ensures Conserved(t, k)
  {
    OnWireAppend(s.wire, Response(n, body), k);
  }

  lemma ConservedByNotify(s: State, t: State, k: nat)
    requires Conserved(s, k) && Notify(s, t)
    ensures Conserved(t, k)
  {
    OnWireAppend(s.wire, Notification, k);
  }

  lemma AnswerKeeps(s: State, t: State, n: nat, body: Body)
    requires Kept(s) && Answer(s, t, n, body)
    ensures Kept(t)
  {
    forall k: nat ensures Conserved(t, k) {
      assert Conserved(s, k);
      ConservedByAnswer(s, t, n, body, k);
    }
    assert AllGenuine(t) by {
      forall m | m in t.wire && m.Response? ensures Genuine(t, m, m.to) {
        if m in s.wire { assert Genuine(s, m, m.to); }
      }
    }
  }

  lemma OutsideKeeps(s: State, t: State)
    requires Kept(s) && (Request(s, t) || Notify(s, t))
    ensures Kept(t)
  {
    forall k: nat ensures Conserved(t, k) {
      assert Conserved(s, k);
      if Notify(s, t) { ConservedByNotify(s, t, k); }
    }
    forall m | m in t.wire && m.Response? ensures Genuine(t, m, m.to) {
      assert m in s.wire;
    }
  }

  lemma LookKeeps(s: State, t: State, n: nat)
    requires Kept(s) && Look(s, t, n)
    ensures Kept(t)
  {
    forall k: nat ensures Conserved(t, k) { assert Conserved(s, k); }
    LookKeepsLock(s, t, n);
    hide LockKept, Conserved;
    assert AllGenuine(t);
  }

  lemma LookKeepsLock(s: State, t: State, n: nat)
    requires LockKept(s) && Look(s, t, n)
    ensures LockKept(t)
  {
    assert n !in s.queue;
  }

  lemma GrantKeeps(s: State, t: State)
    requires Kept(s) && Grant(s, t)
    ensures Kept(t)
  {
    forall k: nat ensures Conserved(t, k) { assert Conserved(s, k); }
    assert s.queue[0] in s.queue;
    assert AllGenuine(t);
    assert LockKept(t) by {
      forall n | n in t.queue ensures n in s.queue && n != s.queue[0] {
        var i :| 0 <= i < |t.queue| && t.queue[i] == n;
        assert s.queue[i + 1] == n;
      }
      forall n | 0 <= n < |t.callers| && t.callers[n].Queued? ensures n in t.queue {
        assert n in s.queue;
        var i :| 0 <= i < |s.queue| && s.queue[i] == n;
        assert t.queue[i - 1] == n;
      }
    }
  }

  lemma RecheckKeeps(s: State, t: State, n: nat)
    requires Kept(s) && Recheck(s, t, n)
    ensures Kept(t)
  {
    forall k: nat ensures Conserved(t, k) { assert Conserved(s, k); }
    assert AllGenuine(t);
    assert n == s.holder;
    assert LockKept(t);
  }

  lemma ReceiveKeeps(s: State, t: State, n: nat)
    requires Kept(s) && Receive(s, t, n)
    ensures Kept(t)
  {
    var m := s.wire[0];
    assert m in s.wire;
    forall k: nat ensures Conserved(t, k) { assert Conserved(s, k); }
    assert AllGenuine(t) by {
      forall x | x in t.wire ensures x in s.wire { }
    }
    assert n == s.holder;
    assert LockKept(t);
  }

  lemma StepKeeps(s: State, t: State)
    requires Kept(s) && Step(s, t)
    ensures Kept(t)
  {
    hide Kept;
    if n, body :| Answer(s, t, n, body) {
      AnswerKeeps(s, t, n, body);
    } else if Request(s, t) || Notify(s, t) {
      OutsideKeeps(s, t);
    } else if n :| Look(s, t, n) {
      LookKeeps(s, t, n);
    } else if Grant(s, t) {
      GrantKeeps(s, t);
    } else if n :| Recheck(s, t, n) {
      RecheckKeeps(s, t, n);
    } else {
      var n :| Receive(s, t, n);
      ReceiveKeeps(s, t, n);
    }
  }

  /** In every interleaving, at every moment: each answer is in exactly one place, what a
      caller returns is the answer to its own request, and no reader is blind. */
  lemma {:induction false} RunKeeps(run: seq<State>, i: nat)
    requires IsRun(run) && i < |run|
    ensures Kept(run[i])
  {
    if i > 0 {
      RunKeeps(run, i - 1);
      StepKeeps(run[i - 1], run[i]);
    }
  }

  // ---- progress ----

  ghost predicate Quiet(s: State) {
    forall t :: !ClientStep(s, t)
  }

  /** When the client can do nothing more, an answered request is still unreturned exactly
      when its response is stashed and it is queued for the lock behind a reader that waits
      on an empty wire. */
  lemma QuietMeansDeliveredOrBehindReader(s: State, n: nat)
    requires Kept(s) && Quiet(s) && n in s.answers && n < |s.callers|
    ensures !s.callers[n].Returned? <==>
      n in s.stash && s.callers[n].Queued? && 0 <= s.holder < |s.callers| && s.callers[s.holder].Reading? && s.wire == []
  {
    assert Conserved(s, n);
    assert !exists t :: ClientStep(s, t);
    NothingLooks(s, n);
    HolderReadsEmptyWire(s);
    if s.holder == -1 {
      QueueIsEmpty(s);
    }
  }

  lemma NothingLooks(s: State, n: nat)
    requires Quiet(s) && n < |s.callers|
    ensures !s.callers[n].Looking? && !s.callers[n].Locked?
  {
    if s.callers[n].Looking? {
      var t := if n in s.stash then
           s.(callers := s.callers[n := Returned(s.stash[n])], stash := s.stash - {n})
         else if s.holder == -1 && s.queue == [] then
           s.(callers := s.callers[n := Locked], holder := n)
         else
           s.(callers := s.callers[n := Queued], queue := s.queue + [n]);
      assert Look(s, t, n);
      assert ClientStep(s, t);
    }
    if s.callers[n].Locked? {
      var t := if n in s.stash then
           s.(callers := s.callers[n := Returned(s.stash[n])], stash := s.stash - {n}, holder := -1)
         else
           s.(callers := s.callers[n := Reading]);
      assert Recheck(s, t, n);
      assert ClientStep(s, t);
    }
  }

  lemma QueueIsEmpty(s: State)
    requires Quiet(s) && LockKept(s) && s.holder == -1
    ensures s.queue == []
  {
    if s.queue != [] {
      assert s.queue[0] in s.queue;
      var t := s.(callers := s.callers[s.queue[0] := Locked], holder := s.queue[0], queue := s.queue[1..]);
      assert Grant(s, t);
      assert ClientStep(s, t);
    }
  }

  lemma HolderReadsEmptyWire(s: State)
    requires Quiet(s) && LockKept(s)
    ensures s.holder != -1 ==> s.callers[s.holder].Reading? && s.wire == []
  {
    if s.holder != -1 {
      var n := s.holder;
      NothingLooks(s, n);
      if s.wire != [] {
        var m := s.wire[0];
        var t := if m.Response? && m.to == n then
           s.(callers := s.callers[n := Returned(m)], wire := s.wire[1..], holder := -1)
         else if m.Response? then
           s.(callers := s.callers[n := Looking], wire := s.wire[1..], stash := s.stash[m.to := m], holder := -1)
         else
           s.(callers := s.callers[n := Looking], wire := s.wire[1..], holder := -1);
        assert Receive(s, t, n);
        assert ClientStep(s, t);
      }
    }
  }

  /** Once every request has been answered, a client that can do nothing more has returned
      every answer. */
  lemma AllAnsweredMeansAllReturned(s: State)
    requires Kept(s) && Quiet(s)
    requires forall n :: 0 <= n < |s.callers| ==> n in s.answers
    ensures forall n :: 0 <= n < |s.callers| ==> s.callers[n] == Returned(Response(n, s.answers[n]))
  {
    HolderIsUnanswered(s);
    forall n | 0 <= n < |s.callers| ensures s.callers[n] == Returned(Response(n, s.answers[n])) {
      QuietMeansDeliveredOrBehindReader(s, n);
      if s.callers[n].Returned? { assert Genuine(s, s.callers[n].message, n); }
    }
  }

  /** In a quiet client, whoever holds the lock is waiting for an answer not yet given. */
  lemma HolderIsUnanswered(s: State)
    requires Kept(s) && Quiet(s)
    ensures s.holder != -1 ==> s.holder !in s.answers
  {
    HolderReadsEmptyWire(s);
    if s.holder != -1 {
      assert Conserved(s, s.holder);
    }
  }

  // ---- the client cannot run on its own for ever ----

  function Rank(p: Place): nat {
    match p
    case Looking => 3
    case Queued => 2
    case Locked => 1
    case Reading => 0
    case Returned(_) => 0
  }

  function Ranks(callers: seq<Place>): nat {
    if callers == [] then 0 else Rank(callers[0]) + Ranks(callers[1..])
  }

  lemma {:induction false} RanksUpdate(callers: seq<Place>, n: nat, p: Place)
    requires n < |callers|
    ensures Ranks(callers[n := p]) == Ranks(callers) - Rank(callers[n]) + Rank(p)
  {
    if n == 0 {
      assert callers[0 := p][1..] == callers[1..];
    } else {
      assert callers[n := p][1..] == callers[1..][n - 1 := p];
      RanksUpdate(callers[1..], n - 1, p);
    }
  }

  function Fuel(s: State): nat {
    4 * |s.wire| + Ranks(s.callers)
  }

  /** Every client step uses up fuel that only new requests and new messages supply. */
  lemma ClientStepBurnsFuel(s: State, t: State)
    requires LockKept(s) && ClientStep(s, t)
    ensures Fuel(t) < Fuel(s)
  {
    hide Ranks;
    if n: nat :| Look(s, t, n) {
      RanksUpdate(s.callers, n, t.callers[n]);
    } else if Grant(s, t) {
      assert s.queue[0] in s.queue;
      RanksUpdate(s.callers, s.queue[0], Locked);
    } else if n: nat :| Recheck(s, t, n) {
      RanksUpdate(s.callers, n, t.callers[n]);
    } else {
      var n: nat :| Receive(s, t, n);
      RanksUpdate(s.callers, n, t.callers[n]);
    }
  }

  lemma RunExtends(run: seq<State>, t: State) returns (longer: seq<State>)
    requires IsRun(run) && Step(run[|run| - 1], t)
    ensures IsRun(longer) && longer[|longer| - 1] == t
  {
    longer := run + [t];
    forall i | 0 < i < |longer| ensures Step(longer[i - 1], longer[i]) {
      if i < |run| { assert Step(run[i - 1], run[i]); }
    }
  }

  /** Head-of-line waiting is real: with three callers, the second one's response can sit in
      the stash while the third, granted the lock first, waits on an empty wire. */
  lemma StashedResponseCanWait() returns (run: seq<State>)
    ensures IsRun(run)
    ensures var s := run[|run| - 1];
      |s.callers| == 3 && s.stash == map[1 := Response(1, "one")] && s.callers[1] == Queued &&
      s.callers[2] == Reading && s.holder == 2 && s.wire == []
  {
    run := OneReaderTwoQueued();
    hide IsRun;
    var s7 := run[|run| - 1];
    var s8 := s7.(wire := [Response(1, "one")], answers := map[1 := "one"]);
    assert Answer(s7, s8, 1, "one");
    run := RunExtends(run, s8);
    var s9 := s8.(callers := [Looking, Queued, Queued], wire := [], stash := map[1 := Response(1, "one")], holder := -1);
    assert Receive(s8, s9, 0);
    run := RunExtends(run, s9);
    var s10 := s9.(callers := [Looking, Queued, Locked], holder := 2, queue := [1]);
    assert Grant(s9, s10);
    run := RunExtends(run, s10);
    var s11 := s10.(callers := [Looking, Queued, Reading]);
    assert Recheck(s10, s11, 2);
    run := RunExtends(run, s11);
  }

  lemma OneReaderTwoQueued() returns (run: seq<State>)
    ensures IsRun(run)
    ensures run[|run| - 1] == State([Reading, Queued, Queued], [2, 1], 0, map[], [], map[])
  {
    run := ThreeCallers();
    var s3 := run[|run| - 1];
    var s4 := s3.(callers := [Locked, Looking, Looking], holder := 0);
    assert Look(s3, s4, 0);
    run := RunExtends(run, s4);
    var s5 := s4.(callers := [Reading, Looking, Looking]);
    assert Recheck(s4, s5, 0);
    run := RunExtends(run, s5);
    var s6 := s5.(callers := [Reading, Looking, Queued], queue := [2]);
    assert Look(s5, s6, 2);
    run := RunExtends(run, s6);
    var s7 := s6.(callers := [Reading, Queued, Queued], queue := [2, 1]);
    assert Look(s6, s7, 1);
    run := RunExtends(run, s7);
  }

  lemma ThreeCallers() returns (run: seq<State>)
    ensures IsRun(run)
    ensures run[|run| - 1] == State([Looking, Looking, Looking], [], -1, map[], [], map[])
  {
    var s1 := INITIAL.(callers := [Looking]);
    assert Request(INITIAL, s1);
    run := RunExtends([INITIAL], s1);
    var s2 := s1.(callers := [Looking, Looking]);
    assert Request(s1, s2);
    run := RunExtends(run, s2);
    var s3 := s2.(callers := [Looking, Looking, Looking]);
    assert Request(s2, s3);
    run := RunExtends(run, s3);
  }
}
