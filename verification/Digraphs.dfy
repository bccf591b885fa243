/** Directed graphs as values: walks, cycles, dependency orders.

    Everything the wiring graph promises is stated here without reference to any
    algorithm, so the sorting and cycle-finding code is measured against it. */
module Digraphs {
  import opened Names

  datatype Digraph = Digraph(nodes: set<Name>, edges: set<(Name, Name)>) {
    ghost predicate Valid() {
      forall e :: e in edges ==> e.0 in nodes && e.1 in nodes
    }

    function Pred(n: Name): set<Name> {
      set m | m in nodes && (m, n) in edges
    }

    function Succ(n: Name): set<Name> {
      set m | m in nodes && (n, m) in edges
    }
  }

  // ---- walks and cycles ----

  ghost predicate StepAt(g: Digraph, w: seq<Name>, i: nat)
    requires i + 1 < |w|
  {
    (w[i], w[i + 1]) in g.edges
  }

  ghost predicate IsWalk(g: Digraph, w: seq<Name>) {
    w != [] && w[0] in g.nodes && forall i: nat :: i + 1 < |w| ==> StepAt(g, w, i)
  }

  ghost predicate WalkFromTo(g: Digraph, w: seq<Name>, a: Name, b: Name) {
    IsWalk(g, w) && w[0] == a && w[|w| - 1] == b
  }

  ghost predicate Reaches(g: Digraph, a: Name, b: Name) {
    exists w :: WalkFromTo(g, w, a, b)
  }

  ghost predicate IsCycle(g: Digraph, w: seq<Name>) {
    |w| >= 2 && IsWalk(g, w) && w[0] == w[|w| - 1]
  }

  /** A closed walk that repeats no node except its end point. */
  ghost predicate IsSimpleCycle(g: Digraph, w: seq<Name>) {
    IsCycle(g, w) && Distinct(w[..|w| - 1])
  }

  ghost predicate OnCycle(g: Digraph, n: Name) {
    exists w :: IsCycle(g, w) && w[0] == n
  }

  ghost predicate Acyclic(g: Digraph) {
    forall w :: !IsCycle(g, w)
  }

  /** `n` lies downstream of (or on) some cycle. */
  ghost predicate FromCycle(g: Digraph, n: Name) {
    exists c :: OnCycle(g, c) && Reaches(g, c, n)
  }

  // ---- dependency orders ----

  ghost predicate EdgesForward(g: Digraph, order: seq<Name>) {
    forall i, j :: 0 <= i < |order| && 0 <= j < |order| && (order[i], order[j]) in g.edges ==> i < j
  }

  ghost predicate IsTopological(g: Digraph, order: seq<Name>) {
    Distinct(order) && Elems(order) == g.nodes && EdgesForward(g, order)
  }

  /** A dependency order of a part of the graph that no edge enters from outside. */
  ghost predicate Settled(g: Digraph, order: seq<Name>) {
    Distinct(order) && Elems(order) <= g.nodes && EdgesForward(g, order) &&
    forall e :: e in g.edges && e.1 in order ==> e.0 in order
  }

  /** All predecessors of `n` are in `order`. */
  ghost predicate Ready(g: Digraph, order: seq<Name>, n: Name) {
    n in g.nodes && g.Pred(n) <= Elems(order)
  }

  /** The settled part cannot be entered by a walk from a later position. */
  lemma {:induction false} WalkClimbs(g: Digraph, order: seq<Name>, w: seq<Name>, k: nat)
    requires Settled(g, order) && IsWalk(g, w)
    requires k < |order| && w[|w| - 1] == order[k]
    ensures exists i :: 0 <= i <= k && order[i] == w[0] && (|w| >= 2 ==> i < k)
  {
    if |w| >= 2 {
      var v := w[..|w| - 1];
      assert StepAt(g, w, |w| - 2);
      WalkPrefix(g, w, |w| - 1);
      assert v[|v| - 1] in order;
      var j :| 0 <= j < |order| && order[j] == v[|v| - 1];
      assert j < k;
      WalkClimbs(g, order, v, j);
    }
  }

  lemma SettledIsCycleFree(g: Digraph, order: seq<Name>, n: Name)
    requires Settled(g, order) && n in order
    ensures !FromCycle(g, n)
  {
    if FromCycle(g, n) {
      var c :| OnCycle(g, c) && Reaches(g, c, n);
      var w :| WalkFromTo(g, w, c, n);
      var k :| 0 <= k < |order| && order[k] == n;
      WalkClimbs(g, order, w, k);
      var i :| 0 <= i <= k && order[i] == c;
      var z :| IsCycle(g, z) && z[0] == c;
      WalkClimbs(g, order, z, i);
    }
  }

  ghost predicate FedFrom(g: Digraph, s: set<Name>, m: Name) {
    exists q :: q in s && (q, m) in g.edges
  }

  /** Following predecessors backwards inside a finite set must close a cycle. */
  lemma {:induction false} BackwardWalkCloses(g: Digraph, stuck: set<Name>, w: seq<Name>)
    requires g.Valid()
    requires forall m {:trigger FedFrom(g, stuck, m)} :: m in stuck ==> FedFrom(g, stuck, m)
    requires IsWalk(g, w) && Distinct(w) && Elems(w) <= stuck
    ensures FromCycle(g, w[|w| - 1])
    decreases |stuck| - |w|
  {
    assert w[0] in Elems(w);
    FitsInside(w, stuck);
    assert FedFrom(g, stuck, w[0]);
    var q :| q in stuck && (q, w[0]) in g.edges;
    var v := [q] + w;
    WalkExtends(g, q, w);
    assert v[1..] == w && v[0] == q;
    if q in w {
      WalkCloses(g, v);
    } else {
      DistinctGrows(q, w);
      FitsInside(v, stuck);
      BackwardWalkCloses(g, stuck, v);
    }
  }

  lemma WalkCloses(g: Digraph, v: seq<Name>)
    requires IsWalk(g, v) && v[0] in v[1..]
    ensures FromCycle(g, v[|v| - 1])
  {
    var k :| 0 <= k < |v[1..]| && v[1..][k] == v[0];
    WalkPrefix(g, v, k + 2);
    assert IsCycle(g, v[..k + 2]);
    assert OnCycle(g, v[0]);
    assert WalkFromTo(g, v, v[0], v[|v| - 1]);
  }

  lemma DistinctGrows(q: Name, w: seq<Name>)
    requires Distinct(w) && q !in w
    ensures Distinct([q] + w) && Elems([q] + w) == Elems(w) + {q}
  {
  }

  lemma FitsInside(v: seq<Name>, s: set<Name>)
    requires Distinct(v) && Elems(v) <= s
    ensures |v| <= |s|
  {
    DistinctSize(v);
    SubsetSize(Elems(v), s);
  }

  lemma NotReady(g: Digraph, order: seq<Name>, m: Name)
    requires m in g.nodes && !Ready(g, order, m)
    ensures FedFrom(g, g.nodes - Elems(order), m)
  {
    var q :| q in g.Pred(m) && q !in Elems(order);
    assert q in g.nodes - Elems(order) && (q, m) in g.edges;
  }

  lemma WalkPrefix(g: Digraph, w: seq<Name>, n: nat)
    requires IsWalk(g, w) && 0 < n <= |w|
    ensures IsWalk(g, w[..n])
  {
    forall i: nat | i + 1 < n ensures StepAt(g, w[..n], i) { assert StepAt(g, w, i); }
  }

  lemma WalkExtends(g: Digraph, q: Name, w: seq<Name>)
    requires g.Valid() && IsWalk(g, w) && (q, w[0]) in g.edges
    ensures IsWalk(g, [q] + w)
  {
    var v := [q] + w;
    forall i: nat | i + 1 < |v| ensures StepAt(g, v, i) {
      if i > 0 { assert StepAt(g, w, i - 1); }
    }
  }

  lemma {:induction false} SubsetSize<T>(a: set<T>, b: set<T>)
    requires a <= b
    ensures |a| <= |b|
    ensures |a| == |b| ==> a == b
  {
    if a != {} {
      var x :| x in a;
      SubsetSize(a - {x}, b - {x});
    }
  }

  /** The nodes a maximal settled order leaves out are exactly those downstream of a cycle. */
  lemma LeftoverIsFromCycle(g: Digraph, order: seq<Name>)
    requires g.Valid() && Settled(g, order)
    requires forall m :: Ready(g, order, m) ==> m in order
    ensures forall n :: n in g.nodes ==> (n !in order <==> FromCycle(g, n))
  {
    var stuck := g.nodes - Elems(order);
    forall n | n in g.nodes ensures n !in order <==> FromCycle(g, n) {
      if n in order {
        SettledIsCycleFree(g, order, n);
      } else {
        assert [n][0] == n && Elems([n]) == {n};
        forall m | m in stuck ensures FedFrom(g, stuck, m) {
          NotReady(g, order, m);
        }
        BackwardWalkCloses(g, stuck, [n]);
      }
    }
  }

  lemma WalkStaysInside(g: Digraph, w: seq<Name>, i: nat)
    requires g.Valid() && IsWalk(g, w) && i < |w|
    ensures w[i] in g.nodes
  {
    if i > 0 {
      assert StepAt(g, w, i - 1);
    }
  }

  // ---- the nodes downstream of a cycle need not be on one ----

  lemma EdgeFromCycle(g: Digraph, a: Name, b: Name)
    requires g.Valid() && OnCycle(g, a) && (a, b) in g.edges
    ensures FromCycle(g, b)
  {
    var w := [a, b];
    assert StepAt(g, w, 0);
    assert WalkFromTo(g, w, a, b);
    assert Reaches(g, a, b);
  }

  lemma {:induction false} WalkStaysOnCycles(g: Digraph, w: seq<Name>, i: nat)
    requires IsWalk(g, w) && i < |w| && OnCycle(g, w[0])
    requires forall e :: e in g.edges && OnCycle(g, e.0) ==> OnCycle(g, e.1)
    ensures OnCycle(g, w[i])
  {
    if i > 0 {
      WalkStaysOnCycles(g, w, i - 1);
      assert StepAt(g, w, i - 1);
    }
  }

  /** "Every leftover node is on a cycle" holds exactly when no edge leads off the cycles. */
  lemma LeftoverIsOnCycleWhen(g: Digraph)
    requires g.Valid()
    ensures (forall n :: n in g.nodes && FromCycle(g, n) ==> OnCycle(g, n))
      <==> (forall e :: e in g.edges && OnCycle(g, e.0) ==> OnCycle(g, e.1))
  {
    if forall n :: n in g.nodes && FromCycle(g, n) ==> OnCycle(g, n) {
      forall e | e in g.edges && OnCycle(g, e.0) ensures OnCycle(g, e.1) {
        EdgeFromCycle(g, e.0, e.1);
      }
    }
    if forall e :: e in g.edges && OnCycle(g, e.0) ==> OnCycle(g, e.1) {
      forall n | n in g.nodes && FromCycle(g, n) ensures OnCycle(g, n) {
        var c :| OnCycle(g, c) && Reaches(g, c, n);
        var w :| WalkFromTo(g, w, c, n);
        WalkStaysOnCycles(g, w, |w| - 1);
      }
    }
  }

  /** A graph with a leftover node that is on no cycle. */
  lemma LeftoverNeedNotBeOnCycle()
    ensures var g := Digraph({"a", "b"}, {("a", "a"), ("a", "b")});
      g.Valid() && FromCycle(g, "b") && !OnCycle(g, "b")
  {
    var g := Digraph({"a", "b"}, {("a", "a"), ("a", "b")});
    var loop := ["a", "a"];
    assert StepAt(g, loop, 0);
    assert IsCycle(g, loop) && OnCycle(g, "a");
    EdgeFromCycle(g, "a", "b");
    forall w | IsCycle(g, w) ensures w[0] != "b" {
      assert StepAt(g, w, 0);
    }
  }

  lemma AcyclicIffNothingDownstream(g: Digraph)
    requires g.Valid()
    ensures Acyclic(g) <==> forall n :: n in g.nodes ==> !FromCycle(g, n)
  {
    if !Acyclic(g) {
      var w :| IsCycle(g, w);
      assert OnCycle(g, w[0]);
      assert WalkFromTo(g, w, w[0], w[0]);
      assert Reaches(g, w[0], w[0]);
      assert FromCycle(g, w[0]);
    }
  }

  /** A graph has a dependency order exactly when it has no cycle (one direction;
      the sort itself supplies the other). */
  lemma TopologicalImpliesAcyclic(g: Digraph, order: seq<Name>)
    requires g.Valid() && IsTopological(g, order)
    ensures Acyclic(g)
  {
    forall n | n in g.nodes ensures !FromCycle(g, n) {
      assert n in Elems(order);
      SettledIsCycleFree(g, order, n);
    }
    AcyclicIffNothingDownstream(g);
  }

  // ---- the drain order ----

  /** How many nodes of `order` have to be drained before all of `preds` are. */
  ghost function ReadyAt(order: seq<Name>, preds: set<Name>): nat {
    if order == [] || !(preds <= Elems(order[..|order| - 1])) then |order|
    else ReadyAt(order[..|order| - 1], preds)
  }

  /** First become ready, first drained; ties are broken alphabetically. */
  ghost predicate DrainsBefore(g: Digraph, order: seq<Name>, a: Name, b: Name) {
    var ra, rb := ReadyAt(order, g.Pred(a)), ReadyAt(order, g.Pred(b));
    ra < rb || (ra == rb && Less(a, b))
  }

  ghost predicate DrainSorted(g: Digraph, order: seq<Name>, line: seq<Name>) {
    forall i, j :: 0 <= i < j < |line| ==> DrainsBefore(g, order, line[i], line[j])
  }

  /** `order` lists the nodes first-ready-first, alphabetically among equals. */
  ghost predicate IsDrainOrder(g: Digraph, order: seq<Name>) {
    IsTopological(g, order) && DrainSorted(g, order, order)
  }

  lemma {:induction false} ReadyAtPrefix(order: seq<Name>, k: nat, preds: set<Name>)
    requires k <= |order| && preds <= Elems(order[..k])
    ensures ReadyAt(order, preds) == ReadyAt(order[..k], preds)
    decreases |order|
  {
    if k < |order| {
      var p := order[..|order| - 1];
      assert p[..k] == order[..k];
      assert Elems(p[..k]) <= Elems(p);
      ReadyAtPrefix(p, k, preds);
    } else {
      assert order[..k] == order;
    }
  }

  lemma PredsAreInPrefix(g: Digraph, order: seq<Name>, k: nat)
    requires g.Valid() && IsTopological(g, order) && k < |order|
    ensures g.Pred(order[k]) <= Elems(order[..k])
  {
    forall p | p in g.Pred(order[k]) ensures p in order[..k] {
      assert p in Elems(order);
      var i :| 0 <= i < |order| && order[i] == p;
      assert i < k;
    }
  }

  /** The drain order of a graph is unique: the run order of a pipeline depends on its
      wiring alone, not on the order in which it was wired. */
  lemma {:induction false} DrainOrderIsUnique(g: Digraph, a: seq<Name>, b: seq<Name>)
    requires g.Valid() && IsDrainOrder(g, a) && IsDrainOrder(g, b)
    ensures a == b
  {
    DistinctSize(a);
    DistinctSize(b);
    var k := 0;
    while k < |a|
      invariant 0 <= k <= |a| && a[..k] == b[..k]
    {
      DrainOrderAgreesAt(g, a, b, k);
      assert a[..k + 1] == a[..k] + [a[k]] && b[..k + 1] == b[..k] + [b[k]];
      k := k + 1;
    }
    assert a[..|a|] == a && b[..|b|] == b;
  }

  lemma DrainOrderAgreesAt(g: Digraph, a: seq<Name>, b: seq<Name>, k: nat)
    requires g.Valid() && IsDrainOrder(g, a) && IsDrainOrder(g, b)
    requires k < |a| == |b| && a[..k] == b[..k]
    ensures a[k] == b[k]
  {
    assert a[k] in Elems(b) && b[k] in Elems(a);
    var j :| 0 <= j < |b| && b[j] == a[k];
    var i :| 0 <= i < |a| && a[i] == b[k];
    forall x | 0 <= x < k ensures a[x] == b[x] {
      assert a[x] == a[..k][x] && b[x] == b[..k][x];
    }
    PredsAreInPrefix(g, a, k);
    PredsAreInPrefix(g, b, k);
    ReadyAtPrefix(a, k, g.Pred(a[k]));
    ReadyAtPrefix(b, k, g.Pred(a[k]));
    ReadyAtPrefix(a, k, g.Pred(b[k]));
    ReadyAtPrefix(b, k, g.Pred(b[k]));
    if a[k] != b[k] {
      assert DrainsBefore(g, a, a[k], a[i]);
      assert DrainsBefore(g, b, b[k], b[j]);
      LessIsTotal(a[k], b[k]);
    }
  }
}
