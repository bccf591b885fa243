/** Topological levels of an acyclic wiring graph. */
module Levels {
  import opened Names
  import opened Digraphs
  import G = Graph

  /** Node by node: a root has depth 0, any other node is one deeper than its deepest
      predecessor. */
  ghost predicate DepthAt(g: Digraph, depth: map<Name, nat>, n: Name) {
    n in depth &&
    (forall p :: p in g.Pred(n) ==> p in depth && depth[p] < depth[n]) &&
    (depth[n] > 0 ==> exists p :: p in g.Pred(n) && p in depth && depth[p] == depth[n] - 1)
  }

  ghost predicate IsDepth(g: Digraph, depth: map<Name, nat>) {
    depth.Keys == g.nodes &&
    forall n {:trigger DepthAt(g, depth, n)} :: n in g.nodes ==> DepthAt(g, depth, n)
  }

  /** The recorded depth is the length of the longest walk ending at the node: no walk is
      longer, and some walk is as long. */
  lemma {:induction false} NoWalkIsLonger(g: Digraph, depth: map<Name, nat>, w: seq<Name>)
    requires g.Valid() && IsDepth(g, depth) && IsWalk(g, w)
    ensures w[0] in depth && w[|w| - 1] in depth
    ensures depth[w[0]] + |w| - 1 <= depth[w[|w| - 1]]
  {
    var m := |w| - 1;
    WalkStaysInside(g, w, m);
    if m > 0 {
      WalkPrefix(g, w, m);
      NoWalkIsLonger(g, depth, w[..m]);
      assert StepAt(g, w, m - 1);
      assert DepthAt(g, depth, w[m]);
      assert w[m - 1] in g.Pred(w[m]);
    }
  }

  lemma {:induction false} SomeWalkIsAsLong(g: Digraph, depth: map<Name, nat>, n: Name) returns (w: seq<Name>)
    requires g.Valid() && IsDepth(g, depth) && n in g.nodes
    ensures IsWalk(g, w) && w[|w| - 1] == n && |w| - 1 == depth[n]
    decreases depth[n]
  {
    assert DepthAt(g, depth, n);
    if depth[n] == 0 {
      w := [n];
    } else {
      var p :| p in g.Pred(n) && p in depth && depth[p] == depth[n] - 1;
      var v := SomeWalkIsAsLong(g, depth, p);
      w := v + [n];
      forall i: nat | i + 1 < |w| ensures StepAt(g, w, i) {
        if i + 2 < |w| { assert StepAt(g, v, i); }
      }
    }
  }

  ghost predicate IsLongestWalk(g: Digraph, n: Name, length: nat) {
    (forall w :: IsWalk(g, w) && w[|w| - 1] == n ==> |w| - 1 <= length) &&
    (exists w :: IsWalk(g, w) && w[|w| - 1] == n && |w| - 1 == length)
  }

  /** Level sets: level `d` lists, alphabetically, the nodes whose longest incoming walk has
      length `d`; no level is empty and no node is missing. */
  ghost predicate AreLevels(g: Digraph, levels: seq<seq<Name>>) {
    exists depth: map<Name, nat> :: LevelsBy(g, depth, levels)
  }

  ghost predicate LevelsBy(g: Digraph, depth: map<Name, nat>, levels: seq<seq<Name>>) {
    IsDepth(g, depth) &&
    (forall n :: n in g.nodes ==> depth[n] < |levels|) &&
    (forall d :: 0 <= d < |levels| ==> Increasing(levels[d]) && levels[d] != []) &&
    (forall d, n :: 0 <= d < |levels| ==> (n in levels[d] <==> n in g.nodes && depth[n] == d))
  }

  lemma LevelIsLongestWalk(g: Digraph, levels: seq<seq<Name>>, d: nat, n: Name)
    requires g.Valid() && AreLevels(g, levels) && d < |levels| && n in g.nodes
    ensures n in levels[d] <==> IsLongestWalk(g, n, d)
  {
    var depth :| LevelsBy(g, depth, levels);
    var v := SomeWalkIsAsLong(g, depth, n);
    forall w | IsWalk(g, w) && w[|w| - 1] == n ensures |w| - 1 <= depth[n] {
      NoWalkIsLonger(g, depth, w);
      WalkStaysInside(g, w, 0);
    }
  }

  /** Two nodes of one level never depend on each other. */
  lemma SameLevelIsIndependent(g: Digraph, levels: seq<seq<Name>>, d: nat, a: Name, b: Name)
    requires g.Valid() && AreLevels(g, levels) && d < |levels|
    requires a in levels[d] && b in levels[d] && a != b
    ensures !Reaches(g, a, b)
  {
    var depth :| LevelsBy(g, depth, levels);
    if Reaches(g, a, b) {
      var w :| WalkFromTo(g, w, a, b);
      NoWalkIsLonger(g, depth, w);
    }
  }

  /** `max(depth[p] for p in preds)`. */
  function MaxDepth(depth: map<Name, nat>, preds: seq<Name>): (m: nat)
    requires preds != [] && forall p :: p in preds ==> p in depth
    ensures forall p :: p in preds ==> depth[p] <= m
    ensures exists p :: p in preds && depth[p] == m
  {
    var d := depth[preds[0]];
    if |preds| == 1 then d
    else
      var rest := MaxDepth(depth, preds[1..]);
      assert preds == [preds[0]] + preds[1..];
      if d < rest then rest else d
  }

  /** What the first loop keeps: the first `k` nodes of the order have their depth. */
  ghost predicate DepthsSoFar(g: Digraph, order: seq<Name>, k: nat, depth: map<Name, nat>) {
    k <= |order| && depth.Keys == Elems(order[..k]) &&
    forall i {:trigger order[i]} :: 0 <= i < k ==> DepthAt(g, depth, order[i])
  }

  /** First loop of the level builder: nodes are visited in dependency order, so every
      predecessor already has its depth. */
  method Depths(graph: G.Graph, order: seq<Name>) returns (depth: map<Name, nat>)
    requires graph.Valid() && IsTopological(graph.Value(), order)
    ensures IsDepth(graph.Value(), depth)
  {
    ghost var g := graph.Value();
    graph.ValueIsValid();
    depth := map[];
    var k := 0;
    while k < |order|
      invariant 0 <= k <= |order|
      invariant DepthsSoFar(g, order, k, depth)
    {
      depth := AddDepth(graph, order, k, depth);
      k := k + 1;
    }
    DepthsComplete(g, order, depth);
  }

  method AddDepth(graph: G.Graph, order: seq<Name>, k: nat, depth: map<Name, nat>)
    returns (depth': map<Name, nat>)
    requires graph.Valid() && graph.Value().Valid() && IsTopological(graph.Value(), order)
    requires k < |order| && DepthsSoFar(graph.Value(), order, k, depth)
    ensures DepthsSoFar(graph.Value(), order, k + 1, depth')
  {
    var preds := SortedPredecessors(graph, order[k]);
    PredsHaveDepths(graph.Value(), order, k, depth);
    depth' := depth[order[k] := if preds == [] then 0 else MaxDepth(depth, preds) + 1];
    DepthExtends(graph.Value(), order, k, depth, preds, depth');
  }

  method SortedPredecessors(graph: G.Graph, n: Name) returns (preds: seq<Name>)
    requires graph.Valid()
    ensures preds == Sorted(graph.Value().Pred(n))
    ensures forall p :: p in preds <==> p in graph.Value().Pred(n)
  {
    graph.ValueAgrees();
    preds := Sorted(graph.Incoming(n));
    assert forall p :: p in preds <==> p in Elems(preds);
  }

  lemma PredsHaveDepths(g: Digraph, order: seq<Name>, k: nat, depth: map<Name, nat>)
    requires g.Valid() && IsTopological(g, order) && k < |order|
    requires DepthsSoFar(g, order, k, depth)
    ensures forall p :: p in g.Pred(order[k]) ==> p in depth
    ensures order[k] !in depth
  {
    PredsAreInPrefix(g, order, k);
  }

  lemma DepthExtends(g: Digraph, order: seq<Name>, k: nat, before: map<Name, nat>, preds: seq<Name>,
                     after: map<Name, nat>)
    requires k < |order| && DepthsSoFar(g, order, k, before)
    requires order[k] !in before
    requires forall p :: p in preds ==> p in before
    requires forall p :: p in preds <==> p in g.Pred(order[k])
    requires after == before[order[k] := if preds == [] then 0 else MaxDepth(before, preds) + 1]
    ensures DepthsSoFar(g, order, k + 1, after)
  {
    assert order[..k + 1] == order[..k] + [order[k]];
    NewDepth(g, order[k], before, preds, after);
    forall i | 0 <= i < k + 1 ensures DepthAt(g, after, order[i]) {
      if i < k {
        assert order[i] == order[..k][i];
        OldDepth(g, order[i], before, after);
      }
    }
  }

  lemma NewDepth(g: Digraph, n: Name, before: map<Name, nat>, preds: seq<Name>, after: map<Name, nat>)
    requires n !in before
    requires forall p :: p in preds ==> p in before
    requires forall p :: p in preds <==> p in g.Pred(n)
    requires after == before[n := if preds == [] then 0 else MaxDepth(before, preds) + 1]
    ensures DepthAt(g, after, n)
  {
    if preds != [] {
      var p :| p in preds && before[p] == MaxDepth(before, preds);
      assert p in g.Pred(n) && after[p] == after[n] - 1;
    }
  }

  lemma OldDepth(g: Digraph, m: Name, before: map<Name, nat>, after: map<Name, nat>)
    requires DepthAt(g, before, m)
    requires forall n :: n in before ==> n in after && after[n] == before[n]
    ensures DepthAt(g, after, m)
  {
    if before[m] > 0 {
      var p :| p in g.Pred(m) && p in before && before[p] == before[m] - 1;
      assert after[p] == after[m] - 1;
    }
  }

  lemma DepthsComplete(g: Digraph, order: seq<Name>, depth: map<Name, nat>)
    requires IsTopological(g, order) && DepthsSoFar(g, order, |order|, depth)
    ensures IsDepth(g, depth)
  {
    assert order[..|order|] == order;
    forall n | n in g.nodes ensures DepthAt(g, depth, n) {
      assert n in Elems(order);
      var i :| 0 <= i < |order| && order[i] == n;
    }
  }

  // ---- second loop: bucket by depth, emit shallowest first ----

  ghost predicate Buckets(depth: map<Name, nat>, seen: seq<Name>, byLevel: map<nat, seq<Name>>) {
    (forall d :: d in byLevel ==> byLevel[d] != []) &&
    (forall d, n :: d in byLevel && n in byLevel[d] ==> n in seen && n in depth && depth[n] == d) &&
    (forall n :: n in seen ==> n in depth && depth[n] in byLevel && n in byLevel[depth[n]])
  }

  method Bucketed(depth: map<Name, nat>, order: seq<Name>) returns (byLevel: map<nat, seq<Name>>)
    requires forall n :: n in order ==> n in depth
    ensures Buckets(depth, order, byLevel)
  {
    byLevel := map[];
    var k := 0;
    while k < |order|
      invariant 0 <= k <= |order|
      invariant Buckets(depth, order[..k], byLevel)
    {
      assert order[..k + 1] == order[..k] + [order[k]];
      var d := depth[order[k]];
      byLevel := byLevel[d := (if d in byLevel then byLevel[d] else []) + [order[k]]];
      k := k + 1;
    }
    assert order[..k] == order;
  }

  /** The levels of the async executor, from the sorted node list. */
  method ComputeLevels(graph: G.Graph, order: seq<Name>) returns (levels: seq<seq<Name>>)
    requires graph.Valid() && IsTopological(graph.Value(), order)
    ensures AreLevels(graph.Value(), levels)
  {
    ghost var g := graph.Value();
    graph.ValueIsValid();
    var depth := Depths(graph, order);
    assert forall n :: n in order <==> n in Elems(order);
    var byLevel := Bucketed(depth, order);
    KeysAreInitialSegment(g, depth, order, byLevel);
    levels := Emit(byLevel);
    EmittedLevels(g, depth, order, byLevel, levels);
  }

  method Emit(byLevel: map<nat, seq<Name>>) returns (levels: seq<seq<Name>>)
    requires forall d: nat :: d in byLevel <==> d < |byLevel.Keys|
    ensures |levels| == |byLevel.Keys|
    ensures forall d :: 0 <= d < |levels| ==> levels[d] == Sorted(Elems(byLevel[d]))
  {
    levels := [];
    var k := 0;
    while k < |byLevel.Keys|
      invariant 0 <= k == |levels| <= |byLevel.Keys|
      invariant forall d :: 0 <= d < k ==> levels[d] == Sorted(Elems(byLevel[d]))
    {
      hide Sorted, Elems;
      levels := levels + [Sorted(Elems(byLevel[k]))];
      k := k + 1;
    }
  }

  lemma EmittedLevels(g: Digraph, depth: map<Name, nat>, order: seq<Name>, byLevel: map<nat, seq<Name>>,
                      levels: seq<seq<Name>>)
    requires IsDepth(g, depth) && Elems(order) == g.nodes && Buckets(depth, order, byLevel)
    requires forall d: nat :: d in byLevel <==> d < |levels|
    requires forall d :: 0 <= d < |levels| ==> levels[d] == Sorted(Elems(byLevel[d]))
    ensures LevelsBy(g, depth, levels)
  {
    assert forall n :: n in order <==> n in Elems(order);
    forall d | 0 <= d < |levels| ensures levels[d] != [] && Increasing(levels[d]) {
      assert byLevel[d][0] in Elems(levels[d]);
    }
    forall d, n | 0 <= d < |levels| ensures n in levels[d] <==> n in g.nodes && depth[n] == d {
      assert n in levels[d] <==> n in Elems(levels[d]);
      assert n in byLevel[d] <==> n in Elems(byLevel[d]);
    }
  }

  lemma KeysAreInitialSegment(g: Digraph, depth: map<Name, nat>, order: seq<Name>, byLevel: map<nat, seq<Name>>)
    requires g.Valid() && IsDepth(g, depth) && Elems(order) == g.nodes && Buckets(depth, order, byLevel)
    ensures forall d: nat :: d in byLevel <==> d < |byLevel.Keys|
  {
    assert forall n :: n in order <==> n in Elems(order);
    forall d: nat, e: nat | d in byLevel.Keys && e < d ensures e in byLevel.Keys {
      assert byLevel[d][0] in byLevel[d];
      var m := NodeAtDepth(g, depth, byLevel[d][0], e);
      assert m in order;
    }
    InitialSegment(byLevel.Keys);
  }

  lemma {:induction false} NodeAtDepth(g: Digraph, depth: map<Name, nat>, n: Name, e: nat) returns (m: Name)
    requires IsDepth(g, depth) && n in g.nodes && e <= depth[n]
    ensures m in g.nodes && depth[m] == e
    decreases depth[n]
  {
    if depth[n] == e {
      m := n;
    } else {
      assert DepthAt(g, depth, n);
      var p :| p in g.Pred(n) && p in depth && depth[p] == depth[n] - 1;
      m := NodeAtDepth(g, depth, p, e);
    }
  }

  lemma {:induction false} InitialSegment(s: set<nat>)
    requires forall d: nat, e: nat :: d in s && e < d ==> e in s
    ensures forall d: nat :: d in s <==> d < |s|
  {
    if s != {} {
      var m := Maximum(s);
      InitialSegment(s - {m});
      var rest := s - {m};
      assert |rest| == |s| - 1;
      if m > 0 { assert m - 1 in rest; }
      assert m !in rest;
      assert m == |s| - 1;
      assert forall d :: d in s <==> d in rest || d == m;
    }
  }

  lemma {:induction false} Maximum(s: set<nat>) returns (m: nat)
    requires s != {}
    ensures m in s && forall d :: d in s ==> d <= m
  {
    var x :| x in s;
    m := x;
    if s != {x} {
      var rest := Maximum(s - {x});
      assert forall d :: d in s ==> d == x || d in s - {x};
      if x < rest { m := rest; }
    }
  }
}
