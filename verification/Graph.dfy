/** The wiring graph of a pipeline: edge bookkeeping, Kahn's sort, and the
    depth-first cycle finder. */
module Graph {
  import opened Names
  import opened Digraphs

  datatype EdgeResult = Added | UnknownNode(name: Name)

  /** The sort's value, or the node list carried by its `CyclicGraphError`. */
  datatype SortResult = Ordered(order: seq<Name>) | Cyclic(missing: seq<Name>)

  class Graph {
    var nodes: set<Name>
    var adjacency: map<Name, set<Name>>
    var reverse: map<Name, set<Name>>
    ghost var edges: set<(Name, Name)>

    /** Both maps are `defaultdict(set)`: an absent key reads as the empty set. */
    function Adjacent(n: Name): set<Name>
      reads this
    {
      if n in adjacency then adjacency[n] else {}
    }

    function Incoming(n: Name): set<Name>
      reads this
    {
      if n in reverse then reverse[n] else {}
    }

    ghost predicate Valid()
      reads this
    {
      (forall e :: e in edges ==> e.0 in nodes && e.1 in nodes && e.1 in Adjacent(e.0) && e.0 in Incoming(e.1)) &&
      (forall a, b {:trigger b in Adjacent(a)} :: b in Adjacent(a) ==> (a, b) in edges) &&
      (forall a, b {:trigger a in Incoming(b)} :: a in Incoming(b) ==> (a, b) in edges)
    }

    ghost function Value(): Digraph
      reads this
    {
      Digraph(nodes, edges)
    }

    lemma ValueIsValid()
      requires Valid()
      ensures Value().Valid()
    {
    }

    lemma ValueAgrees()
      requires Valid()
      ensures Value().Valid()
      ensures forall n :: Value().Succ(n) == Adjacent(n) && Value().Pred(n) == Incoming(n)
    {
    }

    constructor ()
      ensures Valid() && Value() == Digraph({}, {})
    {
      nodes, adjacency, reverse, edges := {}, map[], map[], {};
    }

    method AddNode(name: Name)
      requires Valid()
      modifies this
      ensures Valid()
      ensures Value() == old(Value()).(nodes := old(nodes) + {name})
    {
      nodes := nodes + {name};
      assert forall a :: Adjacent(a) == old(Adjacent(a)) && Incoming(a) == old(Incoming(a));
    }

    method AddEdge(src: Name, dst: Name) returns (r: EdgeResult)
      requires Valid()
      modifies this
      ensures Valid()
      ensures src !in old(nodes) ==> r == UnknownNode(src)
      ensures src in old(nodes) && dst !in old(nodes) ==> r == UnknownNode(dst)
      ensures src in old(nodes) && dst in old(nodes) ==> r == Added
      ensures r.UnknownNode? ==> Value() == old(Value())
      ensures r.Added? ==> Value() == old(Value()).(edges := old(Value()).edges + {(src, dst)})
    {
      if src !in nodes { return UnknownNode(src); }
      if dst !in nodes { return UnknownNode(dst); }
      adjacency := adjacency[src := Adjacent(src) + {dst}];
      reverse := reverse[dst := Incoming(dst) + {src}];
      edges := edges + {(src, dst)};
      r := Added;
      assert forall a, b :: b in Adjacent(a) <==> b in old(Adjacent(a)) || (a, b) == (src, dst);
      assert forall a, b :: a in Incoming(b) <==> a in old(Incoming(b)) || (a, b) == (src, dst);
    }

    method SortedSuccessors(n: Name) returns (q: seq<Name>)
      requires Valid()
      ensures q == Sorted(Value().Succ(n))
      ensures forall m :: m in q ==> m in nodes
    {
      ValueAgrees();
      q := Sorted(Adjacent(n));
      forall m | m in q ensures m in nodes { assert m in Elems(q); }
    }

    method InDegrees() returns (inDegree: map<Name, int>)
      requires Valid()
      ensures CountsPending(Value(), [], inDegree)
    {
      inDegree := map n | n in nodes :: |Incoming(n)|;
      forall m | m in nodes ensures CountIs(Value(), [], inDegree, m) {
        ValueAgrees();
        assert Value().Pred(m) - Elems([]) == Incoming(m);
      }
    }

    /** Kahn's algorithm. Success means acyclic, the order is the unique drain order,
        and the nodes named in the error are exactly those downstream of a cycle. */
    method TopologicalSort() returns (r: SortResult)
      requires Valid()
      ensures r.Ordered? <==> Acyclic(Value())
      ensures r.Ordered? ==> IsDrainOrder(Value(), r.order)
      ensures r.Cyclic? ==> r.missing != [] && Increasing(r.missing)
      ensures r.Cyclic? ==> forall n :: n in r.missing <==> n in nodes && FromCycle(Value(), n)
    {
      ghost var g := Value();
      ValueIsValid();
      var inDegree := InDegrees();
      var queue := Sorted(set n | n in inDegree && inDegree[n] == 0);
      var order: seq<Name> := [];
      DrainStart(g, queue, inDegree);
      while queue != []
        invariant Draining(g, order, queue) && CountsPending(g, order, inDegree)
        decreases |nodes| - |order|
      {
        var n := queue[0];
        QueueIsNew(g, order, queue);
        ghost var newly, counts := [], inDegree;
        ghost var line := queue;
        var neighbours := SortedSuccessors(n);
        inDegree, queue, newly := Release(neighbours, inDegree, queue[1..]);
        ReleaseCounts(g, order, n, counts, inDegree, newly);
        DrainStep(g, order, line, newly);
        order := order + [n];
        OrderFits(g, order, queue);
      }
      DrainEnd(g, order);
      if |order| != |nodes| {
        return Cyclic(Sorted(nodes - Elems(order)));
      }
      r := Ordered(order);
    }

    /** The recursive visitor of the cycle finder. The variables it closes over are passed in
        and handed back; `finished` is the order in which visits end. */
    method Visit(s: Search, ghost finished: seq<Name>, node: Name)
      returns (r: Search, ghost finished': seq<Name>)
      requires Valid() && Searching(Value(), s, finished)
      requires node in nodes && node !in s.visited
      requires s.stack != [] ==> (s.stack[|s.stack| - 1], node) in Value().edges
      ensures Searching(Value(), r, finished')
      ensures r.stack == s.stack
      ensures s.visited + {node} <= r.visited
      ensures node in finished'
      ensures s.cycles <= r.cycles
      ensures forall x :: x in finished ==> x in finished'
      decreases nodes - s.visited, 0
    {
      hide Searching, Sorted;
      ghost var g := Value();
      ValueIsValid();
      PushKeeps(g, s, finished, node);
      r, finished' := Search(s.cycles, s.visited + {node}, s.stack + [node], s.onStack + {node}), finished;
      ghost var path := r.stack;
      var neighbours := SortedSuccessors(node);
      var k := 0;
      while k < |neighbours|
        invariant 0 <= k <= |neighbours|
        invariant Searching(g, r, finished')
        invariant r.stack == path
        invariant s.visited + {node} <= r.visited
        invariant s.cycles <= r.cycles
        invariant forall x :: x in finished ==> x in finished'
        invariant forall i :: 0 <= i < k ==> neighbours[i] in finished' || IsClosing(r.cycles, (node, neighbours[i]))
      {
        assert neighbours[k] in Elems(neighbours);
        ghost var before := r.cycles;
        r, finished' := Explore(r, finished', neighbours[k]);
        ClosingsStay(before, r.cycles);
        k := k + 1;
      }
      PopKeeps(g, r, finished', s.stack, node);
      r := r.(stack := r.stack[..|r.stack| - 1], onStack := r.onStack - {node});
      finished' := finished' + [node];
    }

    /** One edge out of the top of the stack: recurse, or record a cycle, or nothing. */
    method Explore(s: Search, ghost finished: seq<Name>, nxt: Name)
      returns (r: Search, ghost finished': seq<Name>)
      requires Valid() && Searching(Value(), s, finished)
      requires s.stack != [] && (s.stack[|s.stack| - 1], nxt) in Value().edges
      ensures Searching(Value(), r, finished')
      ensures r.stack == s.stack
      ensures s.visited <= r.visited
      ensures s.cycles <= r.cycles
      ensures nxt in finished' || IsClosing(r.cycles, (s.stack[|s.stack| - 1], nxt))
      ensures forall x :: x in finished ==> x in finished'
      decreases nodes - s.visited, 1
    {
      r, finished' := s, finished;
      if nxt !in s.visited {
        r, finished' := Visit(s, finished, nxt);
      } else if nxt in s.onStack {
        r := BackEdge(Value(), s, finished, nxt);
      }
    }

    method DetectCycles() returns (cycles: seq<seq<Name>>)
      requires Valid()
      ensures forall c :: c in cycles ==> IsSimpleCycle(Value(), c)
      ensures cycles == [] <==> Acyclic(Value())
      ensures forall w :: IsCycle(Value(), w) ==> HasClosing(cycles, w)
    {
      ghost var g := Value();
      ValueIsValid();
      var s := Search([], {}, [], {});
      ghost var finished: seq<Name> := [];
      var names := Sorted(nodes);
      assert forall x :: x in names <==> x in Elems(names);
      var k := 0;
      while k < |names|
        invariant 0 <= k <= |names|
        invariant Searching(g, s, finished) && s.stack == []
        invariant forall i :: 0 <= i < k ==> names[i] in s.visited
      {
        if names[k] !in s.visited {
          s, finished := Visit(s, finished, names[k]);
        }
        k := k + 1;
      }
      cycles := s.cycles;
      AllCyclesAreCut(g, s, finished);
      if cycles != [] {
        assert cycles[0] in cycles;
        assert IsCycle(g, cycles[0]);
      }
    }
  }

  /** The inner loop of the sort: every neighbour loses one pending predecessor, and those
      left with none join the queue in the order they are visited. */
  method Release(neighbours: seq<Name>, inDegree: map<Name, int>, queue: seq<Name>)
    returns (inDegree': map<Name, int>, queue': seq<Name>, ghost newly: seq<Name>)
    requires Increasing(neighbours)
    requires forall m :: m in neighbours ==> m in inDegree
    ensures inDegree'.Keys == inDegree.Keys
    ensures forall m {:trigger inDegree'[m]} :: m in inDegree ==>
      inDegree'[m] == if m in neighbours then inDegree[m] - 1 else inDegree[m]
    ensures queue' == queue + newly
    ensures Increasing(newly)
    ensures forall m :: m in newly <==> m in neighbours && inDegree[m] == 1
  {
    IncreasingIsDistinct(neighbours);
    inDegree', queue', newly := inDegree, queue, [];
    var k := 0;
    while k < |neighbours|
      invariant 0 <= k <= |neighbours|
      invariant inDegree'.Keys == inDegree.Keys
      invariant forall m {:trigger inDegree'[m]} :: m in inDegree ==>
        inDegree'[m] == if m in neighbours[..k] then inDegree[m] - 1 else inDegree[m]
      invariant queue' == queue + newly
      invariant Increasing(newly)
      invariant forall m :: m in newly <==> m in neighbours[..k] && inDegree[m] == 1
    {
      var m := neighbours[k];
      assert m in neighbours;
      assert neighbours[..k + 1] == neighbours[..k] + [m];
      assert m !in neighbours[..k];
      inDegree' := inDegree'[m := inDegree'[m] - 1];
      if inDegree'[m] == 0 {
        queue' := queue' + [m];
        forall x | x in newly ensures Less(x, m) {
          var i :| 0 <= i < k && neighbours[i] == x;
        }
        newly := newly + [m];
      }
      k := k + 1;
    }
    assert neighbours[..k] == neighbours;
  }

  // ---- what Kahn's loop keeps ----

  /** `order` has been drained and `queue` holds, in drain order, exactly the other
      nodes all of whose predecessors have been drained. */
  ghost predicate Draining(g: Digraph, order: seq<Name>, queue: seq<Name>) {
    Distinct(order + queue) && Settled(g, order) &&
    (forall m {:trigger Ready(g, order, m)} {:trigger m in order + queue} ::
       m in order + queue <==> Ready(g, order, m)) &&
    DrainSorted(g, order, order + queue)
  }

  /** The counter of `m` is the number of its predecessors still to be drained. */
  ghost predicate CountIs(g: Digraph, order: seq<Name>, inDegree: map<Name, int>, m: Name) {
    m in inDegree && inDegree[m] == |g.Pred(m) - Elems(order)|
  }

  ghost predicate CountsPending(g: Digraph, order: seq<Name>, inDegree: map<Name, int>) {
    inDegree.Keys == g.nodes &&
    forall m {:trigger CountIs(g, order, inDegree, m)} :: m in g.nodes ==> CountIs(g, order, inDegree, m)
  }

  lemma DrainStart(g: Digraph, queue: seq<Name>, inDegree: map<Name, int>)
    requires g.Valid() && Increasing(queue)
    requires CountsPending(g, [], inDegree)
    requires Elems(queue) == set n | n in inDegree && inDegree[n] == 0
    ensures Draining(g, [], queue)
  {
    IncreasingIsDistinct(queue);
    assert [] + queue == queue;
    forall m ensures m in queue <==> Ready(g, [], m) {
      assert m in queue <==> m in Elems(queue);
      StartsReady(g, inDegree, m);
    }
    StartsSorted(g, queue);
    hide Ready, CountsPending, Increasing, Elems, DrainSorted;
  }

  lemma StartsSorted(g: Digraph, queue: seq<Name>)
    requires Increasing(queue) && forall m :: m in queue ==> Ready(g, [], m)
    ensures DrainSorted(g, [], queue)
  {
  }

  lemma StartsReady(g: Digraph, inDegree: map<Name, int>, m: Name)
    requires CountsPending(g, [], inDegree)
    ensures m in inDegree && inDegree[m] == 0 <==> Ready(g, [], m)
  {
    if m in g.nodes {
      assert CountIs(g, [], inDegree, m);
      NothingPending(g.Pred(m), []);
    }
  }

  lemma NothingPending(preds: set<Name>, order: seq<Name>)
    ensures |preds - Elems(order)| == 0 <==> preds <= Elems(order)
  {
    var rest := preds - Elems(order);
    assert |rest| == 0 <==> rest == {};
    assert preds <= Elems(order) ==> rest == {};
    assert forall p :: p in preds && p !in Elems(order) ==> p in rest;
  }

  lemma QueueIsNew(g: Digraph, order: seq<Name>, queue: seq<Name>)
    requires Draining(g, order, queue) && queue != []
    ensures queue[0] !in order && queue[0] in g.nodes
  {
    assert queue[0] in order + queue;
    forall i | 0 <= i < |order| ensures order[i] != queue[0] {
      assert (order + queue)[i] != (order + queue)[|order|];
    }
  }

  lemma OneFewer(preds: set<Name>, prior: seq<Name>, n: Name)
    requires n in preds && n !in prior
    ensures |preds - Elems(prior + [n])| == |preds - Elems(prior)| - 1
  {
    assert preds - Elems(prior + [n]) == (preds - Elems(prior)) - {n};
  }

  lemma ReleaseCounts(g: Digraph, order: seq<Name>, n: Name,
                      before: map<Name, int>, after: map<Name, int>, newly: seq<Name>)
    requires CountsPending(g, order, before)
    requires n in g.nodes && n !in order
    requires after.Keys == before.Keys
    requires forall m {:trigger after[m]} :: m in before ==>
      after[m] == if m in Sorted(g.Succ(n)) then before[m] - 1 else before[m]
    requires forall m :: m in Sorted(g.Succ(n)) ==> m in before
    requires forall m :: m in newly <==> m in Sorted(g.Succ(n)) && before[m] == 1
    ensures CountsPending(g, order + [n], after)
    ensures forall m :: m in newly <==> m in g.Succ(n) && Ready(g, order + [n], m)
  {
    forall m | m in g.nodes
      ensures CountIs(g, order + [n], after, m)
      ensures m in newly <==> m in g.Succ(n) && Ready(g, order + [n], m)
    {
      assert m in Sorted(g.Succ(n)) <==> m in Elems(Sorted(g.Succ(n)));
      assert CountIs(g, order, before, m);
      NothingPending(g.Pred(m), order + [n]);
      if m in g.Succ(n) {
        OneFewer(g.Pred(m), order, n);
      } else {
        assert g.Pred(m) - Elems(order + [n]) == g.Pred(m) - Elems(order);
      }
    }
    forall m | m in newly ensures m in g.nodes {
      assert m in Elems(Sorted(g.Succ(n)));
    }
  }

  lemma OrderFits(g: Digraph, order: seq<Name>, queue: seq<Name>)
    requires Draining(g, order, queue)
    ensures |order| <= |g.nodes|
  {
    DistinctSize(order);
    SubsetSize(Elems(order), g.nodes);
  }

  lemma DrainEnd(g: Digraph, order: seq<Name>)
    requires g.Valid() && Draining(g, order, [])
    ensures Acyclic(g) <==> |order| == |g.nodes|
    ensures |order| == |g.nodes| ==> IsDrainOrder(g, order)
    ensures |order| != |g.nodes| ==> Sorted(g.nodes - Elems(order)) != []
    ensures forall n :: n in Sorted(g.nodes - Elems(order)) <==> n in g.nodes && FromCycle(g, n)
  {
    assert order + [] == order;
    DistinctSize(order);
    SubsetSize(Elems(order), g.nodes);
    LeftoverIsFromCycle(g, order);
    AcyclicIffNothingDownstream(g);
    var missing := Sorted(g.nodes - Elems(order));
    assert forall m :: m in missing <==> m in Elems(missing);
    if |order| == |g.nodes| {
      assert Elems(order) == g.nodes;
    } else {
      assert Elems(order) != g.nodes;
      var x :| x in g.nodes && x !in Elems(order);
      assert x in missing;
    }
  }

  /** Draining the head of the queue and appending the successors it completes
      (sorted) keeps the picture. */
  lemma DrainStep(g: Digraph, order: seq<Name>, queue: seq<Name>, newly: seq<Name>)
    requires g.Valid() && Draining(g, order, queue) && queue != []
    requires Increasing(newly)
    requires forall m :: m in newly <==> m in g.Succ(queue[0]) && Ready(g, order + [queue[0]], m)
    ensures Draining(g, order + [queue[0]], queue[1..] + newly)
  {
    var n := queue[0];
    var next := order + [n];
    var line := order + queue;
    assert next + (queue[1..] + newly) == line + newly;
    QueueIsNew(g, order, queue);
    assert n in line;
    assert Elems(next) == Elems(order) + {n};
    forall m | m in line ensures m !in newly && Ready(g, order, m) {
      assert Ready(g, order, m);
      assert n !in g.Pred(m);
    }
    forall m | m in newly ensures !Ready(g, order, m) && Ready(g, next, m) {
      assert n in g.Pred(m);
    }
    IncreasingIsDistinct(newly);
    forall i, j | 0 <= i < j < |line + newly| ensures (line + newly)[i] != (line + newly)[j] {
      if i < |line| <= j {
        assert line[i] in line && newly[j - |line|] in newly;
      }
    }
    forall m ensures m in line + newly <==> Ready(g, next, m) {
      if Ready(g, next, m) && n !in g.Pred(m) {
        assert Ready(g, order, m);
      }
    }
    SettledStep(g, order, n);
    DrainSortedStep(g, order, line, n, newly);
  }

  lemma SettledStep(g: Digraph, order: seq<Name>, n: Name)
    requires g.Valid() && Settled(g, order) && n in g.nodes && n !in order
    requires Ready(g, order, n)
    ensures Settled(g, order + [n])
  {
    var next := order + [n];
    forall e | e in g.edges && e.1 in next ensures e.0 in next {
      if e.1 == n { assert e.0 in g.Pred(n); }
    }
    forall i, j | 0 <= i < |next| && 0 <= j < |next| && (next[i], next[j]) in g.edges
      ensures i < j
    {
      if next[j] == n {
        assert next[i] in g.Pred(n);
        assert j == |order|;
      } else {
        assert next[j] in order;
        assert next[i] in order;
        assert i < |order|;
      }
    }
  }

  lemma DrainSortedStep(g: Digraph, order: seq<Name>, line: seq<Name>, n: Name, newly: seq<Name>)
    requires DrainSorted(g, order, line) && Increasing(newly)
    requires forall m :: m in line ==> Ready(g, order, m)
    requires forall m :: m in newly ==> !Ready(g, order, m) && Ready(g, order + [n], m)
    ensures DrainSorted(g, order + [n], line + newly)
  {
    var next := order + [n];
    assert next[..|order|] == order;
    var all := line + newly;
    forall m | m in line ensures ReadyAt(next, g.Pred(m)) == ReadyAt(order, g.Pred(m)) <= |order| {
      ReadyAtPrefix(next, |order|, g.Pred(m));
      ReadyAtBound(order, g.Pred(m));
    }
    forall m | m in newly ensures ReadyAt(next, g.Pred(m)) == |next| {
    }
    forall i, j | 0 <= i < j < |all| ensures DrainsBefore(g, next, all[i], all[j]) {
      if j < |line| {
        assert DrainsBefore(g, order, line[i], line[j]);
        assert line[i] in line && line[j] in line;
      } else {
        assert all[j] in newly;
        if i < |line| {
          assert all[i] in line;
        } else {
          assert all[i] in newly;
          assert Less(newly[i - |line|], newly[j - |line|]);
        }
      }
    }
  }

  lemma {:induction false} ReadyAtBound(order: seq<Name>, preds: set<Name>)
    ensures ReadyAt(order, preds) <= |order|
  {
    if order != [] && preds <= Elems(order[..|order| - 1]) {
      ReadyAtBound(order[..|order| - 1], preds);
    }
  }

  // ---- the depth-first search ----

  datatype Search = Search(cycles: seq<seq<Name>>, visited: set<Name>, stack: seq<Name>, onStack: set<Name>)

  /** The edge is the last one of a recorded cycle. */
  ghost predicate IsClosing(cycles: seq<seq<Name>>, e: (Name, Name)) {
    exists c :: c in cycles && |c| >= 2 && e == (c[|c| - 2], c[|c| - 1])
  }

  /** Some edge of the walk is the last one of a recorded cycle. */
  ghost predicate HasClosing(cycles: seq<seq<Name>>, w: seq<Name>) {
    exists i: nat :: i + 1 < |w| && IsClosing(cycles, (w[i], w[i + 1]))
  }

  /** The graph without those edges. */
  ghost function Rest(g: Digraph, cycles: seq<seq<Name>>): Digraph {
    Digraph(g.nodes, set e | e in g.edges && !IsClosing(cycles, e))
  }

  lemma ClosingsStay(some: seq<seq<Name>>, more: seq<seq<Name>>)
    requires some <= more
    ensures forall e :: IsClosing(some, e) ==> IsClosing(more, e)
  {
    forall c | c in some ensures c in more {
      var i :| 0 <= i < |some| && some[i] == c;
      assert more[i] == c;
    }
  }

  /** What the search keeps: the stack is a walk of unfinished nodes, recorded cycles are
      simple, and every edge that closes none of them leads to an earlier finish. */
  ghost predicate Searching(g: Digraph, s: Search, finished: seq<Name>) {
    s.onStack == Elems(s.stack) && s.visited == s.onStack + Elems(finished) && s.visited <= g.nodes &&
    Distinct(s.stack) && Distinct(finished) && s.onStack !! Elems(finished) &&
    (s.stack != [] ==> IsWalk(g, s.stack)) &&
    (forall c :: c in s.cycles ==> IsSimpleCycle(g, c)) &&
    FinishedFirst(Rest(g, s.cycles), finished)
  }

  lemma PushKeeps(g: Digraph, s: Search, finished: seq<Name>, node: Name)
    requires Searching(g, s, finished)
    requires node in g.nodes && node !in s.visited
    requires s.stack != [] ==> (s.stack[|s.stack| - 1], node) in g.edges
    ensures Searching(g, Search(s.cycles, s.visited + {node}, s.stack + [node], s.onStack + {node}), finished)
  {
    assert forall x :: x in s.stack ==> x in Elems(s.stack);
    assert Elems(s.stack + [node]) == Elems(s.stack) + {node};
    var w := s.stack + [node];
    forall i: nat | i + 1 < |w| ensures StepAt(g, w, i) {
      if i + 2 < |w| { assert StepAt(g, s.stack, i); }
    }
  }

  lemma PopKeeps(g: Digraph, s: Search, finished: seq<Name>, below: seq<Name>, node: Name)
    requires g.Valid() && Searching(g, s, finished)
    requires s.stack == below + [node]
    requires forall i :: 0 <= i < |Sorted(g.Succ(node))| ==>
      Sorted(g.Succ(node))[i] in finished || IsClosing(s.cycles, (node, Sorted(g.Succ(node))[i]))
    ensures s.stack[..|s.stack| - 1] == below
    ensures Searching(g, s.(stack := below, onStack := s.onStack - {node}), finished + [node])
  {
    assert node == s.stack[|below|];
    assert s.stack[..|below|] == below;
    if below != [] { WalkPrefix(g, s.stack, |below|); }
    assert node in Elems(s.stack);
    forall i | 0 <= i < |below| ensures below[i] != node {
      assert s.stack[i] != s.stack[|below|];
    }
    assert Elems(s.stack) == Elems(below) + {node};
    assert Elems(below) == Elems(s.stack) - {node};
    assert Elems(finished + [node]) == Elems(finished) + {node};
    assert node !in finished by { assert node in finished ==> node in Elems(finished); }
    var rest := Rest(g, s.cycles);
    forall m | m in rest.Succ(node) ensures m in finished {
      assert m in g.Succ(node);
      assert m in Elems(Sorted(g.Succ(node)));
    }
    FinishedFirstStep(rest, finished, node);
  }

  /** Without the closing edges of the recorded cycles no cycle is left, so each has one. */
  lemma AllCyclesAreCut(g: Digraph, s: Search, finished: seq<Name>)
    requires g.Valid() && Searching(g, s, finished)
    requires s.visited == g.nodes && s.stack == []
    ensures forall w :: IsCycle(g, w) ==> HasClosing(s.cycles, w)
    ensures s.cycles == [] ==> Acyclic(g)
  {
    var rest := Rest(g, s.cycles);
    assert Elems(finished) == rest.nodes;
    FinishedFirstIsTopological(rest, finished);
    TopologicalImpliesAcyclic(rest, Reversed(finished));
    forall w | IsCycle(g, w) ensures HasClosing(s.cycles, w) {
      CycleIsCut(g, s.cycles, w);
    }
  }

  lemma CycleIsCut(g: Digraph, cycles: seq<seq<Name>>, w: seq<Name>)
    requires Acyclic(Rest(g, cycles)) && IsCycle(g, w)
    ensures HasClosing(cycles, w)
  {
    var rest := Rest(g, cycles);
    if !HasClosing(cycles, w) {
      forall i: nat | i + 1 < |w| ensures StepAt(rest, w, i) {
        assert StepAt(g, w, i);
      }
      assert IsCycle(rest, w);
    }
  }

  /** An edge from the top of the stack to `nxt` on the stack: record the cycle it closes. */
  method BackEdge(ghost g: Digraph, s: Search, ghost finished: seq<Name>, nxt: Name) returns (r: Search)
    requires g.Valid() && Searching(g, s, finished)
    requires nxt in s.onStack && s.stack != [] && (s.stack[|s.stack| - 1], nxt) in g.edges
    ensures Searching(g, r, finished)
    ensures r == s.(cycles := r.cycles) && s.cycles < r.cycles
    ensures IsClosing(r.cycles, (s.stack[|s.stack| - 1], nxt))
  {
    assert nxt in s.stack;
    var idx := IndexOf(s.stack, nxt);
    ClosingTheStack(g, s.stack, idx);
    ghost var c := s.stack[idx..] + [nxt];
    r := s.(cycles := s.cycles + [s.stack[idx..] + [nxt]]);
    assert c in r.cycles && (c[|c| - 2], c[|c| - 1]) == (s.stack[|s.stack| - 1], nxt);
    ClosingsStay(s.cycles, r.cycles);
    FinishedFirstOfFewer(Rest(g, s.cycles), Rest(g, r.cycles), finished);
  }

  lemma FinishedFirstOfFewer(g: Digraph, h: Digraph, finished: seq<Name>)
    requires FinishedFirst(g, finished) && h.edges <= g.edges
    ensures FinishedFirst(h, finished)
  {
  }

  /** Every edge out of a finished node leads to one that finished earlier. */
  ghost predicate FinishedFirst(g: Digraph, finished: seq<Name>) {
    (forall e :: e in g.edges && e.0 in finished ==> e.1 in finished) &&
    forall i, j :: 0 <= i < |finished| && 0 <= j < |finished| && (finished[i], finished[j]) in g.edges ==> j < i
  }

  lemma FinishedFirstStep(g: Digraph, finished: seq<Name>, node: Name)
    requires g.Valid() && node !in finished
    ensures FinishedFirst(g, finished) && (forall m :: m in g.Succ(node) ==> m in finished)
        ==> FinishedFirst(g, finished + [node])
  {
    if FinishedFirst(g, finished) && (forall m :: m in g.Succ(node) ==> m in finished) {
      var next := finished + [node];
      forall e | e in g.edges && e.0 in next ensures e.1 in finished {
        if e.0 == node { assert e.1 in g.Succ(node); }
      }
      forall i, j | 0 <= i < |next| && 0 <= j < |next| && (next[i], next[j]) in g.edges ensures j < i {
        assert next[i] in next;
        assert next[j] in finished;
        assert j < |finished|;
      }
    }
  }

  ghost function Reversed(q: seq<Name>): seq<Name> {
    seq(|q|, i requires 0 <= i < |q| => q[|q| - 1 - i])
  }

  lemma FinishedFirstIsTopological(g: Digraph, finished: seq<Name>)
    requires g.Valid() && FinishedFirst(g, finished)
    requires Distinct(finished) && Elems(finished) == g.nodes
    ensures IsTopological(g, Reversed(finished))
  {
    var r := Reversed(finished);
    var last := |finished| - 1;
    forall x | x in finished ensures x in r {
      var i :| 0 <= i < |finished| && finished[i] == x;
      assert r[last - i] == x;
    }
    assert Elems(r) == Elems(finished);
    forall i, j | 0 <= i < |r| && 0 <= j < |r| && (r[i], r[j]) in g.edges ensures i < j {
      assert (finished[last - i], finished[last - j]) in g.edges;
    }
  }

  /** Python's `list.index`: the first occurrence. */
  function IndexOf(q: seq<Name>, x: Name): (i: nat)
    requires x in q
    ensures i < |q| && q[i] == x && x !in q[..i]
  {
    if q[0] == x then 0 else
      var i := 1 + IndexOf(q[1..], x);
      assert q[..i] == [q[0]] + q[1..][..i - 1];
      i
  }

  /** A back edge from the top of the stack closes a simple cycle. */
  lemma ClosingTheStack(g: Digraph, stack: seq<Name>, idx: nat)
    requires g.Valid() && IsWalk(g, stack) && Distinct(stack) && idx < |stack|
    requires (stack[|stack| - 1], stack[idx]) in g.edges
    ensures IsSimpleCycle(g, stack[idx..] + [stack[idx]])
  {
    var c := stack[idx..] + [stack[idx]];
    WalkStaysInside(g, stack, idx);
    forall i: nat | i + 1 < |c| ensures StepAt(g, c, i) {
      assert c[i] == stack[idx + i];
      if i + 2 < |c| { assert StepAt(g, stack, idx + i); }
    }
    assert c[..|c| - 1] == stack[idx..];
  }
}
