/** The meaning of a wired pipeline, independent of how it is executed: the equations
    that its outputs solve, and the fact that acyclic wiring has at most one solution. */
module Dataflow {
  import opened Wrappers
  import opened Names
  import opened Digraphs

  type Socket = string

  datatype SocketType = AnyType | Class(name: string, bases: set<string>) | Generic(text: string)

  /** A component is a total function from its resolved inputs to the dict its `run`
      returns (`None` when it returns nothing). */
  datatype Component<!V> = Component(
    inputs: map<Socket, SocketType>,
    outputs: map<Socket, SocketType>,
    group: string,
    run: map<Socket, V> -> Option<map<Socket, V>>)

  datatype Connection = Connection(src: Name, srcSock: Socket, dst: Name, dstSock: Socket)

  datatype Wiring<!V> = Wiring(components: map<Name, Component<V>>, connections: seq<Connection>)

  type Table<V> = map<Name, map<Socket, V>>

  function Apply<V>(c: Component<V>, resolved: map<Socket, V>): map<Socket, V> {
    match c.run(resolved)
    case Some(outs) => outs
    case None => map[]
  }

  function Entry<V>(inputs: Table<V>, n: Name): map<Socket, V> {
    if n in inputs then inputs[n] else map[]
  }

  function GraphOf<V>(w: Wiring<V>): Digraph {
    Digraph(w.components.Keys, set c | c in w.connections :: (c.src, c.dst))
  }

  /** What `connect` guarantees of every wire. */
  ghost predicate WellWired<V>(w: Wiring<V>) {
    forall c :: c in w.connections ==>
      c.src in w.components && c.dst in w.components &&
      c.srcSock in w.components[c.src].outputs && c.dstSock in w.components[c.dst].inputs
  }

  /** Components deliver every socket they declare. */
  ghost predicate KeepsPromises<V(!new)>(w: Wiring<V>) {
    forall n, given {:trigger Apply(w.components[n], given)} :: n in w.components ==>
      w.components[n].outputs.Keys <= Apply(w.components[n], given).Keys
  }

  /** Every upstream value that `n` is wired to has been produced. */
  ghost predicate Available<V>(conns: seq<Connection>, n: Name, outputs: Table<V>) {
    forall c :: c in conns && c.dst == n ==> c.src in outputs && c.srcSock in outputs[c.src]
  }

  /** Entry values first, then each wire into `n` in connection order. */
  function Resolve<V>(conns: seq<Connection>, n: Name, entry: map<Socket, V>, outputs: Table<V>): map<Socket, V>
    requires Available(conns, n, outputs)
  {
    if conns == [] then entry
    else
      var c := conns[|conns| - 1];
      var before := Resolve(conns[..|conns| - 1], n, entry, outputs);
      if c.dst == n then before[c.dstSock := outputs[c.src][c.srcSock]] else before
  }

  ghost predicate Feeds(c: Connection, n: Name, sock: Socket) {
    c.dst == n && c.dstSock == sock
  }

  /** The position of the latest wire into the socket, or -1. */
  ghost function LastFeed(conns: seq<Connection>, n: Name, sock: Socket): (i: int)
    ensures -1 <= i < |conns|
    ensures 0 <= i ==> Feeds(conns[i], n, sock)
    ensures forall j :: i < j < |conns| ==> !Feeds(conns[j], n, sock)
  {
    var m := |conns| - 1;
    if conns == [] then -1
    else if Feeds(conns[m], n, sock) then m
    else
      var i := LastFeed(conns[..m], n, sock);
      assert forall j :: i < j < m ==> !Feeds(conns[..m][j], n, sock);
      i
  }

  /** Socket by socket: the latest wire into a socket wins, an unwired socket keeps its
      entry value, and no other socket is supplied. */
  lemma {:induction false} ResolveBySocket<V>(conns: seq<Connection>, n: Name, entry: map<Socket, V>,
                                              outputs: Table<V>, sock: Socket)
    requires Available(conns, n, outputs)
    ensures var r, i := Resolve(conns, n, entry, outputs), LastFeed(conns, n, sock);
      if 0 <= i then conns[i] in conns && sock in r && r[sock] == outputs[conns[i].src][conns[i].srcSock]
      else (sock in r <==> sock in entry) && (sock in r ==> r[sock] == entry[sock])
  {
    if conns != [] {
      assert conns[|conns| - 1] in conns;
      ResolveBySocket(conns[..|conns| - 1], n, entry, outputs, sock);
    }
  }

  /** Resolution reads only the upstream rows of the table. */
  lemma {:induction false} ResolveReadsUpstream<V>(conns: seq<Connection>, n: Name, entry: map<Socket, V>,
                                                   a: Table<V>, b: Table<V>)
    requires Available(conns, n, a)
    requires forall c :: c in conns && c.dst == n ==> c.src in b && a[c.src] == b[c.src]
    ensures Available(conns, n, b) && Resolve(conns, n, entry, a) == Resolve(conns, n, entry, b)
  {
    if conns != [] {
      assert conns[|conns| - 1] in conns;
      ResolveReadsUpstream(conns[..|conns| - 1], n, entry, a, b);
    }
  }

  /** Row `n` of the table is what component `n` makes of its resolved inputs. */
  ghost predicate RowSolved<V>(w: Wiring<V>, inputs: Table<V>, outputs: Table<V>, n: Name) {
    n in w.components && n in outputs && Available(w.connections, n, outputs) &&
    outputs[n] == Apply(w.components[n], Resolve(w.connections, n, Entry(inputs, n), outputs))
  }

  ghost predicate Solves<V>(w: Wiring<V>, inputs: Table<V>, outputs: Table<V>) {
    outputs.Keys == w.components.Keys &&
    forall n :: n in outputs ==> RowSolved(w, inputs, outputs, n)
  }

  // ---- the equations, socket by socket ----

  /** What the wiring and the entry inputs supply to `n`: a wired socket has the value of the
      latest wire into it, any other socket the entry value for it, if there is one. */
  ghost predicate IsGiven<V>(conns: seq<Connection>, inputs: Table<V>, outputs: Table<V>, n: Name,
                             given: map<Socket, V>) {
    forall sock: Socket :: IsSupplied(conns, inputs, outputs, n, given, sock)
  }

  ghost predicate IsSupplied<V>(conns: seq<Connection>, inputs: Table<V>, outputs: Table<V>, n: Name,
                                given: map<Socket, V>, sock: Socket)
  {
    var i := LastFeed(conns, n, sock);
    if 0 <= i then
      && conns[i].src in outputs && conns[i].srcSock in outputs[conns[i].src]
      && sock in given && given[sock] == outputs[conns[i].src][conns[i].srcSock]
    else
      && (sock in given <==> n in inputs && sock in inputs[n])
      && (sock in given ==> given[sock] == inputs[n][sock])
  }

  lemma ResolvedIsGiven<V>(conns: seq<Connection>, inputs: Table<V>, outputs: Table<V>, n: Name)
    requires Available(conns, n, outputs)
    ensures IsGiven(conns, inputs, outputs, n, Resolve(conns, n, Entry(inputs, n), outputs))
  {
    var given := Resolve(conns, n, Entry(inputs, n), outputs);
    forall sock: Socket ensures IsSupplied(conns, inputs, outputs, n, given, sock) {
      ResolveBySocket(conns, n, Entry(inputs, n), outputs, sock);
      hide Resolve;
    }
  }

  lemma GivenIsUnique<V>(conns: seq<Connection>, inputs: Table<V>, outputs: Table<V>, n: Name,
                         a: map<Socket, V>, b: map<Socket, V>)
    requires IsGiven(conns, inputs, outputs, n, a) && IsGiven(conns, inputs, outputs, n, b)
    ensures a == b
  {
    forall sock: Socket ensures sock in a <==> sock in b
                        ensures sock in a && sock in b ==> a[sock] == b[sock]
    {
      assert IsSupplied(conns, inputs, outputs, n, a, sock) && IsSupplied(conns, inputs, outputs, n, b, sock);
    }
  }

  /** The component's own `run`, on exactly what it is given; nothing returned counts as an
      empty dict. */
  ghost predicate RunsOnGiven<V(!new)>(w: Wiring<V>, inputs: Table<V>, outputs: Table<V>, n: Name) {
    n in w.components && n in outputs &&
    exists given :: IsGiven(w.connections, inputs, outputs, n, given) &&
      match w.components[n].run(given)
      case Some(returned) => outputs[n] == returned
      case None => outputs[n] == map[]
  }

  /** The solutions are the tables in which every component has run on what it is given, every
      wire into it having a value. */
  lemma SolvesMeans<V(!new)>(w: Wiring<V>, inputs: Table<V>, outputs: Table<V>)
    ensures Solves(w, inputs, outputs) <==>
      && outputs.Keys == w.components.Keys
      && forall n :: n in outputs ==> Available(w.connections, n, outputs) && RunsOnGiven(w, inputs, outputs, n)
  {
    forall n | n in outputs && Available(w.connections, n, outputs)
      ensures RowSolved(w, inputs, outputs, n) <==> RunsOnGiven(w, inputs, outputs, n)
    {
      RowMeans(w, inputs, outputs, n);
    }
    hide RunsOnGiven, Available, Resolve;
  }

  /** In a solution every component has run on what it is given. */
  lemma SolvedRuns<V(!new)>(w: Wiring<V>, inputs: Table<V>, outputs: Table<V>)
    requires Solves(w, inputs, outputs)
    ensures forall n :: n in w.components ==> RunsOnGiven(w, inputs, outputs, n)
  {
    assert forall n :: n in outputs ==> RowSolved(w, inputs, outputs, n);
    hide RunsOnGiven;
    SolvesMeans(w, inputs, outputs);
  }

  lemma RowMeans<V(!new)>(w: Wiring<V>, inputs: Table<V>, outputs: Table<V>, n: Name)
    requires Available(w.connections, n, outputs)
    ensures RowSolved(w, inputs, outputs, n) <==> RunsOnGiven(w, inputs, outputs, n)
  {
    var conns := w.connections;
    var resolved := Resolve(conns, n, Entry(inputs, n), outputs);
    ResolvedIsGiven(conns, inputs, outputs, n);
    hide Resolve, Entry, IsGiven;
    forall given | IsGiven(conns, inputs, outputs, n, given) ensures given == resolved {
      GivenIsUnique(conns, inputs, outputs, n, given, resolved);
    }
  }

  /** Acyclic wiring has at most one solution. */
  lemma SolutionIsUnique<V>(w: Wiring<V>, inputs: Table<V>, order: seq<Name>, a: Table<V>, b: Table<V>)
    requires IsTopological(GraphOf(w), order)
    requires Solves(w, inputs, a) && Solves(w, inputs, b)
    ensures a == b
  {
    hide RowSolved, Resolve, Available;
    var k := 0;
    while k < |order|
      invariant 0 <= k <= |order|
      invariant forall i :: 0 <= i < k ==> order[i] in a && a[order[i]] == b[order[i]]
    {
      RowsAgree(w, inputs, order, a, b, k);
      k := k + 1;
    }
    forall n | n in a ensures a[n] == b[n] {
      assert n in Elems(order);
      var i :| 0 <= i < |order| && order[i] == n;
    }
  }

  lemma RowsAgree<V>(w: Wiring<V>, inputs: Table<V>, order: seq<Name>, a: Table<V>, b: Table<V>, k: nat)
    requires IsTopological(GraphOf(w), order) && k < |order|
    requires Solves(w, inputs, a) && Solves(w, inputs, b)
    requires forall i :: 0 <= i < k ==> order[i] in a && a[order[i]] == b[order[i]]
    ensures order[k] in a && a[order[k]] == b[order[k]]
  {
    var n := order[k];
    assert n in Elems(order);
    assert RowSolved(w, inputs, a, n) && RowSolved(w, inputs, b, n);
    forall c | c in w.connections && c.dst == n ensures c.src in b && a[c.src] == b[c.src] {
      UpstreamIsEarlier(w, order, c, k);
    }
    ResolveReadsUpstream(w.connections, n, Entry(inputs, n), a, b);
  }

  lemma UpstreamIsEarlier<V>(w: Wiring<V>, order: seq<Name>, c: Connection, k: nat)
    requires IsTopological(GraphOf(w), order) && k < |order|
    requires c in w.connections && c.dst == order[k] && c.src in w.components
    ensures exists i :: 0 <= i < k && order[i] == c.src
  {
    assert (c.src, c.dst) in GraphOf(w).edges;
    assert c.src in Elems(order);
    var i :| 0 <= i < |order| && order[i] == c.src;
    assert (order[i], order[k]) in GraphOf(w).edges;
  }
}
