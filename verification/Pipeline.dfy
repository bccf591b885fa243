/** Building a pipeline and running it one component at a time. */
module Pipelines {
  import opened Wrappers
  import opened Names
  import opened Digraphs
  import opened Dataflow
  import G = Graph

  /** What a caller may hand to `add_component`: only decorated instances are accepted. */
  datatype Instance<!V> = Plain | Decorated(component: Component<V>)

  datatype AddResult = Registered | AlreadyRegistered | NotAComponent

  datatype ConnectResult =
    | Connected
    | MissingDot(text: string)
    | UnknownSender(name: Name)
    | UnknownReceiver(name: Name)
    | NoOutputSocket(socket: Socket)
    | NoInputSocket(socket: Socket)
    | SocketMismatch

  /** `MissingOutput` is the `KeyError` of reading an upstream value that is not there. */
  datatype RunResult<!V> = Ran(outputs: Table<V>) | CycleError(missing: seq<Name>) | MissingOutput(reader: Name)

  // ---- "component.socket" addresses ----

  /** `rsplit(".", 1)`: split at the last dot. */
  function Parse(s: string): Option<(Name, Socket)> {
    if s == [] then None
    else
      var n := |s| - 1;
      if s[n] == '.' then Some((s[..n], []))
      else match Parse(s[..n])
        case None => None
        case Some((name, sock)) => Some((name, sock + [s[n]]))
  }

  /** Addresses are read back as written, however many dots the component name has;
      only a socket name containing a dot would be read back differently. */
  lemma {:induction false} ParseInvertsAddress(name: Name, sock: Socket)
    ensures Parse(name + "." + sock) == Some((name, sock)) <==> '.' !in sock
    ensures Parse(name + "." + sock).Some?
  {
    var s := name + "." + sock;
    ParseSplits(s);
    if '.' !in sock {
      ParseAtLastDot(name, sock);
    }
  }

  lemma {:induction false} ParseAtLastDot(name: Name, sock: Socket)
    requires '.' !in sock
    ensures Parse(name + "." + sock) == Some((name, sock))
  {
    var s := name + "." + sock;
    var n := |s| - 1;
    if sock == [] {
      assert s[..n] == name;
    } else {
      assert s[n] == sock[|sock| - 1];
      assert s[..n] == name + "." + sock[..|sock| - 1];
      ParseAtLastDot(name, sock[..|sock| - 1]);
      assert sock == sock[..|sock| - 1] + [s[n]];
    }
  }

  lemma {:induction false} ParseSplits(s: string)
    ensures Parse(s).Some? <==> '.' in s
    ensures Parse(s).Some? ==> '.' !in Parse(s).value.1 && s == Parse(s).value.0 + "." + Parse(s).value.1
  {
    if s != [] {
      var n := |s| - 1;
      assert s == s[..n] + [s[n]];
      ParseSplits(s[..n]);
    }
  }

  // ---- socket types ----

  predicate TypesCompatible(src: SocketType, dst: SocketType) {
    if src == dst || src.AnyType? || dst.AnyType? then true
    else if src.Class? && dst.Class? then dst.name in src.bases
    else true
  }

  /** When types fit: a type fits itself, `Any` fits everything, a class fits its bases and no other
      class, and what is not a class is left to run time. */
  lemma TypesFit(src: SocketType, dst: SocketType)
    ensures TypesCompatible(src, src)
    ensures TypesCompatible(AnyType, dst) && TypesCompatible(src, AnyType)
    ensures src.Class? && dst.Class? && src != dst ==> (TypesCompatible(src, dst) <==> dst.name in src.bases)
    ensures src.Generic? || dst.Generic? ==> TypesCompatible(src, dst)
  {
  }

  class Pipeline<V(!new)> {
    const graph: G.Graph
    var components: map<Name, Component<V>>
    var connections: seq<Connection>

    ghost function Value(): Wiring<V>
      reads this
    {
      Wiring(components, connections)
    }

    ghost predicate Valid()
      reads this, graph
    {
      graph.Valid() && graph.Value() == GraphOf(Value()) && WellWired(Value())
    }

    constructor ()
      ensures Valid() && fresh(graph)
      ensures Value() == Wiring(map[], [])
    {
      graph := new G.Graph();
      components, connections := map[], [];
    }

    method AddComponent(name: Name, instance: Instance<V>) returns (r: AddResult)
      requires Valid()
      modifies this, graph
      ensures Valid()
      ensures r == if name in old(components) then AlreadyRegistered
                   else if instance.Plain? then NotAComponent else Registered
      ensures r != Registered ==> Value() == old(Value())
      ensures r == Registered ==>
        Value() == Wiring(old(components)[name := instance.component], old(connections))
    {
      if name in components { return AlreadyRegistered; }
      if instance.Plain? { return NotAComponent; }
      components := components[name := instance.component];
      graph.AddNode(name);
      r := Registered;
    }

    method Connect(sender: string, receiver: string) returns (r: ConnectResult)
      requires Valid()
      modifies this, graph
      ensures Valid()
      ensures r == Verdict(old(components), sender, receiver)
      ensures r != Connected ==> Value() == old(Value())
      ensures r == Connected ==>
        var (src, srcSock), (dst, dstSock) := Parse(sender).value, Parse(receiver).value;
        Value() == Wiring(old(components), old(connections) + [Connection(src, srcSock, dst, dstSock)])
    {
      hide Verdict, Parse, TypesCompatible;
      r := Verdict(components, sender, receiver);
      if r != Connected { return; }
      var from, to := Parse(sender).value, Parse(receiver).value;
      ghost var before := Value();
      var wire := Connection(from.0, from.1, to.0, to.1);
      var added := graph.AddEdge(wire.src, wire.dst);
      connections := connections + [wire];
      GraphGrows(before, wire);
    }

    /** Sequential execution. A cyclic pipeline is refused with the nodes downstream of a
        cycle; otherwise the outputs solve the dataflow equations. */
    method Run(inputs: Table<V>) returns (r: RunResult<V>)
      requires Valid()
      ensures r.CycleError? <==> !Acyclic(GraphOf(Value()))
      ensures r.CycleError? ==>
        forall n :: n in r.missing <==> n in components && FromCycle(GraphOf(Value()), n)
      ensures r.Ran? ==> Solves(Value(), inputs, r.outputs)
      ensures r.Ran? ==> forall n :: n in components ==> RunsOnGiven(Value(), inputs, r.outputs, n)
      ensures r.MissingOutput? ==> !KeepsPromises(Value())
    {
      var order := graph.TopologicalSort();
      if order.Cyclic? { return CycleError(order.missing); }
      r := RunInner(order.order, inputs);
      if r.Ran? {
        SolvedRuns(Value(), inputs, r.outputs);
      }
    }

    method RunInner(order: seq<Name>, inputs: Table<V>) returns (r: RunResult<V>)
      requires Valid() && IsTopological(GraphOf(Value()), order)
      ensures !r.CycleError?
      ensures r.Ran? ==> Solves(Value(), inputs, r.outputs)
      ensures r.MissingOutput? ==> !KeepsPromises(Value())
    {
      hide RowSolved, Resolve, Available, KeepsPromises, Acyclic, WellWired;
      ghost var w := Value();
      var outputs: Table<V> := map[];
      var k := 0;
      while k < |order|
        invariant 0 <= k <= |order|
        invariant PartlySolved(w, inputs, outputs) && outputs.Keys == Elems(order[..k])
      {
        var name := order[k];
        assert name in Elems(order);
        assert order[..k + 1] == order[..k] + [name];
        var resolved := ResolveInputs(name, inputs, outputs);
        NotYetRun(order, k);
        if resolved.None? {
          UpstreamHasRun(w, inputs, order, k, outputs);
          return MissingOutput(name);
        }
        ghost var before := outputs;
        outputs := outputs[name := Apply(components[name], resolved.value)];
        RowAdded(w, inputs, before, name);
        k := k + 1;
      }
      assert order[..k] == order;
      r := Ran(outputs);
    }

    method ResolveInputs(name: Name, entryInputs: Table<V>, outputs: Table<V>) returns (r: Option<map<Socket, V>>)
      ensures r.Some? <==> Available(connections, name, outputs)
      ensures r.Some? ==> r.value == Resolve(connections, name, Entry(entryInputs, name), outputs)
      ensures r.Some? ==> IsGiven(connections, entryInputs, outputs, name, r.value)
    {
      var resolved := Entry(entryInputs, name);
      var k := 0;
      while k < |connections|
        invariant 0 <= k <= |connections|
        invariant Available(connections[..k], name, outputs)
        invariant resolved == Resolve(connections[..k], name, Entry(entryInputs, name), outputs)
      {
        var c := connections[k];
        assert c in connections;
        assert connections[..k + 1][..k] == connections[..k];
        assert connections[..k + 1] == connections[..k] + [c];
        if c.dst == name {
          if c.src !in outputs || c.srcSock !in outputs[c.src] { return None; }
          resolved := resolved[c.dstSock := outputs[c.src][c.srcSock]];
        }
        k := k + 1;
      }
      assert connections[..k] == connections;
      ResolvedIsGiven(connections, entryInputs, outputs, name);
      r := Some(resolved);
    }
  }

  /** The checks of `connect`, in the order they are made. */
  function Verdict<V>(components: map<Name, Component<V>>, sender: string, receiver: string): (r: ConnectResult)
    ensures r == Connected ==> Parse(sender).Some? && Parse(receiver).Some?
    ensures r == Connected ==>
      var (src, srcSock), (dst, dstSock) := Parse(sender).value, Parse(receiver).value;
      src in components && dst in components &&
      srcSock in components[src].outputs && dstSock in components[dst].inputs &&
      TypesCompatible(components[src].outputs[srcSock], components[dst].inputs[dstSock])
    ensures r.MissingDot? <==> Parse(sender).None? || Parse(receiver).None?
    ensures r.MissingDot? ==> r.text == if Parse(sender).None? then sender else receiver
    ensures Parse(sender).Some? && Parse(receiver).Some? ==>
      var (src, srcSock), (dst, dstSock) := Parse(sender).value, Parse(receiver).value;
      && (r == UnknownSender(src) <==> src !in components)
      && (r == UnknownReceiver(dst) <==> src in components && dst !in components)
      && (src in components && dst in components ==>
            var outputs, inputs := components[src].outputs, components[dst].inputs;
            && (r == NoOutputSocket(srcSock) <==> srcSock !in outputs)
            && (r == NoInputSocket(dstSock) <==> srcSock in outputs && dstSock !in inputs)
            && (srcSock in outputs && dstSock in inputs ==>
                  (r == Connected <==> TypesCompatible(outputs[srcSock], inputs[dstSock]))
                  && (r == SocketMismatch <==> !TypesCompatible(outputs[srcSock], inputs[dstSock]))))
  {
    if Parse(sender).None? then MissingDot(sender)
    else if Parse(receiver).None? then MissingDot(receiver)
    else
      var (src, srcSock), (dst, dstSock) := Parse(sender).value, Parse(receiver).value;
      if src !in components then UnknownSender(src)
      else if dst !in components then UnknownReceiver(dst)
      else if srcSock !in components[src].outputs then NoOutputSocket(srcSock)
      else if dstSock !in components[dst].inputs then NoInputSocket(dstSock)
      else if !TypesCompatible(components[src].outputs[srcSock], components[dst].inputs[dstSock]) then SocketMismatch
      else Connected
  }

  lemma GraphGrows<V>(w: Wiring<V>, c: Connection)
    ensures GraphOf(w.(connections := w.connections + [c])) ==
            Digraph(w.components.Keys, GraphOf(w).edges + {(c.src, c.dst)})
  {
    var grown := w.(connections := w.connections + [c]);
    forall e ensures e in GraphOf(grown).edges <==> e in GraphOf(w).edges || e == (c.src, c.dst) {
      if e == (c.src, c.dst) { assert c in grown.connections; }
      if e in GraphOf(w).edges {
        var d :| d in w.connections && e == (d.src, d.dst);
        assert d in grown.connections;
      }
    }
  }

  // ---- what the sequential loop keeps ----

  ghost predicate PartlySolved<V>(w: Wiring<V>, inputs: Table<V>, outputs: Table<V>) {
    forall n :: n in outputs ==> RowSolved(w, inputs, outputs, n)
  }

  lemma RowAdded<V>(w: Wiring<V>, inputs: Table<V>, outputs: Table<V>, n: Name)
    requires PartlySolved(w, inputs, outputs)
    requires n in w.components && n !in outputs && Available(w.connections, n, outputs)
    ensures PartlySolved(w, inputs,
      outputs[n := Apply(w.components[n], Resolve(w.connections, n, Entry(inputs, n), outputs))])
  {
    var grown := outputs[n := Apply(w.components[n], Resolve(w.connections, n, Entry(inputs, n), outputs))];
    forall m | m in grown ensures RowSolved(w, inputs, grown, m) {
      if m != n { assert RowSolved(w, inputs, outputs, m); }
      ResolveReadsUpstream(w.connections, m, Entry(inputs, m), outputs, grown);
    }
  }

  lemma NotYetRun(order: seq<Name>, k: nat)
    requires Distinct(order) && k < |order|
    ensures order[k] !in order[..k]
  {
  }

  /** In a dependency order, only a component that withholds a declared output can make a
      lookup fail: everything upstream has run. */
  lemma UpstreamHasRun<V(!new)>(w: Wiring<V>, inputs: Table<V>, order: seq<Name>, k: nat, outputs: Table<V>)
    requires WellWired(w) && IsTopological(GraphOf(w), order) && k < |order|
    requires PartlySolved(w, inputs, outputs) && outputs.Keys == Elems(order[..k])
    ensures KeepsPromises(w) ==> Available(w.connections, order[k], outputs)
  {
    forall c | KeepsPromises(w) && c in w.connections && c.dst == order[k]
      ensures c.src in outputs && c.srcSock in outputs[c.src]
    {
      UpstreamIsEarlier(w, order, c, k);
      var i :| 0 <= i < k && order[i] == c.src;
      assert order[..k][i] == c.src;
      assert c.src in outputs.Keys;
      assert RowSolved(w, inputs, outputs, c.src);
    }
  }
}
