/** Level-by-level concurrent execution, as a state machine over the steps the event loop
    can interleave. Within a level the members of a concurrency group start under that
    group's semaphore, finish in any order, and the outputs table is written only when the
    whole level has drained. */
module AsyncPipelines {
  import opened Names
  import opened Digraphs
  import opened Dataflow
  import opened Levels
  import opened GroupResults
  import P = Pipelines
  import G = Graph

  datatype Config<!V> = Config(
    w: Wiring<V>, inputs: Table<V>, levels: seq<seq<Name>>, max: nat, ghost depth: map<Name, nat>)

  /** `finished` holds, per group, the completions of the current level in the order they
      happened; `started` logs every component body that has begun. */
  datatype State<!V> = State(
    level: nat,
    waiting: set<Name>,
    running: map<Name, map<Socket, V>>,
    finished: map<string, seq<Done<map<Socket, V>>>>,
    outputs: Table<V>,
    started: seq<Name>,
    failed: bool)

  ghost predicate Ready<V(!new)>(c: Config<V>) {
    WellWired(c.w) && KeepsPromises(c.w) && LevelsBy(GraphOf(c.w), c.depth, c.levels) && c.max >= 1
  }

  // ---- groups ----

  /** The members of a group in one level, in the level's order. */
  function Members<V>(w: Wiring<V>, level: seq<Name>, group: string): (ms: seq<Name>)
    ensures forall n :: n in ms <==> n in level && n in w.components && w.components[n].group == group
  {
    if level == [] then []
    else
      var k := |level| - 1;
      var before := Members(w, level[..k], group);
      assert level == level[..k] + [level[k]];
      if level[k] in w.components && w.components[level[k]].group == group then before + [level[k]] else before
  }

  lemma {:induction false} MembersAreDistinct<V>(w: Wiring<V>, level: seq<Name>, group: string)
    requires Distinct(level)
    ensures Distinct(Members(w, level, group))
  {
    if level != [] {
      MembersAreDistinct(w, level[..|level| - 1], group);
    }
  }

  ghost function LevelMembers<V>(c: Config<V>, s: State<V>, group: string): seq<Name> {
    if s.level < |c.levels| then Members(c.w, c.levels[s.level], group) else []
  }

  function FinishedIn<V>(s: State<V>, group: string): seq<Done<map<Socket, V>>> {
    if group in s.finished then s.finished[group] else []
  }

  ghost function OfGroup<V>(w: Wiring<V>, names: set<Name>, group: string): set<Name> {
    set n | n in names && n in w.components && w.components[n].group == group
  }

  ghost function InFlight<V>(c: Config<V>, s: State<V>, group: string): set<Name> {
    OfGroup(c.w, s.running.Keys, group)
  }

  // ---- steps ----

  function Enter<V>(c: Config<V>, level: nat, outputs: Table<V>, started: seq<Name>): State<V> {
    State(level, if level < |c.levels| then Elems(c.levels[level]) else {}, map[], map[], outputs, started, false)
  }

  function Initial<V>(c: Config<V>): State<V> {
    Enter(c, 0, map[], [])
  }

  /** A member passes its group's semaphore, resolves its inputs and starts. A missing
      upstream value would raise inside the task. */
  ghost predicate Begin<V>(c: Config<V>, s: State<V>, t: State<V>, n: Name) {
    !s.failed && s.level < |c.levels| && n in s.waiting && n in c.w.components &&
    |InFlight(c, s, c.w.components[n].group)| < c.max &&
    t == if Available(c.w.connections, n, s.outputs)
         then s.(waiting := s.waiting - {n},
                 running := s.running[n := Resolve(c.w.connections, n, Entry(c.inputs, n), s.outputs)],
                 started := s.started + [n])
         else s.(failed := true)
  }

  /** A running member returns; its result is tagged with its position in the group. */
  ghost predicate Finish<V>(c: Config<V>, s: State<V>, t: State<V>, n: Name) {
    !s.failed && s.level < |c.levels| && n in s.running && n in c.w.components &&
    var group := c.w.components[n].group;
    n in Members(c.w, c.levels[s.level], group) &&
    t == s.(running := s.running - {n},
            finished := s.finished[group := FinishedIn(s, group) +
              [Done(G.IndexOf(Members(c.w, c.levels[s.level], group), n), Apply(c.w.components[n], s.running[n]))]])
  }

  /** Zip members with restored results, as the outer gather does for every group. */
  ghost function Collected<V>(c: Config<V>, s: State<V>): Table<V>
    requires s.level < |c.levels|
  {
    map n | n in c.levels[s.level] && HasResult(c, s, n) :: ResultOf(c, s, n)
  }

  ghost predicate HasResult<V>(c: Config<V>, s: State<V>, n: Name) {
    n in c.w.components &&
    var group := c.w.components[n].group;
    n in LevelMembers(c, s, group) &&
    G.IndexOf(LevelMembers(c, s, group), n) < |Restored(FinishedIn(s, group))|
  }

  ghost function ResultOf<V>(c: Config<V>, s: State<V>, n: Name): map<Socket, V>
    requires HasResult(c, s, n)
  {
    var group := c.w.components[n].group;
    Restored(FinishedIn(s, group))[G.IndexOf(LevelMembers(c, s, group), n)]
  }

  /** All groups of the level have drained: write the table and enter the next level. */
  ghost predicate Barrier<V>(c: Config<V>, s: State<V>, t: State<V>) {
    !s.failed && s.level < |c.levels| && s.waiting == {} && s.running == map[] &&
    t == Enter(c, s.level + 1, s.outputs + Collected(c, s), s.started)
  }

  ghost predicate Step<V>(c: Config<V>, s: State<V>, t: State<V>) {
    (exists n :: Begin(c, s, t, n)) || (exists n :: Finish(c, s, t, n)) || Barrier(c, s, t)
  }

  ghost predicate IsRun<V>(c: Config<V>, run: seq<State<V>>) {
    run != [] && run[0] == Initial(c) && forall i {:trigger run[i]} :: 0 < i < |run| ==> Step(c, run[i - 1], run[i])
  }

  // ---- what every step keeps ----

  ghost predicate Current<V>(c: Config<V>, s: State<V>, n: Name) {
    n in c.w.components && n in c.depth && c.depth[n] == s.level
  }

  ghost predicate RanEarlier<V>(c: Config<V>, s: State<V>, n: Name) {
    n in c.w.components && n in c.depth && c.depth[n] < s.level
  }

  ghost predicate Returned<V>(c: Config<V>, s: State<V>, n: Name) {
    Current(c, s, n) && n !in s.waiting && n !in s.running
  }

  ghost predicate IsRowValue<V>(c: Config<V>, outputs: Table<V>, n: Name, v: map<Socket, V>) {
    n in c.w.components && Available(c.w.connections, n, outputs) &&
    v == Apply(c.w.components[n], Resolve(c.w.connections, n, Entry(c.inputs, n), outputs))
  }

  ghost predicate TableKept<V>(c: Config<V>, s: State<V>) {
    !s.failed && s.level <= |c.levels| &&
    P.PartlySolved(c.w, c.inputs, s.outputs) &&
    forall n :: n in s.outputs <==> RanEarlier(c, s, n)
  }

  ghost predicate HoldsInputs<V>(c: Config<V>, s: State<V>, n: Name) {
    n in s.running && Available(c.w.connections, n, s.outputs) &&
    s.running[n] == Resolve(c.w.connections, n, Entry(c.inputs, n), s.outputs)
  }

  ghost predicate TasksKept<V>(c: Config<V>, s: State<V>) {
    (forall n :: n in s.waiting ==> Current(c, s, n)) &&
    (forall n :: n in s.running ==> Current(c, s, n) && n !in s.waiting && HoldsInputs(c, s, n))
  }

  ghost predicate StartedOnce<V>(c: Config<V>, s: State<V>) {
    Distinct(s.started) &&
    forall n :: n in s.started <==> RanEarlier(c, s, n) || (Current(c, s, n) && n !in s.waiting)
  }

  ghost predicate IsMemberResult<V>(c: Config<V>, s: State<V>, ms: seq<Name>, d: Done<map<Socket, V>>) {
    d.index < |ms| && Returned(c, s, ms[d.index]) && IsRowValue(c, s.outputs, ms[d.index], d.value)
  }

  ghost predicate GroupKept<V>(c: Config<V>, s: State<V>, group: string) {
    var q, ms := FinishedIn(s, group), LevelMembers(c, s, group);
    |InFlight(c, s, group)| <= c.max &&
    DistinctTags(q) &&
    (forall d :: d in q ==> IsMemberResult(c, s, ms, d)) &&
    (forall i: nat {:trigger ms[i]} :: i < |ms| && Returned(c, s, ms[i]) ==> HasTag(q, i))
  }

  ghost predicate Kept<V>(c: Config<V>, s: State<V>) {
    TableKept(c, s) && TasksKept(c, s) && StartedOnce(c, s) &&
    forall group {:trigger GroupKept(c, s, group)} :: GroupKept(c, s, group)
  }

  // ---- entering a level ----

  lemma EnterIsKept<V(!new)>(c: Config<V>, level: nat, outputs: Table<V>, started: seq<Name>)
    requires Ready(c) && level <= |c.levels|
    requires TableKept(c, Enter(c, level, outputs, started))
    requires Distinct(started) && forall n :: n in started <==> n in outputs
    ensures Kept(c, Enter(c, level, outputs, started))
  {
    var s := Enter(c, level, outputs, started);
    forall n ensures n in s.waiting <==> Current(c, s, n) { }
    forall group ensures GroupKept(c, s, group) {
      assert InFlight(c, s, group) == {};
      var ms := LevelMembers(c, s, group);
      forall i: nat | i < |ms| ensures !Returned(c, s, ms[i]) {
        assert ms[i] in ms;
      }
    }
  }

  lemma EnteredIsKept<V(!new)>(c: Config<V>, t: State<V>)
    requires Ready(c) && TableKept(c, t) && t == Enter(c, t.level, t.outputs, t.started)
    requires Distinct(t.started) && forall n :: n in t.started <==> n in t.outputs
    ensures Kept(c, t)
  {
    EnterIsKept(c, t.level, t.outputs, t.started);
  }

  lemma InitialIsKept<V(!new)>(c: Config<V>)
    requires Ready(c)
    ensures Kept(c, Initial(c))
  {
    EnterIsKept(c, 0, map[], []);
  }

  // ---- beginning ----

  /** No lookup of a value that has not been produced: everything upstream of a waiting
      component lies in an earlier level. */
  lemma UpstreamIsReady<V(!new)>(c: Config<V>, s: State<V>, n: Name)
    requires Ready(c) && TableKept(c, s) && Current(c, s, n)
    ensures Available(c.w.connections, n, s.outputs)
  {
    var g := GraphOf(c.w);
    assert DepthAt(g, c.depth, n);
    forall k | k in c.w.connections && k.dst == n ensures k.src in s.outputs && k.srcSock in s.outputs[k.src] {
      assert (k.src, n) in g.edges;
      assert k.src in g.Pred(n);
      assert RanEarlier(c, s, k.src);
      assert RowSolved(c.w, c.inputs, s.outputs, k.src);
    }
  }

  lemma BeginKeeps<V(!new)>(c: Config<V>, s: State<V>, t: State<V>, n: Name)
    requires Ready(c) && Kept(c, s) && Begin(c, s, t, n)
    ensures Kept(c, t)
  {
    assert Current(c, s, n);
    UpstreamIsReady(c, s, n);
    BeginKeepsTasks(c, s, t, n);
    hide Ready, TableKept, TasksKept, StartedOnce, Available;
    forall group ensures GroupKept(c, t, group) {
      assert GroupKept(c, s, group);
      BeginKeepsGroup(c, s, t, n, group);
    }
  }

  lemma BeginKeepsTasks<V>(c: Config<V>, s: State<V>, t: State<V>, n: Name)
    requires TableKept(c, s) && TasksKept(c, s) && StartedOnce(c, s) && Current(c, s, n)
    requires Begin(c, s, t, n) && Available(c.w.connections, n, s.outputs)
    ensures TableKept(c, t) && TasksKept(c, t) && StartedOnce(c, t) && !t.failed
  {
    hide RowSolved, Available, Resolve, OfGroup;
  }

  lemma BeginChanges<V>(c: Config<V>, s: State<V>, t: State<V>, n: Name)
    requires Begin(c, s, t, n) && !t.failed
    ensures t.level == s.level && t.finished == s.finished && t.outputs == s.outputs && t.started == s.started + [n]
    ensures n in s.waiting && t.waiting == s.waiting - {n} && t.running.Keys == s.running.Keys + {n}
    ensures n in c.w.components && |InFlight(c, s, c.w.components[n].group)| < c.max
  {
    hide Available, Resolve, Entry, InFlight;
  }

  lemma BeginKeepsGroup<V(!new)>(c: Config<V>, s: State<V>, t: State<V>, n: Name, group: string)
    requires TasksKept(c, s) && GroupKept(c, s, group) && Begin(c, s, t, n) && !t.failed
    ensures GroupKept(c, t, group)
  {
    BeginChanges(c, s, t, n);
    hide Begin, OfGroup, Members, IsRowValue;
    OfGroupGrows(c.w, s.running.Keys, n, group, c.max);
    var q, ms := FinishedIn(s, group), LevelMembers(c, s, group);
    assert FinishedIn(t, group) == q && LevelMembers(c, t, group) == ms;
    forall d | d in q ensures IsMemberResult(c, t, ms, d) {
      assert IsMemberResult(c, s, ms, d);
    }
    forall i: nat | i < |ms| && Returned(c, t, ms[i]) ensures HasTag(q, i) {
      assert Returned(c, s, ms[i]);
    }
  }

  lemma OfGroupGrows<V>(w: Wiring<V>, names: set<Name>, n: Name, group: string, max: nat)
    requires n in w.components
    requires |OfGroup(w, names, group)| <= max && |OfGroup(w, names, w.components[n].group)| < max
    ensures |OfGroup(w, names + {n}, group)| <= max
  {
    var a, b := OfGroup(w, names, group), OfGroup(w, names + {n}, group);
    if w.components[n].group == group {
      assert b == a + {n};
    } else {
      assert b == a;
    }
  }

  // ---- finishing ----

  lemma FinishKeepsTasks<V>(c: Config<V>, s: State<V>, t: State<V>, n: Name)
    requires TableKept(c, s) && TasksKept(c, s) && StartedOnce(c, s) && Finish(c, s, t, n)
    ensures TableKept(c, t) && TasksKept(c, t) && StartedOnce(c, t)
  {
    hide RowSolved, Available, Resolve;
  }

  lemma FinishKeeps<V(!new)>(c: Config<V>, s: State<V>, t: State<V>, n: Name)
    requires Ready(c) && Kept(c, s) && Finish(c, s, t, n)
    ensures Kept(c, t)
  {
    FinishKeepsTasks(c, s, t, n);
    hide TableKept, StartedOnce;
    forall group ensures GroupKept(c, t, group) {
      assert GroupKept(c, s, group);
      if group == c.w.components[n].group {
        LevelMembersAreDistinct(c, s, group);
        FinishKeepsOwnGroup(c, s, t, n);
      } else {
        FinishKeepsOtherGroup(c, s, t, n, group);
      }
    }
  }

  lemma LevelMembersAreDistinct<V(!new)>(c: Config<V>, s: State<V>, group: string)
    requires Ready(c)
    ensures Distinct(LevelMembers(c, s, group))
  {
    if s.level < |c.levels| {
      IncreasingIsDistinct(c.levels[s.level]);
      MembersAreDistinct(c.w, c.levels[s.level], group);
    }
  }

  lemma FinishKeepsOtherGroup<V(!new)>(c: Config<V>, s: State<V>, t: State<V>, n: Name, group: string)
    requires GroupKept(c, s, group) && Finish(c, s, t, n) && group != c.w.components[n].group
    ensures GroupKept(c, t, group)
  {
    var q, ms := FinishedIn(s, group), LevelMembers(c, s, group);
    assert FinishedIn(t, group) == q && LevelMembers(c, t, group) == ms;
    assert InFlight(c, t, group) == InFlight(c, s, group);
    forall d | d in q ensures IsMemberResult(c, t, ms, d) {
      assert IsMemberResult(c, s, ms, d);
    }
    forall i: nat | i < |ms| && Returned(c, t, ms[i]) ensures HasTag(q, i) {
      assert ms[i] in ms;
      assert Returned(c, s, ms[i]);
    }
  }

  /** Among the members, exactly the one at position `k` has newly returned. */
  lemma NewlyReturned<V(!new)>(c: Config<V>, s: State<V>, t: State<V>, n: Name, ms: seq<Name>, k: nat)
    requires TasksKept(c, s) && Finish(c, s, t, n)
    requires Distinct(ms) && k < |ms| && ms[k] == n
    ensures !Returned(c, s, ms[k])
    ensures forall i: nat :: i < |ms| ==> (Returned(c, t, ms[i]) <==> Returned(c, s, ms[i]) || i == k)
  {
    forall i: nat | i < |ms| ensures Returned(c, t, ms[i]) <==> Returned(c, s, ms[i]) || i == k {
      assert ms[i] == n <==> i == k;
    }
  }

  lemma TagAppended<T>(q: seq<Done<T>>, d: Done<T>, i: nat)
    ensures HasTag(q + [d], i) <==> HasTag(q, i) || i == d.index
  {
    if HasTag(q, i) {
      var e :| e in q && e.index == i;
      assert e in q + [d];
    }
    if i == d.index {
      assert d in q + [d];
    }
  }

  lemma FinishKeepsOwnGroup<V(!new)>(c: Config<V>, s: State<V>, t: State<V>, n: Name)
    requires TasksKept(c, s) && Finish(c, s, t, n)
    requires GroupKept(c, s, c.w.components[n].group)
    requires Distinct(LevelMembers(c, s, c.w.components[n].group))
    ensures GroupKept(c, t, c.w.components[n].group)
  {
    var group := c.w.components[n].group;
    var ms, q := LevelMembers(c, s, group), FinishedIn(s, group);
    var k := G.IndexOf(ms, n);
    var d := Done(k, Apply(c.w.components[n], s.running[n]));
    assert FinishedIn(t, group) == q + [d] && LevelMembers(c, t, group) == ms;
    SubsetSize(InFlight(c, t, group), InFlight(c, s, group));
    NewlyReturned(c, s, t, n, ms, k);
    assert !HasTag(q, k);
    DistinctTagsAppend(q, d);
    forall e | e in q + [d] ensures IsMemberResult(c, t, ms, e) {
      if e in q { assert IsMemberResult(c, s, ms, e); }
    }
    forall i: nat | i < |ms| && Returned(c, t, ms[i]) ensures HasTag(q + [d], i) {
      TagAppended(q, d, i);
    }
  }

  // ---- draining a level ----

  lemma DrainedResult<V(!new)>(c: Config<V>, s: State<V>, n: Name)
    requires Ready(c) && Kept(c, s) && s.level < |c.levels| && s.waiting == {} && s.running == map[]
    requires Current(c, s, n)
    ensures HasResult(c, s, n) && IsRowValue(c, s.outputs, n, ResultOf(c, s, n))
  {
    var group := c.w.components[n].group;
    assert GroupKept(c, s, group);
    var ms, q := LevelMembers(c, s, group), FinishedIn(s, group);
    assert n in ms;
    forall i: nat | i < |ms| ensures HasTag(q, i) {
      assert ms[i] in ms;
      assert Returned(c, s, ms[i]);
    }
    RestoredInInputOrder(q, |ms|);
    var k := G.IndexOf(ms, n);
    assert HasTag(q, k);
    var d :| d in q && d.index == k;
    assert Restored(q)[k] == d.value;
  }

  lemma CollectedIsTheLevel<V(!new)>(c: Config<V>, s: State<V>)
    requires Ready(c) && Kept(c, s) && s.level < |c.levels| && s.waiting == {} && s.running == map[]
    ensures forall n :: n in Collected(c, s) <==> Current(c, s, n)
  {
    forall n ensures n in Collected(c, s) <==> Current(c, s, n) {
      if Current(c, s, n) { DrainedResult(c, s, n); }
    }
  }

  lemma BarrierKeepsTable<V(!new)>(c: Config<V>, s: State<V>, t: State<V>)
    requires Ready(c) && Kept(c, s) && Barrier(c, s, t)
    requires forall n :: n in Collected(c, s) <==> Current(c, s, n)
    ensures TableKept(c, t)
  {
    forall n | n in t.outputs ensures RowSolved(c.w, c.inputs, t.outputs, n) {
      DrainedRow(c, s, t, n);
    }
    forall n ensures n in t.outputs <==> RanEarlier(c, t, n) {
      assert n in t.outputs <==> n in s.outputs || n in Collected(c, s);
    }
  }

  lemma BarrierKeepsStarted<V(!new)>(c: Config<V>, s: State<V>, t: State<V>)
    requires StartedOnce(c, s) && TableKept(c, t) && Barrier(c, s, t)
    ensures Distinct(t.started) && forall n :: n in t.started <==> n in t.outputs
  {
    assert t.started == s.started && t.level == s.level + 1 && s.waiting == {};
    hide Barrier, RowSolved, Distinct;
    forall n ensures n in t.started <==> n in t.outputs {
      assert n in t.outputs <==> RanEarlier(c, t, n);
    }
  }

  lemma BarrierKeeps<V(!new)>(c: Config<V>, s: State<V>, t: State<V>)
    requires Ready(c) && Kept(c, s) && Barrier(c, s, t)
    ensures Kept(c, t)
  {
    CollectedIsTheLevel(c, s);
    BarrierKeepsTable(c, s, t);
    BarrierKeepsStarted(c, s, t);
    EnteredIsKept(c, t);
  }

  lemma DrainedRow<V(!new)>(c: Config<V>, s: State<V>, t: State<V>, n: Name)
    requires Ready(c) && Kept(c, s) && Barrier(c, s, t)
    requires n in t.outputs && forall m :: m in Collected(c, s) <==> Current(c, s, m)
    ensures RowSolved(c.w, c.inputs, t.outputs, n)
  {
    if n in s.outputs {
      assert RowSolved(c.w, c.inputs, s.outputs, n);
    } else {
      DrainedResult(c, s, n);
    }
    assert n !in Collected(c, s) <==> n in s.outputs;
    forall k | k in c.w.connections && k.dst == n ensures k.src in t.outputs && s.outputs[k.src] == t.outputs[k.src] {
      assert k.src in s.outputs;
      assert RanEarlier(c, s, k.src);
    }
    ResolveReadsUpstream(c.w.connections, n, Entry(c.inputs, n), s.outputs, t.outputs);
  }

  // ---- whole runs ----

  lemma StepKeeps<V(!new)>(c: Config<V>, s: State<V>, t: State<V>)
    requires Ready(c) && Kept(c, s) && Step(c, s, t)
    ensures Kept(c, t)
  {
    if n :| Begin(c, s, t, n) {
      BeginKeeps(c, s, t, n);
    } else if n :| Finish(c, s, t, n) {
      FinishKeeps(c, s, t, n);
    } else {
      BarrierKeeps(c, s, t);
    }
  }

  lemma {:induction false} RunKeeps<V(!new)>(c: Config<V>, run: seq<State<V>>, i: nat)
    requires Ready(c) && IsRun(c, run) && i < |run|
    ensures Kept(c, run[i])
  {
    if i == 0 {
      InitialIsKept(c);
    } else {
      RunKeeps(c, run, i - 1);
      StepKeeps(c, run[i - 1], run[i]);
    }
  }

  /** Confluence: every interleaving that reaches the end has run each component exactly
      once, without a failed lookup, and holds the outputs of the sequential executor
      (`sequential` is any solution, in particular the one `Pipelines.Run` returns). */
  lemma AsyncEqualsSequential<V(!new)>(c: Config<V>, run: seq<State<V>>, order: seq<Name>, sequential: Table<V>)
    requires Ready(c) && IsTopological(GraphOf(c.w), order) && Solves(c.w, c.inputs, sequential)
    requires IsRun(c, run) && run[|run| - 1].level == |c.levels|
    ensures run[|run| - 1].outputs == sequential
    ensures Distinct(run[|run| - 1].started) && Elems(run[|run| - 1].started) == c.w.components.Keys
    ensures !run[|run| - 1].failed
  {
    hide Kept, Ready, IsTopological, Solves, Distinct, Elems;
    var last := run[|run| - 1];
    RunKeeps(c, run, |run| - 1);
    EverythingRan(c, last);
    SolutionIsUnique(c.w, c.inputs, order, last.outputs, sequential);
  }

  /** Past the last level. */
  lemma EverythingRan<V(!new)>(c: Config<V>, s: State<V>)
    requires Ready(c) && Kept(c, s) && s.level == |c.levels|
    ensures Solves(c.w, c.inputs, s.outputs) && !s.failed
    ensures Distinct(s.started) && Elems(s.started) == c.w.components.Keys
  {
    AllRanEarlier(c, s);
    hide Ready, RanEarlier, TasksKept, GroupKept, RowSolved;
    assert forall n :: n in Elems(s.started) <==> n in s.started;
    assert forall n :: Current(c, s, n) && n !in s.waiting ==> n in c.w.components;
  }

  lemma AllRanEarlier<V(!new)>(c: Config<V>, s: State<V>)
    requires Ready(c) && s.level == |c.levels|
    ensures forall n :: RanEarlier(c, s, n) <==> n in c.w.components
  {
    forall n ensures RanEarlier(c, s, n) <==> n in c.w.components {
      if n in c.w.components { assert n in GraphOf(c.w).nodes; }
    }
  }

  /** At no point of any run does a group exceed its bound. */
  lemma GroupBoundHolds<V(!new)>(c: Config<V>, run: seq<State<V>>, i: nat, group: string)
    requires Ready(c) && IsRun(c, run) && i < |run|
    ensures |InFlight(c, run[i], group)| <= c.max
  {
    RunKeeps(c, run, i);
    assert GroupKept(c, run[i], group);
  }

  /** No run gets stuck before the last level. */
  lemma SomeStepIsEnabled<V(!new)>(c: Config<V>, s: State<V>)
    requires Ready(c) && Kept(c, s) && s.level < |c.levels|
    ensures exists t :: Step(c, s, t)
  {
    if s.running != map[] {
      var n :| n in s.running;
      var group := c.w.components[n].group;
      assert Current(c, s, n);
      assert n in Members(c.w, c.levels[s.level], group);
      var t := s.(running := s.running - {n},
            finished := s.finished[group := FinishedIn(s, group) +
              [Done(G.IndexOf(Members(c.w, c.levels[s.level], group), n), Apply(c.w.components[n], s.running[n]))]]);
      assert Finish(c, s, t, n);
      assert Step(c, s, t);
    } else if s.waiting != {} {
      var n :| n in s.waiting;
      assert Current(c, s, n);
      assert InFlight(c, s, c.w.components[n].group) == {};
      UpstreamIsReady(c, s, n);
      var t := s.(waiting := s.waiting - {n},
                 running := s.running[n := Resolve(c.w.connections, n, Entry(c.inputs, n), s.outputs)],
                 started := s.started + [n]);
      assert Begin(c, s, t, n);
      assert Step(c, s, t);
    } else {
      var t := Enter(c, s.level + 1, s.outputs + Collected(c, s), s.started);
      assert Step(c, s, t);
    }
  }

  /** Steps still to be taken: two per component not yet started, one per running
      component, one per level. */
  ghost function Remaining<V>(c: Config<V>, s: State<V>): int {
    2 * (|c.w.components| - |s.started|) + |s.running| + (|c.levels| - s.level)
  }

  lemma StepUsesOne<V(!new)>(c: Config<V>, s: State<V>, t: State<V>)
    requires Ready(c) && Kept(c, s) && Step(c, s, t)
    ensures Remaining(c, t) == Remaining(c, s) - 1
  {
    if n :| Begin(c, s, t, n) {
      assert Current(c, s, n);
      UpstreamIsReady(c, s, n);
      BeginUsesOne(c, s, t, n);
    } else if n :| Finish(c, s, t, n) {
      FinishUsesOne(c, s, t, n);
    }
  }

  lemma BeginUsesOne<V>(c: Config<V>, s: State<V>, t: State<V>, n: Name)
    requires Begin(c, s, t, n) && !t.failed && n !in s.running
    ensures Remaining(c, t) == Remaining(c, s) - 1
  {
    BeginChanges(c, s, t, n);
    hide Begin;
    assert |t.running| == |t.running.Keys| && |s.running| == |s.running.Keys|;
  }

  lemma FinishUsesOne<V>(c: Config<V>, s: State<V>, t: State<V>, n: Name)
    requires Finish(c, s, t, n)
    ensures Remaining(c, t) == Remaining(c, s) - 1
  {
    assert t.running.Keys == s.running.Keys - {n};
    assert |t.running| == |t.running.Keys| && |s.running| == |s.running.Keys|;
  }

  /** Every run has the same length budget, so every run that is continued as long as
      possible ends, after exactly `2 * |components| + |levels|` steps. */
  lemma {:induction false} RunLength<V(!new)>(c: Config<V>, run: seq<State<V>>, i: nat)
    requires Ready(c) && IsRun(c, run) && i < |run|
    ensures i + Remaining(c, run[i]) == 2 * |c.w.components| + |c.levels|
    ensures 0 <= Remaining(c, run[i])
    ensures Remaining(c, run[i]) == 0 <==> run[i].level == |c.levels|
  {
    RunKeeps(c, run, i);
    if i > 0 {
      RunLength(c, run, i - 1);
      RunKeeps(c, run, i - 1);
      StepUsesOne(c, run[i - 1], run[i]);
    }
    StartedFits(c, run[i]);
  }

  lemma StartedFits<V(!new)>(c: Config<V>, s: State<V>)
    requires Ready(c) && Kept(c, s)
    ensures |s.started| <= |c.w.components|
    ensures s.level == |c.levels| ==> |s.started| == |c.w.components| && s.running == map[]
  {
    assert |c.w.components| == |c.w.components.Keys|;
    assert Elems(s.started) <= c.w.components.Keys;
    assert StartedOnce(c, s);
    hide Ready, TableKept, TasksKept, GroupKept, Elems, Distinct;
    DistinctSize(s.started);
    SubsetSize(Elems(s.started), c.w.components.Keys);
    if s.level == |c.levels| {
      EverythingRan(c, s);
      NothingRuns(c, s);
    }
  }

  lemma NothingRuns<V(!new)>(c: Config<V>, s: State<V>)
    requires Ready(c) && TasksKept(c, s) && s.level == |c.levels|
    ensures s.running == map[]
  {
    AllRanEarlier(c, s);
    hide Ready;
    assert forall n :: n in s.running ==> Current(c, s, n) && RanEarlier(c, s, n);
    assert s.running.Keys == {};
  }
}
