/** The agent's retry/fallback stack: one tool call on its own, and concurrent calls that share
    one budget. Policies and the pipeline may answer anything. */
module AgentBudget {
  import opened Wrappers
  import opened SeqFacts

  datatype ToolCall = ToolCall(id: string, tool: string, args: string)

  datatype Outcome = Outcome(content: string, isError: bool)

  /** How a pipeline invocation ends; for a failure, also what the two policies would say. */
  datatype Ending =
    | Succeeds(result: Outcome)
    | Fails(error: Outcome, shouldRetry: bool, modifiedArgs: Option<string>, fallback: Option<string>)

  class RetryBudget {
    const max: nat
    var used: nat

    constructor (max: nat)
      ensures this.max == max && used == 0
    {
      this.max, used := max, 0;
    }

    predicate CanRetry()
      reads this
    {
      used < max
    }

    /** `false` is the RuntimeError of an exhausted budget. */
    method Consume() returns (ok: bool)
      modifies this
      ensures ok == old(CanRetry())
      ensures used == if ok then old(used) + 1 else old(used)
    {
      ok := CanRetry();
      if ok {
        used := used + 1;
      }
    }
  }

  // ---- one call ----

  /** What happens to a call after a failure, while the budget lasts: the call to try next and
      its attempt number, or `None` to surface the error. */
  function Next(call: ToolCall, attempt: nat, e: Ending): Option<(ToolCall, nat)>
    requires e.Fails?
  {
    if e.shouldRetry then
      Some((if e.modifiedArgs.Some? then call.(args := e.modifiedArgs.value) else call, attempt + 1))
    else if e.fallback.Some? then Some((call.(tool := e.fallback.value), 0))
    else None
  }

  datatype Execution = Execution(result: Outcome, invocations: nat)

  /** Tries `call` with `left` retries in the budget; `oracle` knows how each try ends. */
  function Execute(call: ToolCall, attempt: nat, k: nat, left: nat, oracle: (nat, ToolCall, nat) -> Ending): Execution
    decreases left
  {
    match oracle(k, call, attempt)
    case Succeeds(result) => Execution(result, 1)
    case Fails(error, _, _, _) =>
      var next := Next(call, attempt, oracle(k, call, attempt));
      if left == 0 || next.None? then Execution(error, 1)
      else
        var rest := Execute(next.value.0, next.value.1, k + 1, left - 1, oracle);
        rest.(invocations := rest.invocations + 1)
  }

  /** What follows an invocation. With budget left, a failure is retried if the retry policy says
      so, under the same name, with its modified arguments if it gives any; otherwise the fallback
      tool is tried, if there is one, with the arguments as they are and the attempts counted
      afresh; and without either, or without budget, the error is the result. */
  lemma AfterInvocation(call: ToolCall, attempt: nat, k: nat, left: nat, oracle: (nat, ToolCall, nat) -> Ending)
    ensures var run := Execute(call, attempt, k, left, oracle);
      match oracle(k, call, attempt)
      case Succeeds(result) => run == Execution(result, 1)
      case Fails(error, shouldRetry, modifiedArgs, fallback) =>
        if left > 0 && shouldRetry then
          var args := if modifiedArgs.Some? then modifiedArgs.value else call.args;
          var rest := Execute(ToolCall(call.id, call.tool, args), attempt + 1, k + 1, left - 1, oracle);
          run == Execution(rest.result, 1 + rest.invocations)
        else if left > 0 && fallback.Some? then
          var rest := Execute(ToolCall(call.id, fallback.value, call.args), 0, k + 1, left - 1, oracle);
          run == Execution(rest.result, 1 + rest.invocations)
        else run == Execution(error, 1)
  {
  }

  method ExecuteWithPolicies(budget: RetryBudget, toolCall: ToolCall, oracle: (nat, ToolCall, nat) -> Ending)
    returns (result: Outcome, invocations: nat)
    requires budget.used <= budget.max
    modifies budget
    ensures var run := Execute(toolCall, 0, 0, budget.max - old(budget.used), oracle);
      result == run.result && invocations == run.invocations
    ensures 1 <= invocations && budget.used == old(budget.used) + invocations - 1 <= budget.max
  {
    var attempt, current := 0, toolCall;
    invocations := 0;
    ghost var run := Execute(toolCall, 0, 0, budget.max - budget.used, oracle);
    while true
      invariant budget.used <= budget.max && budget.used == old(budget.used) + invocations
      invariant var rest := Execute(current, attempt, invocations, budget.max - budget.used, oracle);
        run == rest.(invocations := invocations + rest.invocations)
      decreases budget.max - budget.used
    {
      var ending := oracle(invocations, current, attempt);
      invocations := invocations + 1;
      if ending.Succeeds? {
        return ending.result, invocations;
      }
      if budget.CanRetry() {
        if ending.shouldRetry {
          var ok := budget.Consume();
          assert ok;
          attempt := attempt + 1;
          if ending.modifiedArgs.Some? {
            current := current.(args := ending.modifiedArgs.value);
          }
          continue;
        }
      }
      if budget.CanRetry() {
        if ending.fallback.Some? {
          var ok := budget.Consume();
          assert ok;
          current := current.(tool := ending.fallback.value);
          attempt := 0;
          continue;
        }
      }
      return ending.error, invocations;
    }
  }

  // ---- concurrent calls ----

  datatype Phase = Idle | Running | Done(result: Outcome)

  datatype CallState = CallState(current: ToolCall, attempt: nat, phase: Phase)

  datatype State = State(used: nat, invocations: nat, calls: seq<CallState>)

  /** A task starts a pipeline invocation, or one ends. What follows an ending up to the next
      await, the budget check and its consumption included, is one step. */
  datatype Event = Invoke(i: nat) | Finish(i: nat, ending: Ending)

  predicate Enabled(s: State, e: Event) {
    e.i < |s.calls| && s.calls[e.i].phase == if e.Invoke? then Idle else Running
  }

  function Apply(max: nat, s: State, e: Event): State
    requires Enabled(s, e)
  {
    var c := s.calls[e.i];
    match e
    case Invoke(i) => s.(invocations := s.invocations + 1, calls := s.calls[i := c.(phase := Running)])
    case Finish(i, Succeeds(result)) => s.(calls := s.calls[i := c.(phase := Done(result))])
    case Finish(i, Fails(error, _, _, _)) =>
      var next := Next(c.current, c.attempt, e.ending);
      if s.used < max && next.Some? then
        s.(used := s.used + 1, calls := s.calls[i := CallState(next.value.0, next.value.1, Idle)])
      else s.(calls := s.calls[i := c.(phase := Done(error))])
  }

  /** What a failure does to a concurrent call: the same, with the shared budget. Nobody else's call
      is touched. */
  lemma FailureInTurn(max: nat, s: State, i: nat, e: Ending)
    requires e.Fails? && Enabled(s, Finish(i, e))
    ensures var t, c := Apply(max, s, Finish(i, e)), s.calls[i];
      && |t.calls| == |s.calls| && t.invocations == s.invocations
      && (forall j :: 0 <= j < |s.calls| && j != i ==> t.calls[j] == s.calls[j])
      && if s.used < max && e.shouldRetry then
           var args := if e.modifiedArgs.Some? then e.modifiedArgs.value else c.current.args;
           t.used == s.used + 1
           && t.calls[i] == CallState(ToolCall(c.current.id, c.current.tool, args), c.attempt + 1, Idle)
         else if s.used < max && e.fallback.Some? then
           t.used == s.used + 1
           && t.calls[i] == CallState(ToolCall(c.current.id, e.fallback.value, c.current.args), 0, Idle)
         else t.used == s.used && t.calls[i] == CallState(c.current, c.attempt, Done(e.error))
  {
  }

  predicate IsRun(max: nat, s: State, es: seq<Event>)
    decreases |es|
  {
    es == [] || (Enabled(s, es[0]) && IsRun(max, Apply(max, s, es[0]), es[1..]))
  }

  function After(max: nat, s: State, es: seq<Event>): State
    requires IsRun(max, s, es)
    decreases |es|
  {
    if es == [] then s else After(max, Apply(max, s, es[0]), es[1..])
  }

  function Start(used: nat, calls: seq<ToolCall>): State {
    State(used, 0, seq(|calls|, i requires 0 <= i < |calls| => CallState(calls[i], 0, Idle)))
  }

  function IdleCount(calls: seq<CallState>): nat {
    if calls == [] then 0 else (if calls[0].phase == Idle then 1 else 0) + IdleCount(calls[1..])
  }

  function WorkLeft(calls: seq<CallState>): nat {
    if calls == [] then 0 else Work(calls[0].phase) + WorkLeft(calls[1..])
  }

  /** Steps that a call still needs if nothing fails. */
  function Work(p: Phase): nat {
    match p
    case Idle => 2
    case Running => 1
    case Done(_) => 0
  }

  lemma {:induction false} CountsAfterUpdate(calls: seq<CallState>, i: nat, c: CallState)
    requires i < |calls|
    ensures IdleCount(calls[i := c]) == IdleCount(calls) + (if c.phase == Idle then 1 else 0)
      - (if calls[i].phase == Idle then 1 else 0)
    ensures WorkLeft(calls[i := c]) == WorkLeft(calls) + Work(c.phase) - Work(calls[i].phase)
    decreases |calls|
  {
    hide Work;
    if i == 0 {
      assert calls[i := c][1..] == calls[1..];
    } else {
      assert calls[i := c][1..] == calls[1..][i - 1 := c];
      CountsAfterUpdate(calls[1..], i - 1, c);
    }
  }

  /** Every step keeps the balance of invocations and retries and uses up exactly one unit of
      the remaining work. */
  lemma StepBalance(max: nat, s: State, e: Event)
    requires Enabled(s, e) && s.used <= max
    ensures var t := Apply(max, s, e);
      && s.used <= t.used <= max && |t.calls| == |s.calls|
      && t.invocations + IdleCount(t.calls) + s.used == s.invocations + IdleCount(s.calls) + t.used
      && WorkLeft(t.calls) + 2 * (max - t.used) + 1 == WorkLeft(s.calls) + 2 * (max - s.used)
  {
    CountsAfterUpdate(s.calls, e.i, Apply(max, s, e).calls[e.i]);
  }

  lemma {:induction false} RunBalance(max: nat, s: State, es: seq<Event>)
    requires IsRun(max, s, es) && s.used <= max
    ensures var t := After(max, s, es);
      && s.used <= t.used <= max && |t.calls| == |s.calls|
      && t.invocations + IdleCount(t.calls) + s.used == s.invocations + IdleCount(s.calls) + t.used
      && WorkLeft(t.calls) + 2 * (max - t.used) + |es| == WorkLeft(s.calls) + 2 * (max - s.used)
    decreases |es|
  {
    hide Apply;
    if es != [] {
      StepBalance(max, s, es[0]);
      RunBalance(max, Apply(max, s, es[0]), es[1..]);
    }
  }

  lemma {:induction false} AllIdle(calls: seq<CallState>)
    requires forall i :: 0 <= i < |calls| ==> calls[i].phase == Idle
    ensures IdleCount(calls) == |calls| && WorkLeft(calls) == 2 * |calls|
    decreases |calls|
  {
    if calls != [] {
      AllIdle(calls[1..]);
    }
  }

  lemma {:induction false} NoneIdle(calls: seq<CallState>)
    requires forall i :: 0 <= i < |calls| ==> calls[i].phase != Idle
    ensures IdleCount(calls) == 0
    decreases |calls|
  {
    if calls != [] {
      NoneIdle(calls[1..]);
    }
  }

  ghost predicate AllDone(s: State) {
    forall i :: 0 <= i < |s.calls| ==> s.calls[i].phase.Done?
  }

  /** Whatever the pipeline and the policies answer and however the calls interleave: there are
      at most as many invocations as calls and retries left, and every run ends. */
  lemma BudgetHolds(max: nat, used: nat, calls: seq<ToolCall>, es: seq<Event>)
    requires used <= max && IsRun(max, Start(used, calls), es)
    ensures After(max, Start(used, calls), es).invocations <= |calls| + (max - used)
    ensures |es| <= 2 * (|calls| + (max - used))
  {
    AllIdle(Start(used, calls).calls);
    RunBalance(max, Start(used, calls), es);
  }

  /** A run that cannot go on has one result for every call, and one invocation for every call
      and every retry it paid for. */
  lemma StuckMeansDone(max: nat, used: nat, calls: seq<ToolCall>, es: seq<Event>)
    requires used <= max && IsRun(max, Start(used, calls), es)
    requires forall e :: !Enabled(After(max, Start(used, calls), es), e)
    ensures var t := After(max, Start(used, calls), es);
      AllDone(t) && |t.calls| == |calls| && t.invocations == |calls| + t.used - used
  {
    var t := After(max, Start(used, calls), es);
    AllIdle(Start(used, calls).calls);
    RunBalance(max, Start(used, calls), es);
    var ok := Succeeds(Outcome("", false));
    forall i | 0 <= i < |t.calls| ensures t.calls[i].phase.Done? {
      assert !Enabled(t, Invoke(i)) && !Enabled(t, Finish(i, ok));
    }
    NoneIdle(t.calls);
  }

  /** A result once returned stays: each call ends with exactly one. */
  lemma {:induction false} ResultsStay(max: nat, s: State, es: seq<Event>, i: nat)
    requires IsRun(max, s, es) && i < |s.calls| && s.calls[i].phase.Done?
    ensures i < |After(max, s, es).calls| && After(max, s, es).calls[i] == s.calls[i]
    decreases |es|
  {
    if es != [] {
      ResultsStay(max, Apply(max, s, es[0]), es[1..], i);
    }
  }

  // ---- the two forms of the retry stack agree ----

  /** The run of a task that has the budget to itself. */
  function SoloRun(call: ToolCall, attempt: nat, k: nat, left: nat, oracle: (nat, ToolCall, nat) -> Ending): seq<Event>
    decreases left
  {
    var ending := oracle(k, call, attempt);
    var one := [Invoke(0), Finish(0, ending)];
    if ending.Succeeds? || left == 0 || Next(call, attempt, ending).None? then one
    else
      var next := Next(call, attempt, ending).value;
      one + SoloRun(next.0, next.1, k + 1, left - 1, oracle)
  }

  lemma TwoSteps(max: nat, s: State, ending: Ending, es: seq<Event>)
    requires |s.calls| == 1 && s.calls[0].phase == Idle
    ensures var one := [Invoke(0), Finish(0, ending)];
      var t := Apply(max, Apply(max, s, Invoke(0)), Finish(0, ending));
      (IsRun(max, t, es) ==> IsRun(max, s, one + es) && After(max, s, one + es) == After(max, t, es))
  {
    var all := [Invoke(0), Finish(0, ending)] + es;
    assert all[0] == Invoke(0) && all[1..] == [Finish(0, ending)] + es && all[1..][1..] == es;
    hide Apply;
  }

  /** A task that has the budget to itself does exactly what the sequential form does. */
  lemma {:induction false} AloneIsSequential(max: nat, s: State, k: nat, oracle: (nat, ToolCall, nat) -> Ending)
    requires s.used <= max && |s.calls| == 1 && s.calls[0].phase == Idle
    ensures var c := s.calls[0];
      var es := SoloRun(c.current, c.attempt, k, max - s.used, oracle);
      var run := Execute(c.current, c.attempt, k, max - s.used, oracle);
      && IsRun(max, s, es)
      && |After(max, s, es).calls| == 1 && After(max, s, es).calls[0].phase == Done(run.result)
      && After(max, s, es).invocations == s.invocations + run.invocations
      && After(max, s, es).used == s.used + run.invocations - 1
    decreases max - s.used
  {
    var c := s.calls[0];
    var ending := oracle(k, c.current, c.attempt);
    var t := Apply(max, Apply(max, s, Invoke(0)), Finish(0, ending));
    if ending.Succeeds? || max == s.used || Next(c.current, c.attempt, ending).None? {
      TwoSteps(max, s, ending, []);
      assert [Invoke(0), Finish(0, ending)] + [] == [Invoke(0), Finish(0, ending)];
    } else {
      AloneIsSequential(max, t, k + 1, oracle);
      TwoSteps(max, s, ending, SoloRun(t.calls[0].current, t.calls[0].attempt, k + 1, max - t.used, oracle));
    }
  }

  // ---- the whole agent run ----

  /** One assistant turn's calls and the run of their tasks. */
  datatype Turn = Turn(calls: seq<ToolCall>, events: seq<Event>)

  predicate AreTurns(max: nat, used: nat, turns: seq<Turn>)
    decreases |turns|
  {
    turns == [] ||
    (IsRun(max, Start(used, turns[0].calls), turns[0].events)
     && AreTurns(max, After(max, Start(used, turns[0].calls), turns[0].events).used, turns[1..]))
  }

  function Invocations(max: nat, used: nat, turns: seq<Turn>): nat
    requires AreTurns(max, used, turns)
    decreases |turns|
  {
    if turns == [] then 0
    else
      var t := After(max, Start(used, turns[0].calls), turns[0].events);
      t.invocations + Invocations(max, t.used, turns[1..])
  }

  function CallCount(turns: seq<Turn>): nat {
    if turns == [] then 0 else |turns[0].calls| + CallCount(turns[1..])
  }

  /** The budget is shared by all turns of a run, so the bound holds for the run as a whole. */
  lemma {:induction false} RunBudgetHolds(max: nat, used: nat, turns: seq<Turn>)
    requires used <= max && AreTurns(max, used, turns)
    ensures Invocations(max, used, turns) <= CallCount(turns) + (max - used)
    decreases |turns|
  {
    hide IsRun, After;
    if turns != [] {
      var start := Start(used, turns[0].calls);
      AllIdle(start.calls);
      RunBalance(max, start, turns[0].events);
      RunBudgetHolds(max, After(max, start, turns[0].events).used, turns[1..]);
    }
  }

  // ---- recording a turn ----

  datatype ToolMessage = ToolMessage(toolCallId: string, toolName: string, content: string, isError: bool)

  /** Under the id and name that the model asked for, whichever tool finally ran. */
  ghost predicate Reports(m: ToolMessage, call: ToolCall, result: Outcome) {
    m.toolCallId == call.id && m.toolName == call.tool && m.content == result.content && m.isError == result.isError
  }

  /** The calls whose results are denials, in order. */
  function Denied(calls: seq<ToolCall>, results: seq<Outcome>, isDenied: Outcome -> bool): seq<ToolCall>
    requires |calls| == |results|
  {
    if calls == [] then []
    else
      var n := |calls| - 1;
      Denied(calls[..n], results[..n], isDenied)
      + if results[n].isError && isDenied(results[n]) then [calls[n]] else []
  }

  /** They are the calls whose result is a denial, in call order; `which` gives their positions. */
  lemma {:induction false} DeniedAre(calls: seq<ToolCall>, results: seq<Outcome>, isDenied: Outcome -> bool)
    returns (which: seq<nat>, denied: seq<bool>)
    requires |calls| == |results|
    ensures AreListed(which, Denied(calls, results, isDenied), calls, denied) && |denied| == |results|
    ensures forall k :: 0 <= k < |results| ==> denied[k] == (results[k].isError && isDenied(results[k]))
    decreases |calls|
  {
    hide AreListed;
    which, denied := [], [];
    if calls == [] {
      NothingListed<ToolCall>();
    } else {
      var n := |calls| - 1;
      which, denied := DeniedAre(calls[..n], results[..n], isDenied);
      var isLast := results[n].isError && isDenied(results[n]);
      ListOneMore(which, Denied(calls[..n], results[..n], isDenied), calls[..n], denied, calls[n], isLast);
      assert calls == calls[..n] + [calls[n]];
      which, denied := which + (if isLast then [n] else []), denied + [isLast];
    }
  }

  /** The loop over the gathered results: one message per call, in call order, and the denied calls
      added to the history of denials. */
  method RecordResults(messages: seq<ToolMessage>, denials: seq<ToolCall>, calls: seq<ToolCall>, results: seq<Outcome>,
                       isDenied: Outcome -> bool)
    returns (messages': seq<ToolMessage>, denials': seq<ToolCall>)
    requires |calls| == |results|
    ensures |messages'| == |messages| + |calls| && messages <= messages'
    ensures forall k :: 0 <= k < |calls| ==> Reports(messages'[|messages| + k], calls[k], results[k])
    ensures denials' == denials + Denied(calls, results, isDenied)
  {
    messages', denials' := messages, denials;
    for k := 0 to |calls|
      invariant |messages'| == |messages| + k && messages <= messages'
      invariant forall j :: 0 <= j < k ==> Reports(messages'[|messages| + j], calls[j], results[j])
      invariant denials' == denials + Denied(calls[..k], results[..k], isDenied)
    {
      assert calls[..k + 1][..k] == calls[..k] && results[..k + 1][..k] == results[..k];
      messages' := messages' + [ToolMessage(calls[k].id, calls[k].tool, results[k].content, results[k].isError)];
      if results[k].isError && isDenied(results[k]) {
        denials' := denials' + [calls[k]];
      }
    }
    assert calls[..|calls|] == calls && results[..|calls|] == results;
  }
}
