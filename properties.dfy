/**
  What the run loop promises, one iteration at a time and over a whole run.
*/
module Properties {
  import opened Wrappers
  import opened Definition
  import opened Process
  import opened Controller

  // ---- one iteration -------------------------------------------------------

  /** A Fail state ends the run with nil, invokes nothing and writes nothing. */
  lemma FailStateStops(states: map<string, StateDef>, bytesIn: Bytes, p: Params, invoke: Invoker, c: Config, fuel: nat)
    requires c.cur in states && states[c.cur].typ == Present(FAIL)
    requires fuel > 0
    ensures Run(states, bytesIn, p, invoke, c, fuel) == Trace(Nil, [], [])
  {
  }

  /** The state to run must be a key of `States`; otherwise the run panics, invoking nothing. */
  lemma UnknownStatePanics(states: map<string, StateDef>, bytesIn: Bytes, p: Params, invoke: Invoker, c: Config, fuel: nat)
    requires c.cur !in states && fuel > 0
    ensures Run(states, bytesIn, p, invoke, c, fuel) == Trace(Panicked(UnknownState(c.cur)), [], [])
  {
  }

  /** A `Type` that is not a string makes the run panic before any call. */
  lemma TypeNotStringPanics(states: map<string, StateDef>, bytesIn: Bytes, p: Params, invoke: Invoker, c: Config, fuel: nat)
    requires c.cur in states && !states[c.cur].typ.Present? && fuel > 0
    ensures Run(states, bytesIn, p, invoke, c, fuel) == Trace(Panicked(NotAString("Type")), [], [])
  {
  }

  /**
    An invocable state is invoked once, under its own name, with the payload
    `ResultPath` selects (the last response when present, the original input
    when absent) and the run's own arguments.
  */
  lemma StepInvokes(states: map<string, StateDef>, bytesIn: Bytes, p: Params, invoke: Invoker, c: Config)
    requires Invokable(states, c.cur)
    ensures Step(states, bytesIn, p, invoke, c).calls
      == [Call(c.cur, if states[c.cur].hasResultPath then c.response else Some(bytesIn), p)]
  {
  }

  /**
    A failed invocation: without `Catch` the run returns the invoker's error
    unchanged; with `Catch` it goes on at the state Catch names, returns
    the catch format error when Catch cannot read the list, and panics when
    the list is empty or its first `Next` is not a string. Either way the
    error text is written out.
  */
  lemma InvocationErrorHandling(states: map<string, StateDef>, bytesIn: Bytes, p: Params, invoke: Invoker, c: Config, fuel: nat)
    requires Invokable(states, c.cur) && fuel > 0
    requires invoke(c.count, Step(states, bytesIn, p, invoke, c).calls[0]).err.Some?
    ensures var st := states[c.cur];
      var reply := invoke(c.count, Step(states, bytesIn, p, invoke, c).calls[0]);
      var s := Step(states, bytesIn, p, invoke, c);
      && s.output == [reply.err.value]
      && (!st.catch.Exists() ==> s.Halt? && s.outcome == Returned(InvokeError(reply.err.value)))
      && (st.catch.Exists() && Catch(st).Goto? ==>
            s.Continue? && s.next == Config(Catch(st).name, reply.response, c.count + 1))
      && (st.catch.Exists() && Catch(st).Fails? ==> s.Halt? && s.outcome == Returned(WrongFormatCatch))
      && (st.catch.Exists() && Catch(st).Panics? ==> s.Halt? && s.outcome == Panicked(Catch(st).cause))
  {
  }

  /**
    After a successful invocation of a Task state: Task's error is returned;
    the empty name ends the run with nil; any other name is where the run
    goes on; a `Next` that is not a string is a panic.
  */
  lemma TaskStepOutcome(states: map<string, StateDef>, bytesIn: Bytes, p: Params, invoke: Invoker, c: Config)
    requires Invokable(states, c.cur) && states[c.cur].typ.value == TASK
    requires invoke(c.count, Step(states, bytesIn, p, invoke, c).calls[0]).err.None?
    ensures var s := Step(states, bytesIn, p, invoke, c);
      var t := Task(states[c.cur]);
      && (t.Fails? ==> s.Halt? && s.outcome == Returned(t.err))
      && (t == Goto("") ==> s.Halt? && s.outcome == Nil)
      && (t.Goto? && t.name != "" ==> s.Continue? && s.next.cur == t.name)
      && (t.Panics? ==> s.Halt? && s.outcome == Panicked(t.cause))
  {
  }

  /**
    After a successful invocation of a Choice state the run goes where Choice
    sends the trimmed original input; a Choice error becomes a panic, and so
    does a panic of Choice itself (a `StringEquals` or `Next` that is not a
    string).
  */
  lemma ChoiceFollowsTrimmedInput(states: map<string, StateDef>, bytesIn: Bytes, p: Params, invoke: Invoker, c: Config)
    requires Invokable(states, c.cur) && states[c.cur].typ.value == CHOICE
    requires invoke(c.count, Step(states, bytesIn, p, invoke, c).calls[0]).err.None?
    ensures var s := Step(states, bytesIn, p, invoke, c);
      var ch := Choice(states[c.cur], Trim(bytesIn));
      && (ch.Goto? ==> s.Continue? && s.next.cur == ch.name)
      && (ch.Fails? ==> s.Halt? && s.outcome == Panicked(Raised(ch.err)))
      && (ch.Panics? ==> s.Halt? && s.outcome == Panicked(ch.cause))
  {
  }

  /**
    The branch a Choice state takes never depends on the response the run
    carries: two configurations that differ only in it, both invoked
    successfully, end the step the same way at the same next state.
  */
  lemma ChoiceIgnoresResponse(states: map<string, StateDef>, bytesIn: Bytes, p: Params, invoke: Invoker,
                              c: Config, other: Option<Bytes>)
    requires Invokable(states, c.cur) && states[c.cur].typ.value == CHOICE
    requires invoke(c.count, Step(states, bytesIn, p, invoke, c).calls[0]).err.None?
    requires invoke(c.count, Step(states, bytesIn, p, invoke, c.(response := other)).calls[0]).err.None?
    ensures var s1 := Step(states, bytesIn, p, invoke, c);
      var s2 := Step(states, bytesIn, p, invoke, c.(response := other));
      && s1.Continue? == s2.Continue?
      && (s1.Continue? ==> s1.next.cur == s2.next.cur)
      && (s1.Halt? ==> s1.outcome == s2.outcome)
  {
    StepInvokes(states, bytesIn, p, invoke, c);
    StepInvokes(states, bytesIn, p, invoke, c.(response := other));
  }

  /**
    When no rule of a Choice state matches, Choice yields the empty name
    without error, and the next iteration panics on the unknown state "".
  */
  lemma ChoiceNoMatchPanicsNext(states: map<string, StateDef>, bytesIn: Bytes, p: Params, invoke: Invoker, c: Config, fuel: nat)
    requires Invokable(states, c.cur) && states[c.cur].typ.value == CHOICE
    requires states[c.cur].choices.Present?
    requires forall j :: 0 <= j < |states[c.cur].choices.value| ==> Mismatch(states[c.cur].choices.value[j], Trim(bytesIn))
    requires invoke(c.count, Step(states, bytesIn, p, invoke, c).calls[0]).err.None?
    requires "" !in states && fuel >= 2
    ensures Run(states, bytesIn, p, invoke, c, fuel).outcome == Panicked(UnknownState(""))
  {
    RunUnfold(states, bytesIn, p, invoke, c, fuel);
    var s := Step(states, bytesIn, p, invoke, c);
    RunUnfold(states, bytesIn, p, invoke, s.next, fuel - 1);
  }

  /**
    A successful invocation of a state whose `Type` is none of Fail, Choice
    and Task leaves the next state as it was: the same state runs again.
  */
  lemma OtherTypeReruns(states: map<string, StateDef>, bytesIn: Bytes, p: Params, invoke: Invoker, c: Config)
    requires Invokable(states, c.cur)
    requires states[c.cur].typ.value != CHOICE && states[c.cur].typ.value != TASK
    requires invoke(c.count, Step(states, bytesIn, p, invoke, c).calls[0]).err.None?
    ensures Step(states, bytesIn, p, invoke, c).Continue?
    ensures Step(states, bytesIn, p, invoke, c).next.cur == c.cur
  {
  }

  // ---- whole runs ----------------------------------------------------------

  /**
    The response carried into call `i` of `calls`, made from iteration `k`
    on: `first` for the first call, the previous call's response after it.
  */
  function Carried(invoke: Invoker, first: Option<Bytes>, k: nat, calls: seq<Call>, i: nat): Option<Bytes>
    requires i < |calls|
  {
    if i == 0 then first else invoke(k + i - 1, calls[i - 1]).response
  }

  /**
    Every call of `calls` is of a defined state, and its payload is the
    carried response when the state has `ResultPath`, the original input
    when it has not.
  */
  ghost predicate PayloadsFollow(states: map<string, StateDef>, bytesIn: Bytes, invoke: Invoker,
                                 first: Option<Bytes>, k: nat, calls: seq<Call>)
  {
    forall i :: 0 <= i < |calls| ==>
      calls[i].name in states
      && calls[i].payload == Payload(states[calls[i].name], Carried(invoke, first, k, calls, i), bytesIn)
  }

  lemma PayloadsCons(states: map<string, StateDef>, bytesIn: Bytes, invoke: Invoker,
                     first: Option<Bytes>, k: nat, call: Call, rest: seq<Call>)
    requires call.name in states && call.payload == Payload(states[call.name], first, bytesIn)
    requires PayloadsFollow(states, bytesIn, invoke, invoke(k, call).response, k + 1, rest)
    ensures PayloadsFollow(states, bytesIn, invoke, first, k, [call] + rest)
  {
    var calls := [call] + rest;
    forall i | 1 <= i < |calls|
      ensures calls[i].name in states
      ensures calls[i].payload == Payload(states[calls[i].name], Carried(invoke, first, k, calls, i), bytesIn)
    {
      CarriedCons(invoke, first, k, call, rest, i);
    }
  }

  /** Call `i` of `[call] + rest` is call `i - 1` of `rest`, and so is the response carried into it. */
  lemma CarriedCons(invoke: Invoker, first: Option<Bytes>, k: nat, call: Call, rest: seq<Call>, i: nat)
    requires 1 <= i < 1 + |rest|
    ensures ([call] + rest)[i] == rest[i - 1]
    ensures Carried(invoke, first, k, [call] + rest, i) == Carried(invoke, invoke(k, call).response, k + 1, rest, i - 1)
  {
    assert ([call] + rest)[i - 1] == if i == 1 then call else rest[i - 2];
  }

  /** The payload of every call of a run follows `ResultPath`, call after call. */
  lemma {:induction false} RunPayloads(states: map<string, StateDef>, bytesIn: Bytes, p: Params, invoke: Invoker,
                                       c: Config, fuel: nat)
    ensures PayloadsFollow(states, bytesIn, invoke, c.response, c.count, Run(states, bytesIn, p, invoke, c, fuel).calls)
    decreases fuel
  {
    if fuel > 0 {
      RunUnfold(states, bytesIn, p, invoke, c, fuel);
      StepShape(states, bytesIn, p, invoke, c);
      var s := Step(states, bytesIn, p, invoke, c);
      if s.Continue? {
        RunPayloads(states, bytesIn, p, invoke, s.next, fuel - 1);
        PayloadsCons(states, bytesIn, invoke, c.response, c.count, s.calls[0],
          Run(states, bytesIn, p, invoke, s.next, fuel - 1).calls);
        assert s.calls == [s.calls[0]];
      } else if |s.calls| == 1 {
        PayloadsCons(states, bytesIn, invoke, c.response, c.count, s.calls[0], []);
        assert s.calls == [s.calls[0]] + [];
      }
    }
  }

  /** What a sequence of calls writes to standard output, from iteration `k` on. */
  function Emissions(invoke: Invoker, k: nat, calls: seq<Call>): seq<Bytes>
    decreases |calls|
  {
    if |calls| == 0 then [] else Emitted(invoke(k, calls[0])) + Emissions(invoke, k + 1, calls[1..])
  }

  /** The output of one call, then of the calls after it. */
  lemma EmissionsConcat(invoke: Invoker, k: nat, first: seq<Call>, rest: seq<Call>)
    requires |first| == 1
    ensures Emissions(invoke, k, first + rest) == Emitted(invoke(k, first[0])) + Emissions(invoke, k + 1, rest)
  {
    assert (first + rest)[1..] == rest;
  }


  /**
    The output of a run, in step order: for every call, the error text when
    it failed, else its response when not nil; nothing else is written.
  */
  lemma {:induction false} RunOutput(states: map<string, StateDef>, bytesIn: Bytes, p: Params, invoke: Invoker,
                                     c: Config, fuel: nat)
    ensures var t := Run(states, bytesIn, p, invoke, c, fuel);
      t.output == Emissions(invoke, c.count, t.calls)
    decreases fuel
  {
    if fuel > 0 {
      RunUnfold(states, bytesIn, p, invoke, c, fuel);
      StepOutput(states, bytesIn, p, invoke, c);
      var s := Step(states, bytesIn, p, invoke, c);
      if s.Continue? {
        var rest := Run(states, bytesIn, p, invoke, s.next, fuel - 1);
        RunOutput(states, bytesIn, p, invoke, s.next, fuel - 1);
        OutputPrepend(invoke, c.count, s.output, s.calls, rest);
      }
    }
  }

  /** One call's output in front of a trace whose output already follows its calls. */
  lemma OutputPrepend(invoke: Invoker, k: nat, output: seq<Bytes>, calls: seq<Call>, rest: Trace)
    requires |calls| == 1 && output == Emissions(invoke, k, calls)
    requires rest.output == Emissions(invoke, k + 1, rest.calls)
    ensures Prepend(output, calls, rest).output == Emissions(invoke, k, Prepend(output, calls, rest).calls)
  {
    EmissionsConcat(invoke, k, calls, rest.calls);
    assert calls[1..] == [];
  }

  /** What one iteration writes is the output of the call it made, if any. */
  lemma StepOutput(states: map<string, StateDef>, bytesIn: Bytes, p: Params, invoke: Invoker, c: Config)
    ensures var s := Step(states, bytesIn, p, invoke, c);
      s.output == Emissions(invoke, c.count, s.calls)
  {
    StepShape(states, bytesIn, p, invoke, c);
    var s := Step(states, bytesIn, p, invoke, c);
    if |s.calls| == 1 {
      EmissionsConcat(invoke, c.count, s.calls, []);
      assert s.calls + [] == s.calls;
    }
  }


  /** The iteration bound only cuts runs short: a run that ended by itself ends the same with more fuel. */
  lemma {:induction false} RunFuelMonotone(states: map<string, StateDef>, bytesIn: Bytes, p: Params, invoke: Invoker,
                                           c: Config, fuel: nat, more: nat)
    requires Run(states, bytesIn, p, invoke, c, fuel).outcome != OutOfFuel
    requires fuel <= more
    ensures Run(states, bytesIn, p, invoke, c, more) == Run(states, bytesIn, p, invoke, c, fuel)
    decreases fuel
  {
    if fuel == 0 {
      assert false;
    }
    RunUnfold(states, bytesIn, p, invoke, c, fuel);
    RunUnfold(states, bytesIn, p, invoke, c, more);
    match Step(states, bytesIn, p, invoke, c)
    case Halt(_, _, _) =>
    case Continue(c', _, _) => RunFuelMonotone(states, bytesIn, p, invoke, c', fuel - 1, more - 1);
  }

  /** Trimming twice is trimming once. */
  lemma TrimIdempotent(s: Bytes)
    ensures Trim(Trim(s)) == Trim(s)
  {
  }
}
