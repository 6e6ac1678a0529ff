/**
  The interpreter's run loop: start at `StartFunction`, look the current
  state up, stop at a Fail state, otherwise invoke the function named after
  the state, write the reply to standard output and resolve the next state.
*/
module Controller {
  import opened Wrappers
  import opened Definition
  import opened Process

  const NEWLINE: byte := 10

  predicate AllNewlines(s: Bytes) {
    forall k :: 0 <= k < |s| ==> s[k] == NEWLINE
  }

  /** Number of newline bytes at the front of `s`. */
  function LeadingNewlines(s: Bytes): (n: nat)
    ensures n <= |s| && forall k :: 0 <= k < n ==> s[k] == NEWLINE
    ensures n < |s| ==> s[n] != NEWLINE
  {
    if |s| == 0 || s[0] != NEWLINE then 0 else 1 + LeadingNewlines(s[1..])
  }

  /** Number of newline bytes at the back of `s`. */
  function TrailingNewlines(s: Bytes): (n: nat)
    ensures n <= |s| && forall k :: |s| - n <= k < |s| ==> s[k] == NEWLINE
    ensures n < |s| ==> s[|s| - 1 - n] != NEWLINE
  {
    if |s| == 0 || s[|s| - 1] != NEWLINE then 0 else 1 + TrailingNewlines(s[..|s| - 1])
  }

  /**
    The input with every leading and every trailing newline removed (both
    ends, as strings.Trim with cutset "\n" does): what is left is a slice of
    the input with only newlines on either side, and it neither starts nor
    ends with a newline.
  */
  function Trim(s: Bytes): (r: Bytes)
    ensures |r| > 0 ==> r[0] != NEWLINE && r[|r| - 1] != NEWLINE
    ensures exists i :: 0 <= i <= |s| - |r| && r == s[i..i + |r|]
              && AllNewlines(s[..i]) && AllNewlines(s[i + |r|..])
  {
    var lead := LeadingNewlines(s);
    if lead == |s| then
      assert s[..lead] == s;
      []
    else
      var trail := TrailingNewlines(s);
      var r := s[lead..|s| - trail];
      assert r == s[lead..lead + |r|];
      r
  }

  /** Invocation arguments fixed for the whole run and passed through as they are. */
  datatype Params = Params(
    gateway: string,
    contentType: string,
    query: seq<string>,
    headers: seq<string>,
    async: bool,
    httpMethod: string,
    tlsInsecure: bool,
    namespace: string)

  /** One call of the function invoker: the function's name, the payload (nil or bytes), the fixed arguments. */
  datatype Call = Call(name: string, payload: Option<Bytes>, params: Params)

  /** The invoker's two results: a response (nil or bytes) and an error (nil or its text). */
  datatype Reply = Reply(response: Option<Bytes>, err: Option<Bytes>)

  /**
    The function invoker, an external service: it is given the iteration
    number as well as the call, so that it may answer the same call
    differently at different times.
  */
  type Invoker = (nat, Call) -> Reply

  /** How a run ends: nil, a returned error, a panic, or the model's iteration bound reached. */
  datatype Outcome = Nil | Returned(err: GoError) | Panicked(cause: PanicCause) | OutOfFuel

  /** The loop variables: the state to run next, the last response, the iteration count. */
  datatype Config = Config(cur: string, response: Option<Bytes>, count: nat)

  /** What one iteration does: stop with an outcome, or go on from a new configuration. */
  datatype StepResult =
    | Halt(outcome: Outcome, output: seq<Bytes>, calls: seq<Call>)
    | Continue(next: Config, output: seq<Bytes>, calls: seq<Call>)

  /** A whole run: its outcome, the writes to standard output, the calls of the invoker, in order. */
  datatype Trace = Trace(outcome: Outcome, output: seq<Bytes>, calls: seq<Call>)

  /**
    What an invocation writes to standard output: at most one write, the
    error text when the call failed (even if a response came back too),
    else the response; nothing exactly when both are nil.
  */
  function Emitted(reply: Reply): (out: seq<Bytes>)
    ensures |out| <= 1
    ensures out == [] <==> reply.err.None? && reply.response.None?
    ensures reply.err.Some? ==> out == [reply.err.value]
    ensures reply.err.None? && reply.response.Some? ==> out == [reply.response.value]
  {
    if reply.err.Some? then [reply.err.value]
    else if reply.response.Some? then [reply.response.value]
    else []
  }

  /**
    The payload of a state's invocation: the last response with
    `ResultPath`, the original input without. A nil payload therefore only
    happens with `ResultPath` and a nil last response.
  */
  function Payload(st: StateDef, response: Option<Bytes>, bytesIn: Bytes): (payload: Option<Bytes>)
    ensures st.hasResultPath ==> payload == response
    ensures !st.hasResultPath ==> payload == Some(bytesIn)
    ensures payload.None? ==> st.hasResultPath && response.None?
  {
    if st.hasResultPath then response else Some(bytesIn)
  }

  /** A state the run may invoke: it is defined, its `Type` is a string, and it is not Fail. */
  predicate Invokable(states: map<string, StateDef>, name: string) {
    name in states && states[name].typ.Present? && states[name].typ.value != FAIL
  }

  /**
    One iteration of the run loop from configuration `c`: it makes at most
    one call, an iteration that stops does so with an outcome of the source,
    and an iteration that goes on has made its call and counts one more
    iteration.
  */
  function Step(states: map<string, StateDef>, bytesIn: Bytes, p: Params, invoke: Invoker, c: Config): (s: StepResult)
    ensures |s.calls| <= 1
    ensures s.Halt? ==> s.outcome != OutOfFuel
    ensures s.Continue? ==> |s.calls| == 1 && s.next.count == c.count + 1
  {
    if c.cur !in states then Halt(Panicked(UnknownState(c.cur)), [], [])
    else
      var st := states[c.cur];
      if !st.typ.Present? then Halt(Panicked(NotAString("Type")), [], [])
      else if st.typ.value == FAIL then Halt(Nil, [], [])
      else
        var call := Call(c.cur, Payload(st, c.response, bytesIn), p);
        var reply := invoke(c.count, call);
        var out := Emitted(reply);
        var c' := c.(response := reply.response, count := c.count + 1);
        if reply.err.Some? then
          if !st.catch.Exists() then Halt(Returned(InvokeError(reply.err.value)), out, [call])
          else match Catch(st)
            case Goto(n) => Continue(c'.(cur := n), out, [call])
            case Fails(_) => Halt(Returned(WrongFormatCatch), out, [call])
            case Panics(cause) => Halt(Panicked(cause), out, [call])
        else if st.typ.value == CHOICE then
          match Choice(st, Trim(bytesIn))
          case Goto(n) => Continue(c'.(cur := n), out, [call])
          case Fails(e) => Halt(Panicked(Raised(e)), out, [call])
          case Panics(cause) => Halt(Panicked(cause), out, [call])
        else if st.typ.value == TASK then
          match Task(st)
          case Goto(n) => if n == "" then Halt(Nil, out, [call]) else Continue(c'.(cur := n), out, [call])
          case Fails(e) => Halt(Returned(e), out, [call])
          case Panics(cause) => Halt(Panicked(cause), out, [call])
        else
          Continue(c', out, [call])
  }

  function Prepend(output: seq<Bytes>, calls: seq<Call>, t: Trace): Trace {
    Trace(t.outcome, output + t.output, calls + t.calls)
  }

  lemma PrependNothing(t: Trace)
    ensures Prepend([], [], t) == t
  {
    assert [] + t.output == t.output && [] + t.calls == t.calls;
  }

  lemma PrependTwice(output: seq<Bytes>, calls: seq<Call>, output': seq<Bytes>, calls': seq<Call>, t: Trace)
    ensures Prepend(output, calls, Prepend(output', calls', t)) == Prepend(output + output', calls + calls', t)
  {
  }

  /**
    The shape of every step: at most one call, made only at an invokable
    state, named after the current state, with the payload `ResultPath`
    selects and the run's own arguments; the step writes exactly what that
    call's reply emits; a step that goes on has made its call, counts one
    more iteration and carries the call's response.
  */
  lemma StepShape(states: map<string, StateDef>, bytesIn: Bytes, p: Params, invoke: Invoker, c: Config)
    ensures var s := Step(states, bytesIn, p, invoke, c);
      && |s.calls| <= 1
      && (s.Halt? ==> s.outcome != OutOfFuel)
      && (s.calls == [] ==> s.Halt? && s.output == [])
      && (|s.calls| == 1 ==>
            && Invokable(states, c.cur)
            && s.calls[0] == Call(c.cur, Payload(states[c.cur], c.response, bytesIn), p)
            && s.output == Emitted(invoke(c.count, s.calls[0])))
      && (s.Continue? ==>
            && |s.calls| == 1
            && s.next.count == c.count + 1
            && s.next.response == invoke(c.count, s.calls[0]).response)
  {
  }

  /**
    At most `fuel` iterations of the run loop from configuration `c`. A run
    makes at most one call per iteration, and exactly one per iteration when
    it reaches the bound.
  */
  function Run(states: map<string, StateDef>, bytesIn: Bytes, p: Params, invoke: Invoker, c: Config, fuel: nat): (t: Trace)
    ensures |t.calls| <= fuel
    ensures t.outcome == OutOfFuel ==> |t.calls| == fuel
    decreases fuel
  {
    if fuel == 0 then Trace(OutOfFuel, [], [])
    else match Step(states, bytesIn, p, invoke, c)
      case Halt(o, out, calls) => Trace(o, out, calls)
      case Continue(c', out, calls) => Prepend(out, calls, Run(states, bytesIn, p, invoke, c', fuel - 1))
  }

  /** A run with fuel left takes one step, then runs on from where the step leaves off. */
  lemma RunUnfold(states: map<string, StateDef>, bytesIn: Bytes, p: Params, invoke: Invoker, c: Config, fuel: nat)
    requires fuel > 0
    ensures Step(states, bytesIn, p, invoke, c).Halt? ==>
      var h := Step(states, bytesIn, p, invoke, c);
      Run(states, bytesIn, p, invoke, c, fuel) == Trace(h.outcome, h.output, h.calls)
    ensures Step(states, bytesIn, p, invoke, c).Continue? ==>
      var k := Step(states, bytesIn, p, invoke, c);
      Run(states, bytesIn, p, invoke, c, fuel) == Prepend(k.output, k.calls, Run(states, bytesIn, p, invoke, k.next, fuel - 1))
  {
  }

  /** Every call of a run is of an invokable state and carries the run's own arguments. */
  lemma {:induction false} RunInvokesStates(states: map<string, StateDef>, bytesIn: Bytes, p: Params, invoke: Invoker,
                                            c: Config, fuel: nat)
    ensures var t := Run(states, bytesIn, p, invoke, c, fuel);
      forall i :: 0 <= i < |t.calls| ==> Invokable(states, t.calls[i].name) && t.calls[i].params == p
    decreases fuel
  {
    if fuel > 0 {
      RunUnfold(states, bytesIn, p, invoke, c, fuel);
      StepShape(states, bytesIn, p, invoke, c);
      var s := Step(states, bytesIn, p, invoke, c);
      if s.Continue? {
        var rest := Run(states, bytesIn, p, invoke, s.next, fuel - 1);
        RunInvokesStates(states, bytesIn, p, invoke, s.next, fuel - 1);
        InvokableCons(states, p, s.calls[0], rest.calls);
        assert s.calls == [s.calls[0]];
      }
    }
  }

  /** A call of an invokable state with the run's arguments, followed by more such calls. */
  lemma InvokableCons(states: map<string, StateDef>, p: Params, call: Call, rest: seq<Call>)
    requires Invokable(states, call.name) && call.params == p
    requires forall i :: 0 <= i < |rest| ==> Invokable(states, rest[i].name) && rest[i].params == p
    ensures forall i :: 0 <= i < |[call] + rest| ==>
      Invokable(states, ([call] + rest)[i].name) && ([call] + rest)[i].params == p
  {
  }



  /**
    A whole run of a definition on the input `bytesIn`, for at most `fuel`
    iterations. A `StartFunction` that is not a string, or `States` that is
    not an object, stops the run before any call; otherwise the first call,
    if any, is of the start state and receives the original input, since
    the carried response starts as that input.
  */
  function Execute(def: Definition, bytesIn: Bytes, p: Params, invoke: Invoker, fuel: nat): (t: Trace)
    ensures |t.calls| <= fuel
    ensures !def.start.Present? ==> t == Trace(Panicked(NotAString("StartFunction")), [], [])
    ensures def.start.Present? && !def.states.Present? ==> t == Trace(Returned(NotObject), [], [])
    ensures |t.calls| > 0 ==> t.calls[0].name == def.start.value && t.calls[0].payload == Some(bytesIn)
    ensures forall i :: 0 <= i < |t.calls| ==>
      def.states.Present? && Invokable(def.states.value, t.calls[i].name) && t.calls[i].params == p
  {
    if !def.start.Present? then Trace(Panicked(NotAString("StartFunction")), [], [])
    else if !def.states.Present? then Trace(Returned(NotObject), [], [])
    else
      var c := Config(def.start.value, Some(bytesIn), 0);
      RunInvokesStates(def.states.value, bytesIn, p, invoke, c, fuel);
      StepShape(def.states.value, bytesIn, p, invoke, c);
      if fuel > 0 then
        RunUnfold(def.states.value, bytesIn, p, invoke, c, fuel);
        Run(def.states.value, bytesIn, p, invoke, c, fuel)
      else
        Run(def.states.value, bytesIn, p, invoke, c, fuel)
  }

  /**
    What one pass of the loop body adds to the run so far, in the terms of
    the loop's own variables: the configuration `nextFunc`, `response`,
    `count` and the bound `fuel` on the iterations of the whole run.
  */
  lemma LoopStep(states: map<string, StateDef>, bytesIn: Bytes, p: Params, invoke: Invoker,
                 nextFunc: string, response: Option<Bytes>, count: nat, fuel: nat,
                 r: StepResult, whole: Trace, output: seq<Bytes>, calls: seq<Call>)
    requires count < fuel && r == Step(states, bytesIn, p, invoke, Config(nextFunc, response, count))
    requires whole == Prepend(output, calls, Run(states, bytesIn, p, invoke, Config(nextFunc, response, count), fuel - count))
    ensures r.Halt? ==> whole == Trace(r.outcome, output + r.output, calls + r.calls)
    ensures r.Continue? ==>
      && r.next.count == count + 1 <= fuel
      && whole == Prepend(output + r.output, calls + r.calls,
                          Run(states, bytesIn, p, invoke, Config(r.next.cur, r.next.response, r.next.count), fuel - r.next.count))
  {
    var c := Config(nextFunc, response, count);
    RunUnfold(states, bytesIn, p, invoke, c, fuel - count);
    if r.Continue? {
      var rest := Run(states, bytesIn, p, invoke, r.next, fuel - count - 1);
      assert Config(r.next.cur, r.next.response, r.next.count) == r.next;
      PrependTwice(output, calls, r.output, r.calls, rest);
    }
  }


  /**
    One pass of the body of the run loop as the source writes it: look the
    state up, stop at Fail, choose the payload, invoke, write the reply and
    resolve the next state. `input` is the trimmed original input.
  */
  method Iterate(states: map<string, StateDef>, bytesIn: Bytes, input: Bytes, p: Params, invoke: Invoker,
                 nextFunc: string, response: Option<Bytes>, count: nat)
    returns (r: StepResult)
    requires input == Trim(bytesIn)
    ensures r == Step(states, bytesIn, p, invoke, Config(nextFunc, response, count))
  {
    if nextFunc !in states {
      return Halt(Panicked(UnknownState(nextFunc)), [], []);
    }
    var funcJson := states[nextFunc];
    var currFunc := nextFunc;
    if !funcJson.typ.Present? {
      return Halt(Panicked(NotAString("Type")), [], []);
    }
    if funcJson.typ.value == FAIL {
      return Halt(Nil, [], []);
    }
    var call;
    if funcJson.hasResultPath {
      call := Call(currFunc, response, p);
    } else {
      call := Call(currFunc, Some(bytesIn), p);
    }
    var reply := invoke(count, call);
    var written: seq<Bytes> := [];
    var next := Config(nextFunc, reply.response, count + 1);
    if reply.err.Some? {
      written := [reply.err.value];
      if funcJson.catch.Exists() {
        match Catch(funcJson)
        case Goto(n) =>
          next := next.(cur := n);
        case Fails(_) =>
          return Halt(Returned(WrongFormatCatch), written, [call]);
        case Panics(cause) =>
          return Halt(Panicked(cause), written, [call]);
      } else {
        return Halt(Returned(InvokeError(reply.err.value)), written, [call]);
      }
    } else {
      if reply.response.Some? {
        written := [reply.response.value];
      }
      var funcType := funcJson.typ.value;
      if funcType == CHOICE {
        var resolved := ChooseNext(funcJson, input);
        match resolved
        case Goto(n) =>
          next := next.(cur := n);
        case Fails(e) =>
          return Halt(Panicked(Raised(e)), written, [call]);
        case Panics(cause) =>
          return Halt(Panicked(cause), written, [call]);
      } else if funcType == TASK {
        match Task(funcJson)
        case Goto(n) =>
          if n == "" {
            // the source breaks out of the loop and returns nil
            return Halt(Nil, written, [call]);
          }
          next := next.(cur := n);
        case Fails(e) =>
          return Halt(Returned(e), written, [call]);
        case Panics(cause) =>
          return Halt(Panicked(cause), written, [call]);
      }
    }
    r := Continue(next, written, [call]);
  }

  /** One pass of the run loop, and what it adds to the run so far. */
  method Pass(states: map<string, StateDef>, bytesIn: Bytes, input: Bytes, p: Params, invoke: Invoker,
              nextFunc: string, response: Option<Bytes>, count: nat, fuel: nat,
              ghost whole: Trace, ghost output: seq<Bytes>, ghost calls: seq<Call>)
    returns (r: StepResult)
    requires input == Trim(bytesIn) && count < fuel
    requires whole == Prepend(output, calls, Run(states, bytesIn, p, invoke, Config(nextFunc, response, count), fuel - count))
    ensures r.Halt? ==> whole == Trace(r.outcome, output + r.output, calls + r.calls)
    ensures r.Continue? ==>
      && r.next.count == count + 1 <= fuel
      && whole == Prepend(output + r.output, calls + r.calls,
                          Run(states, bytesIn, p, invoke, Config(r.next.cur, r.next.response, r.next.count), fuel - r.next.count))
  {
    r := Iterate(states, bytesIn, input, p, invoke, nextFunc, response, count);
    LoopStep(states, bytesIn, p, invoke, nextFunc, response, count, fuel, r, whole, output, calls);
  }

  /**
    The run loop as the source writes it, over mutable locals and an output
    log, from the start state with at most `fuel` iterations.
  */
  method RunLoop(states: map<string, StateDef>, bytesIn: Bytes, input: Bytes, p: Params, invoke: Invoker,
                 startFunc: string, fuel: nat)
    returns (outcome: Outcome, output: seq<Bytes>, calls: seq<Call>)
    requires input == Trim(bytesIn)
    ensures Trace(outcome, output, calls) == Run(states, bytesIn, p, invoke, Config(startFunc, Some(bytesIn), 0), fuel)
  {
    output, calls := [], [];
    var nextFunc := startFunc;
    var count := 0;
    var response := Some(bytesIn);
    ghost var whole := Run(states, bytesIn, p, invoke, Config(startFunc, Some(bytesIn), 0), fuel);
    PrependNothing(Run(states, bytesIn, p, invoke, Config(nextFunc, response, count), fuel - count));
    while count < fuel
      invariant count <= fuel
      invariant whole == Prepend(output, calls, Run(states, bytesIn, p, invoke, Config(nextFunc, response, count), fuel - count))
    {
      var r := Pass(states, bytesIn, input, p, invoke, nextFunc, response, count, fuel, whole, output, calls);
      if r.Halt? {
        return r.outcome, output + r.output, calls + r.calls;
      }
      output, calls := output + r.output, calls + r.calls;
      nextFunc, response, count := r.next.cur, r.next.response, r.next.count;
    }
    outcome := OutOfFuel;
  }

  /**
    The interpreter's entry point as the source writes it: read
    `StartFunction` and `States`, then run the loop.
  */
  method InitState(def: Definition, bytesIn: Bytes, p: Params, invoke: Invoker, fuel: nat)
    returns (outcome: Outcome, output: seq<Bytes>, calls: seq<Call>)
    ensures Trace(outcome, output, calls) == Execute(def, bytesIn, p, invoke, fuel)
    ensures forall i :: 0 <= i < |calls| ==> calls[i].params == p
  {
    var input := Trim(bytesIn);
    if !def.start.Present? {
      return Panicked(NotAString("StartFunction")), [], [];
    }
    var startFunc := def.start.value;
    if !def.states.Present? {
      return Returned(NotObject), [], [];
    }
    outcome, output, calls := RunLoop(def.states.value, bytesIn, input, p, invoke, startFunc, fuel);
  }
}
