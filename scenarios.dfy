/**
  Whole runs of small definitions, for any invoker that behaves as stated.
*/
module Scenarios {
  import opened Wrappers
  import opened Definition
  import opened Process
  import opened Controller

  function TaskTo(next: string): StateDef {
    StateDef(Present(TASK), false, Absent, Absent, false, Present(next))
  }

  function TaskEnd(): StateDef {
    StateDef(Present(TASK), false, Absent, Absent, true, Absent)
  }

  /**
    A (Task, Next B) then B (Task, End), without `ResultPath`: both are
    invoked with the original input and the run ends with nil.
  */
  lemma TwoTasksInSequence(bytesIn: Bytes, p: Params, invoke: Invoker, fuel: nat)
    requires forall k: nat, c: Call :: invoke(k, c).err.None?
    requires fuel >= 2
    ensures var t := Execute(Definition(Present("A"), Present(map["A" := TaskTo("B"), "B" := TaskEnd()])),
                             bytesIn, p, invoke, fuel);
      t.outcome == Nil && t.calls == [Call("A", Some(bytesIn), p), Call("B", Some(bytesIn), p)]
  {
    var states := map["A" := TaskTo("B"), "B" := TaskEnd()];
    var c0 := Config("A", Some(bytesIn), 0);
    RunUnfold(states, bytesIn, p, invoke, c0, fuel);
    var s0 := Step(states, bytesIn, p, invoke, c0);
    assert s0.Continue? && s0.next.cur == "B";
    RunUnfold(states, bytesIn, p, invoke, s0.next, fuel - 1);
  }

  const YES: Bytes := [121, 101, 115]
  const NO: Bytes := [110, 111]
  const MAYBE: Bytes := [109, 97, 121, 98, 101]

  /** A Choice state "C" with rules yes -> Y and no -> N. */
  function YesNo(): map<string, StateDef> {
    map["C" := StateDef(Present(CHOICE), false, Absent,
                        Present([ChoiceRule(Present(YES), Present("Y")), ChoiceRule(Present(NO), Present("N"))]),
                        false, Absent),
        "Y" := TaskEnd(),
        "N" := TaskEnd()]
  }

  /** Input "no" followed by a newline goes to N once C has been invoked successfully. */
  lemma ChoiceTakesMatchingRule(p: Params, invoke: Invoker, fuel: nat)
    requires forall k: nat, c: Call :: invoke(k, c).err.None?
    requires fuel >= 2
    ensures var t := Execute(Definition(Present("C"), Present(YesNo())), NO + [NEWLINE], p, invoke, fuel);
      t.outcome == Nil && |t.calls| == 2 && t.calls[1].name == "N"
  {
    var input := NO + [NEWLINE];
    assert TrailingNewlines(input) == 1 by {
      assert input[..|input| - 1] == NO;
    }
    assert Trim(input) == NO by {
      assert input[0..2] == NO;
    }
    var c0 := Config("C", Some(input), 0);
    RunUnfold(YesNo(), input, p, invoke, c0, fuel);
    var s0 := Step(YesNo(), input, p, invoke, c0);
    assert ScanStop(YesNo()["C"].choices.value, NO) == 1;
    assert s0.Continue? && s0.next.cur == "N";
    RunUnfold(YesNo(), input, p, invoke, s0.next, fuel - 1);
  }

  /**
    Input "maybe" matches no rule: Choice yields the empty name without
    error, and the run panics looking up the state "".
  */
  lemma ChoiceWithoutMatch(p: Params, invoke: Invoker, fuel: nat)
    requires forall k: nat, c: Call :: invoke(k, c).err.None?
    requires fuel >= 2
    ensures var t := Execute(Definition(Present("C"), Present(YesNo())), MAYBE, p, invoke, fuel);
      t.outcome == Panicked(UnknownState("")) && |t.calls| == 1
  {
    var input := MAYBE;
    assert Trim(input) == input by {
      assert input[0..5] == input;
    }
    var c0 := Config("C", Some(input), 0);
    RunUnfold(YesNo(), input, p, invoke, c0, fuel);
    var s0 := Step(YesNo(), input, p, invoke, c0);
    assert ScanStop(YesNo()["C"].choices.value, input) == 2;
    assert s0.Continue? && s0.next.cur == "";
    RunUnfold(YesNo(), input, p, invoke, s0.next, fuel - 1);
  }

  /**
    A Task whose invocation fails and whose `Catch` names "Recover": the
    error text is written out and the run goes on at Recover.
  */
  lemma CatchRecovers(bytesIn: Bytes, p: Params, invoke: Invoker, fuel: nat, text: Bytes)
    requires forall c: Call :: invoke(0, c) == Reply(None, Some(text))
    requires forall c: Call :: invoke(1, c).err.None?
    requires fuel >= 2
    ensures var states := map["A" := TaskTo("B").(catch := Present([CatchRule(Present("Recover"))])),
                              "Recover" := TaskEnd()];
      var t := Execute(Definition(Present("A"), Present(states)), bytesIn, p, invoke, fuel);
      t.outcome == Nil && |t.calls| == 2 && t.calls[1].name == "Recover" && |t.output| >= 1 && t.output[0] == text
  {
    var states := map["A" := TaskTo("B").(catch := Present([CatchRule(Present("Recover"))])),
                      "Recover" := TaskEnd()];
    var c0 := Config("A", Some(bytesIn), 0);
    RunUnfold(states, bytesIn, p, invoke, c0, fuel);
    var s0 := Step(states, bytesIn, p, invoke, c0);
    assert s0.Continue? && s0.next.cur == "Recover" && s0.output == [text];
    RunUnfold(states, bytesIn, p, invoke, s0.next, fuel - 1);
  }
}
