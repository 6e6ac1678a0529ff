/**
  The three next-state resolvers of the interpreter: Catch after a failed
  invocation, Choice and Task after a successful one.
*/
module Process {
  import opened Definition

  /**
    Catch: the run continues at the `Next` of element 0 of the `Catch` list.
    Later rules, and any error-matching fields of the rules, are never read.
    An empty list, or a `Next` that is not a string, is a panic.
  */
  function Catch(st: StateDef): (r: Resolve)
    ensures r.Goto? <==>
      st.catch.Present? && |st.catch.value| > 0 && st.catch.value[0].next.Present?
    ensures r.Goto? ==> r.name == st.catch.value[0].next.value
    ensures r.Fails? <==> !st.catch.Present?
    ensures r.Fails? ==> r.err == NotObjOrArray
    ensures r.Panics? && st.catch.Present? && |st.catch.value| == 0 ==> r.cause == IndexOutOfRange
    ensures r.Panics? ==>
      && st.catch.Present?
      && r.cause == (if |st.catch.value| == 0 then IndexOutOfRange else NotAString("Next"))
  {
    match st.catch
    case Present(rules) =>
      if |rules| == 0 then Panics(IndexOutOfRange)
      else if rules[0].next.Present? then Goto(rules[0].next.value)
      else Panics(NotAString("Next"))
    case _ => Fails(NotObjOrArray)
  }

  /** Catch never looks past element 0 of the list. */
  lemma CatchIgnoresLaterRules(st: StateDef, rule: CatchRule, later: seq<CatchRule>)
    requires st.catch == Present([rule] + later)
    ensures Catch(st) == Catch(st.(catch := Present([rule])))
  {
  }

  /** The rule's `StringEquals` is a string, and it differs from the input: the scan goes on. */
  predicate Mismatch(rule: ChoiceRule, input: Bytes) {
    rule.stringEquals.Present? && rule.stringEquals.value != input
  }

  /** A rule whose `StringEquals` is exactly the input. */
  predicate Matches(rule: ChoiceRule, input: Bytes) {
    rule.stringEquals == Present(input)
  }

  /**
    Where Choice's scan of the rules stops: the first rule that is not a
    mismatch (it matches, or its `StringEquals` is not a string), or |rules|
    when every rule was read and none matched.
  */
  function ScanStop(rules: seq<ChoiceRule>, input: Bytes): (k: nat)
    ensures k <= |rules|
    ensures forall j :: 0 <= j < k ==> Mismatch(rules[j], input)
    ensures k < |rules| ==> !Mismatch(rules[k], input)
  {
    if |rules| == 0 || !Mismatch(rules[0], input) then 0
    else 1 + ScanStop(rules[1..], input)
  }

  /**
    Choice: the `Next` of the first rule, in list order, whose `StringEquals`
    equals the input (byte for byte); the empty name, and no error, when no
    rule matches; an error when `Choices` has no readable children.
  */
  function Choice(st: StateDef, input: Bytes): (r: Resolve)
    ensures r.Fails? <==> !st.choices.Present?
    ensures r.Fails? ==> r.err == NotObjOrArray
    ensures st.choices.Present? && (forall j :: 0 <= j < |st.choices.value| ==> Mismatch(st.choices.value[j], input))
      ==> r == Goto("")
    ensures st.choices.Present? && ScanStop(st.choices.value, input) < |st.choices.value|
      && !st.choices.value[ScanStop(st.choices.value, input)].stringEquals.Present?
      ==> r == Panics(NotAString("StringEquals"))
    ensures st.choices.Present? ==>
      forall i :: 0 <= i < |st.choices.value|
        && Matches(st.choices.value[i], input)
        && (forall j :: 0 <= j < i ==> Mismatch(st.choices.value[j], input))
        ==> r == (if st.choices.value[i].next.Present?
                  then Goto(st.choices.value[i].next.value)
                  else Panics(NotAString("Next")))
  {
    match st.choices
    case Present(rules) =>
      var k := ScanStop(rules, input);
      if k == |rules| then Goto("")
      else if !rules[k].stringEquals.Present? then Panics(NotAString("StringEquals"))
      else if rules[k].next.Present? then Goto(rules[k].next.value)
      else Panics(NotAString("Next"))
    case _ => Fails(NotObjOrArray)
  }

  /** Once a rule matches, the rules after it make no difference, matching or not. */
  lemma ChoiceIgnoresLaterRules(st: StateDef, input: Bytes, i: nat, later: seq<ChoiceRule>)
    requires st.choices.Present? && i < |st.choices.value|
    requires Matches(st.choices.value[i], input)
    requires forall j :: 0 <= j < i ==> Mismatch(st.choices.value[j], input)
    ensures Choice(st.(choices := Present(st.choices.value[..i + 1] + later)), input) == Choice(st, input)
  {
    var rules' := st.choices.value[..i + 1] + later;
    assert rules'[i] == st.choices.value[i];
    forall j | 0 <= j < i ensures Mismatch(rules'[j], input) {
      assert rules'[j] == st.choices.value[j];
    }
  }

  /**
    The loop of Choice as the source writes it: walk the rules in order,
    remember the first match's `Next` and stop there.
  */
  method ChooseNext(st: StateDef, input: Bytes) returns (r: Resolve)
    ensures r == Choice(st, input)
  {
    if !st.choices.Present? {
      return Fails(NotObjOrArray);
    }
    var children := st.choices.value;
    var wasFound := false;
    var nextFunc := "";
    var i := 0;
    while i < |children|
      invariant i <= |children|
      invariant forall j :: 0 <= j < i ==> Mismatch(children[j], input)
      invariant !wasFound
    {
      var child := children[i];
      if !child.stringEquals.Present? {
        return Panics(NotAString("StringEquals"));
      }
      if input == child.stringEquals.value {
        if !child.next.Present? {
          return Panics(NotAString("Next"));
        }
        nextFunc, wasFound := child.next.value, true;
        break;
      }
      i := i + 1;
    }
    if wasFound {
      r := Goto(nextFunc);
    } else {
      r := Goto("");
    }
  }

  /**
    Task: the empty name when `End` is present, whatever its value and
    whatever `Next` says; otherwise `Next`, or a panic when `Next` is not a
    string; otherwise a format error.
  */
  function Task(st: StateDef): (r: Resolve)
    ensures r.Fails? <==> !st.hasEnd && st.next.Absent?
    ensures r.Fails? ==> r.err == WrongFormat
    ensures r.Goto? <==> st.hasEnd || st.next.Present?
    ensures r.Goto? ==> r.name == (if st.hasEnd then "" else st.next.value)
    ensures r.Panics? <==> !st.hasEnd && st.next.Malformed?
    ensures r.Panics? ==> r.cause == NotAString("Next")
  {
    if st.hasEnd then Goto("")
    else if st.next.Exists() then
      (if st.next.Present? then Goto(st.next.value) else Panics(NotAString("Next")))
    else Fails(WrongFormat)
  }

  /** With `End` present, `Next` is never consulted. */
  lemma TaskEndWins(st: StateDef, next: Field<string>)
    requires st.hasEnd
    ensures Task(st.(next := next)) == Task(st) == Goto("")
  {
  }
}
