/**
  The workflow definition document, as the interpreter reads it after JSON
  decoding. The interpreter reads fields out of a generic JSON tree: it asks
  whether a field exists, and asserts at run time that a field holds a string
  or can be read as a list of children. Field<T> records the three outcomes
  of such a lookup, so that every check the interpreter makes is a check on
  a value of this module.
*/
module Definition {

  newtype byte = x: int | 0 <= x < 256

  /** Raw bytes, and Go strings compared byte by byte. */
  type Bytes = seq<byte>

  /** A field of a JSON object: not there, there with the wrong JSON type, or there and usable. */
  datatype Field<+T> = Absent | Malformed | Present(value: T) {

    /** The existence test of the JSON library: true whatever the value's type. */
    predicate Exists() {
      !Absent?
    }
  }

  /** One element of a state's `Catch` list; only its `Next` is ever read. */
  datatype CatchRule = CatchRule(next: Field<string>)

  /** One element of a state's `Choices` list. */
  datatype ChoiceRule = ChoiceRule(stringEquals: Field<Bytes>, next: Field<string>)

  /**
    One entry of `States`. `ResultPath` and `End` are read only for their
    presence; `Type`, `Next`, `Catch` and `Choices` also for their value.
  */
  datatype StateDef = StateDef(
    typ: Field<string>,
    hasResultPath: bool,
    catch: Field<seq<CatchRule>>,
    choices: Field<seq<ChoiceRule>>,
    hasEnd: bool,
    next: Field<string>)

  /** The whole document: `StartFunction` and the `States` object keyed by state name. */
  datatype Definition = Definition(start: Field<string>, states: Field<map<string, StateDef>>)

  const FAIL: string := "Fail"
  const CHOICE: string := "Choice"
  const TASK: string := "Task"

  /** Go error values the interpreter can return or panic with. */
  datatype GoError =
    | InvokeError(text: Bytes)  // an error of the function invoker, with its text
    | NotObject                 // `States` is not a JSON object
    | NotObjOrArray             // a `Catch` or `Choices` field has no readable children
    | WrongFormat               // "Wrong format json file": a Task with neither End nor Next
    | WrongFormatCatch          // "Wrong format json file: catch\n"

  /** Why a run panics instead of returning. */
  datatype PanicCause =
    | NotAString(field: string)   // a type assertion `.(string)` on a field that is not a string
    | UnknownState(name: string)  // the state to run is not a key of `States`
    | IndexOutOfRange             // element 0 of an empty `Catch` list
    | Raised(err: GoError)        // an explicit `panic(err)`

  /** What a next-state resolver yields: a state name, a returned error, or a panic. */
  datatype Resolve = Goto(name: string) | Fails(err: GoError) | Panics(cause: PanicCause)
}
