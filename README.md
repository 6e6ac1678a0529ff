# Workflow interpreter of faas-cli, modelled in Dafny

The model covers the small state-machine interpreter in `func_controllers/`. A JSON definition names a
`StartFunction` and a map of `States`. Each state has a `Type` (`Task`, `Choice`, `Fail` or any other
string) and optional `Next`, `End`, `ResultPath`, `Catch` and `Choices` fields. `InitState` walks the
states one at a time:

- a `Fail` state stops the run with a nil error;
- any other state invokes the deployed function of the same name, with the previous response as payload
  when `ResultPath` is present and the original input otherwise;
- each error text or non-nil response is written to standard output;
- the next state comes from `Catch` (after a failed invocation), `Choice` or `Task`.

Files and modules:

- `wrappers.dfy` (`Wrappers`): `Option`, for Go's nil pointers and nil errors.
- `definition.dfy` (`Definition`): the decoded document. `Field<T>` records what a field lookup in the
  JSON tree finds: absent, present with the wrong JSON type (a run-time type assertion would panic), or
  present and usable. It also holds the Go errors and panic causes.
- `process.dfy` (`Process`): the three resolvers. `Catch` and `Task` are functions. `Choice` is a
  first-match function over `ScanStop`. `ChooseNext` is the source's loop, proved equal to `Choice`.
- `controller.dfy` (`Controller`): `Trim` (`strings.Trim(_, "\n")`), one iteration as the function
  `Step`, at most `fuel` iterations as `Run`, a whole run as `Execute`, and the imperative
  `InitState`. `InitState` reads `StartFunction` and `States` and hands over to `RunLoop`, a while loop
  over the source's locals (`nextFunc`, `response`, `count`) plus an output log and a call log.
  `InitState` is proved equal to `Execute` and `RunLoop` to `Run`. The body of one pass of the loop is
  the method `Iterate`, proved equal to `Step`. `Pass` runs it and says what it adds to the logs.
- `properties.dfy` (`Properties`): what one iteration and a whole run promise.
- `scenarios.dfy` (`Scenarios`): whole runs of small definitions.

The function invoker (`proxy.InvokeFunction`) is a parameter, `invoke: (nat, Call) -> Reply`. It receives
the iteration count as well as the call, so the same call may get different answers at different
times. A `Reply` is Go's pair of a possibly nil response and a possibly nil error. A Go panic is the
outcome `Panicked(cause)`. Reaching the iteration bound is the separate outcome `OutOfFuel`.

Behaviours of the code worth knowing:

- A Choice state with no matching rule does not fail. `Choice` returns the empty name and a nil
  error (process.go:24-38). The loop then looks up the state `""`, which panics unless a state has that
  name.
- The comparison input is trimmed of newlines at both ends (controller.go:24), not only at the end.
- The error text of a failed invocation is written to standard output too (controller.go:54). A
  successful invocation writes its response only when the response is not nil (controller.go:65-67).
- A Task whose `Next` is the empty string ends the run like `End` does (controller.go:80-82).
- A state whose `Type` is none of the three known strings is invoked again and again
  (controller.go:69-85).
- A `StartFunction` that is not in `States` is not caught when the definition is loaded. The first
  iteration panics on it.
- After a failed invocation the carried response is that call's own response, usually nil, because
  both results are assigned at once (controller.go:48,51). A later state with `ResultPath` receives it.

## Model

| member | source | states |
|---|---|---|
| Process.Catch | func_controllers/process.go:8-17 | yields the `Next` of element 0 exactly when the list is readable, non-empty and that `Next` is a string; returns the children error exactly when `Catch` is not readable as a list; otherwise panics, on an empty list with an index error and on a `Next` of element 0 that is not a string with a type-assertion error |
| Process.CatchIgnoresLaterRules | func_controllers/process.go:13-15 | rules after element 0 never change Catch's result |
| Process.ScanStop | func_controllers/process.go:27-33 | the scan stops at the first rule that is not a string different from the input: every earlier rule is a mismatch, the stopping rule is not |
| Process.Choice | func_controllers/process.go:19-39 | an error exactly when `Choices` is not a readable list; the empty name when every rule is a mismatch; a panic when the scan stops at a rule whose `StringEquals` is not a string; otherwise the `Next` of the first rule whose `StringEquals` equals the input, or a panic when that `Next` is not a string |
| Process.ChoiceIgnoresLaterRules | func_controllers/process.go:27-33 | after the first matching rule, later rules, matching or not, make no difference |
| Process.ChooseNext | func_controllers/process.go:19-39 | the source's loop with `wasFound` and `break` computes exactly `Choice` |
| Process.Task | func_controllers/process.go:41-55 | a format error exactly when both `End` and `Next` are absent; a name exactly when `End` is present or `Next` is a string, and that name is empty when `End` is present and is `Next` otherwise; a panic exactly when `End` is absent and `Next` is present but not a string |
| Process.TaskEndWins | func_controllers/process.go:45-47 | with `End` present, whatever `Next` holds, Task yields the empty name |
| Controller.Trim | func_controllers/controller.go:23-24 | the result is a slice of the input with only newlines before and after it, and does not begin or end with a newline |
| Controller.Payload | func_controllers/controller.go:46-52 | with `ResultPath` the call receives the carried response, without it the original input; the payload is nil only when `ResultPath` is present and the carried response is nil |
| Controller.Emitted | func_controllers/controller.go:53-67 | a call's reply writes at most one text: the error text when there is an error, even if a response came too; otherwise the response; nothing exactly when both are nil |
| Controller.Step | func_controllers/controller.go:37-85 | one iteration makes at most one call; an iteration that halts ends with one of the source's outcomes, never the iteration bound; an iteration that goes on has made its call and counts one more |
| Controller.Run | func_controllers/controller.go:35-86 | a run makes at most one call per iteration, and exactly one per iteration when it reaches the iteration bound |
| Controller.StepShape | func_controllers/controller.go:41-67 | an iteration makes at most one call; it calls only when the state is defined, typed and not Fail; the call uses the state's name, the payload `ResultPath` selects and the run's arguments; the iteration writes exactly what that reply emits; an iteration that continues increments the count and carries the reply's response |
| Controller.RunInvokesStates | func_controllers/controller.go:41-52 | every call of a whole run is of a defined, typed, non-Fail state and carries the run's own arguments |
| Controller.Execute | func_controllers/controller.go:15-88 | a `StartFunction` that is not a string panics before any call; a `States` that is not an object is returned as an error before any call; a run makes at most `fuel` calls; the first call is of the start state with the original input; every call is of a defined, typed, non-Fail state and carries the run's own arguments |
| Controller.Iterate | func_controllers/controller.go:37-85 | one pass of the loop body as written computes exactly `Step` |
| Controller.RunLoop | func_controllers/controller.go:32-86 | the loop over `nextFunc`, `response` and `count`, started at the start state with the original input, produces exactly the outcome, output log and calls of `Run` |
| Controller.InitState | func_controllers/controller.go:15-88 | the loop over `nextFunc`, `response` and `count` produces exactly the outcome, output log and calls of `Execute`, and every call carries the run's own arguments |
| Properties.FailStateStops | func_controllers/controller.go:43-45 | reaching a Fail state ends the run with nil, with no call and no output |
| Properties.UnknownStatePanics | func_controllers/controller.go:37-43 | a state name missing from `States` makes the run panic before any call |
| Properties.TypeNotStringPanics | func_controllers/controller.go:43 | a state whose `Type` is not a string makes the run panic on the type assertion, with no call and no output |
| Properties.StepInvokes | func_controllers/controller.go:41-52 | an invokable state is called once, under its own name, with the last response when `ResultPath` is present and the original input when it is absent, and with the run's arguments |
| Properties.InvocationErrorHandling | func_controllers/controller.go:53-62 | after a failed call the error text is written; without `Catch` the invoker's error is returned unchanged; with `Catch` the run continues at Catch's state, or returns "Wrong format json file: catch" when Catch fails; when Catch panics (empty list, `Next` not a string) the run ends in that panic |
| Properties.TaskStepOutcome | func_controllers/controller.go:75-82 | after a successful call of a Task state, Task's error is returned, the empty name ends the run with nil, and any other name is where the run continues; a panic of Task (`Next` not a string) ends the run in that panic |
| Properties.ChoiceFollowsTrimmedInput | func_controllers/controller.go:70-74 | after a successful call of a Choice state, the run continues where `Choice` sends the trimmed original input, and a Choice error becomes a panic; a panic of Choice itself (`StringEquals` or `Next` not a string) ends the run in that panic |
| Properties.ChoiceIgnoresResponse | func_controllers/controller.go:70-71 | two iterations at a Choice state that differ only in the carried response end the same way at the same next state |
| Properties.ChoiceNoMatchPanicsNext | func_controllers/process.go:24-38 | when no rule matches, the run continues at the empty name and then panics on the unknown state `""` |
| Properties.OtherTypeReruns | func_controllers/controller.go:69-85 | after a successful call of a state of any other type, the next state is the same state |
| Properties.RunPayloads | func_controllers/controller.go:34-52 | for every call of a run, the payload is the previous call's response (the carried response for the first call) when the state has `ResultPath`, and the original input when it has not |
| Properties.StepOutput | func_controllers/controller.go:53-67 | what one iteration writes is exactly the output of the call it made, and nothing when it made none |
| Properties.RunOutput | func_controllers/controller.go:53-67 | the output of a run is, call by call in order, the error text of each failed call and the response of each successful call whose response is not nil, and nothing else |
| Properties.RunFuelMonotone | func_controllers/controller.go:35-86 | a run that ended without reaching the bound ends in the same way with any larger bound |
| Properties.TrimIdempotent | func_controllers/controller.go:24 | trimming a trimmed input changes nothing |
| Scenarios.TwoTasksInSequence | func_controllers/controller.go:46-82 | with Task A then Task B, no `ResultPath` and an invoker that never fails, A and then B are called with the original input and the run ends with nil |
| Scenarios.ChoiceTakesMatchingRule | func_controllers/process.go:27-35 | input "no" with a trailing newline matches the second rule and the run continues at N |
| Scenarios.ChoiceWithoutMatch | func_controllers/process.go:24-38 | input "maybe" matches no rule and the run panics looking up `""` after one call |
| Scenarios.CatchRecovers | func_controllers/controller.go:53-59 | a Task whose call fails and whose `Catch` names Recover writes the error text and continues at Recover |

## Left out

- Reading and parsing the definition file (`ioutil.ReadFile`, `gabs.ParseJSON`, controller.go:16-22) is
  left out. The model starts from a decoded `Definition`. A `StartFunction` that is not a string is
  still a panic, and a `States` that is not an object is still a returned error.
- `Children()` of the JSON library also accepts an object and returns its values in map order. The
  model treats every readable `Catch` or `Choices` as an ordered list.
- A state that is missing from `States` is the panic `UnknownState`. Whether Go fails at the lookup or at
  the type assertion on `Type` depends on the JSON library's version. Both are panics.
- A `States` entry whose value is not a JSON object is modelled as a state whose fields are all absent,
  which panics on `Type` in the same way.
- Debug printing to standard output (controller.go:18-19,26-27,36,42,64; process.go:30) is left out.
  Only the writes of error texts and responses are kept, as an ordered log. Errors of those writes are
  ignored by the source and are not modelled.
- `proxy.InvokeFunction` is not part of this model. It does HTTP and is the `invoke` parameter. The
  gateway, content type, query, headers, async flag, HTTP method, TLS flag and namespace are opaque
  values that the model passes through unchanged.
- The Go loop has no bound, and cyclic definitions or states of unknown type run forever.
  `InitState`, `Run` and `Execute` stop after `fuel` iterations with the outcome `OutOfFuel`. A run
  that ends without reaching the bound ends in the same way with any larger bound (`RunFuelMonotone`).
- The error texts are named constructors of `GoError`. Only the invoker's error text, which is written
  to standard output, is kept as bytes.
- The store client in `commands/store.go` and the deployed example functions under
  `func-test/saga/` are outside the interpreter and are not modelled.
