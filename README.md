# objenious/errors: the error chain, modelled in Dafny

This project models the core of the Go package `github.com/objenious/errors` (errors.go). The
package attaches a call-stack snapshot, and optionally a message, to an existing error without
losing that error. It then renders the resulting chain for `%s`, `%v`, `%+v` and `%q`.

- `wrappers.dfy`: `Option`. `None` stands for Go's `nil` error.
- `errors.dfy` (module `Errors`): the core.
  - An error value is the datatype `Err`. `Plain` is an error with neither `Unwrap` nor `Format`, such as `io.EOF` or the result of the standard `errors.New`. `FmtWrap` is what `fmt.Errorf` builds for a format with `%w`. `WS` is a `withStack` node: inner error, stack snapshot and annotation `msg`.
  - The five constructors `New`, `Errorf`, `WithStack`, `Wrap` and `Wrapf`.
  - One-step unwrapping: the value's own `Unwrap` and `withStack.Cause` methods, and the standard `errors.Unwrap`.
  - The package-level `Cause` search. It is a `while` loop proved against the function `CauseOf`.
  - `withStack.Format`. It is a method that writes into a `Fmt.Writer` and recurses through fmt's `%+v` of an error (`PrintPlusV`). It is proved to write exactly `Render(w, s, verb)`, and `Extended` is the text of `%+v`.
- `chains.dfy` (module `Chains`): chains built by constructor calls over a foreign root error. It proves two things:
  - `ExtendedReport`: `%+v` prints the root's text first, then for each layer, from the innermost out, its annotation line and its stack.
  - `CauseOfBuild`: exactly which value the `Cause` search returns.
- `scenarios.dfy` (module `Scenarios`): the expectations of format_test.go as lemmas. They hold for any stack snapshots.
- `stack.dfy` and `fmt.dfy`: stand-ins for the parts of the runtime and of `fmt` that the core calls.
  - A stack is an opaque sequence of frames. Each frame renders as `"\n" + function + "\n\t" + file + ":" + line`, as the expected output in format_test.go shows. stack.go is not part of this model.
  - `fmt.State` is reduced to the `+` flag and the width.
  - `%q` quoting escapes quotes, backslashes, `\n`, `\t` and `\r`.

Where the code departs from its own documentation, or from what a reader would expect, the model follows the code. Only the second point contradicts a comment in errors.go (errors.go:34-36); the other three are simply what the code does:

- **The `Cause` special case.** `Cause` returns the inner error of the last value it reaches whenever that value is a `withStack`, after any number of unwrap steps. For example, `Cause(Wrap(WithStack(x), m))` is `x` when `x` is plain.
- **`Cause` is not idempotent.** `Cause(WithStack(New(m)))` is the `New(m)` node, and `Cause` of that is the plain error.
- **De-duplication.** `%+v` of `Wrap(Wrap(x, "m"), "m")` prints `m` as a line of its own again after the inner report: the cause's text is `"m: ..."`, never `"m"`. In a chain whose annotations are all non-empty, the only annotation `%+v` leaves out is one that repeats the text of a foreign (non-`withStack`) cause, as in `Wrap(goerrors.New("m"), "m")`. `Wrap(e, "")` is different: it takes the unannotated branch and prints its composed text `": " + e.Error()` as the root line, so nothing of the report of `e` appears (`Errors.ExtendedWrapEmpty`).
- **`Wrap(New("error"), "error2")`.** Under `%+v` it prints an `error2` line, because its cause is a `withStack` whose annotation is empty.

## Model

| member | source | states |
|---|---|---|
| Errors.Err.Unwrap | errors.go:131-134 | a node's unwrap step is its inner error's step (a `withStack` adds none); a plain error has none; any result is strictly smaller, so chain walks terminate |
| Errors.Err.Cause | errors.go:136-139 | `withStack.Cause` is the same step as `Unwrap` |
| Errors.Unwrap | errors.go:132-134 | `errors.Unwrap` maps `nil` to `nil` and otherwise yields a strictly smaller error, if any |
| Errors.New | errors.go:91-99 | the text is `message`, there is no unwrap step, and the node carries the captured stack and no annotation |
| Errors.Errorf | errors.go:101-110 | with the message already interpolated, the result is the node `New` builds |
| Errors.WithStack | errors.go:112-123 | `nil` in, `nil` out; otherwise the text and the unwrap step are those of `err`, and the node carries the stack and no annotation |
| Errors.Wrap | errors.go:175-188 | `nil` in, `nil` out; otherwise the text is `message + ": " + err.Error()`, one unwrap step gives back `err`, and the node keeps `message` and the stack |
| Errors.Wrapf | errors.go:190-205 | with the message already interpolated, the result equals `Wrap`'s; the stored annotation is the message without the `": " + err` suffix |
| Errors.CauseOf | errors.go:207-229 | `nil` exactly for `nil`; the result can never be unwrapped further |
| Errors.Cause | errors.go:218-229 | the loop returns exactly `CauseOf(err)`; it terminates because each step moves to a smaller error |
| Errors.CauseOfNil | errors.go:215-217 | `Cause(nil)` is `nil` |
| Errors.CauseOfWrap | errors.go:178-229 | `Cause(Wrap(e, m)) == Cause(e)`: an annotation is transparent to the search |
| Errors.CauseOfNew | errors.go:218-225 | the cause of `New(m)` is the plain error with text `m` |
| Errors.CauseNotIdempotent | errors.go:218-229 | `Cause(WithStack(New(m)))` is the `New(m)` node, whose cause is the plain error, so `Cause(Cause(x)) != Cause(x)` there |
| Errors.Format | errors.go:141-173 | writes to the state's writer exactly `Render(w, s, verb)`: `%+v` gives the extended report, `%s` and `%v` the text, `%q` the quoted text, any other verb nothing |
| Errors.Sprint | format_test.go:254-256 | `fmt.Sprintf` of one verb over a `withStack` operand returns exactly `Render` of it: a fresh buffer and one `Format` call |
| Errors.PrintPlusV | errors.go:151-161 | fmt's `%+v` of an error operand writes the `withStack` report when the operand is a `withStack`, and its `Error()` text otherwise |
| Errors.Err.Error | errors.go:125-129 | `withStack` promotes the `Error` of its embedded error, so a node's text is that of the first error below it that is not a `withStack` |
| Errors.ShowsMessage | errors.go:156-158 | the de-duplication condition, read with Go's `&&` binding tighter than its or-operator: an empty annotation is never printed; over a foreign cause the annotation is printed exactly when it differs from the cause's text; over a `withStack` cause, when it differs from the cause's annotation or from its text |
| Errors.Extended | errors.go:144-165 | `%+v` of an error without a `Format` method is its `Error()` text; the report of a `withStack` node always closes with that node's own stack |
| Errors.Render | errors.go:142-172 | verb dispatch: `%+v` gives a report closing with the node's stack, `%s` and plain `%v` print `Error()` with no stack, `%q` prints it quoted, and any other verb prints nothing |
| Errors.WidthBreaksLine | errors.go:146-151 | under `%+v` with a width greater than zero, an unannotated node's report starts with a line break |
| Errors.ExtendedNew | errors.go:146-151 | `%+v` of `New(m)` is `m` followed by its stack |
| Errors.ExtendedWithStack | errors.go:146-151 | `%+v` of an unannotated node is the report of its inner error followed by its own stack |
| Errors.ExtendedWrap | errors.go:152-164 | `%+v` of `Wrap(e, m)` is the report of `e`, then `"\n" + m` exactly when the de-duplication condition holds, then its own stack |
| Errors.ExtendedWrapEmpty | errors.go:146-151 | `Wrap(e, "")` renders with its composed text `": " + e.Error()` as the root line |
| Errors.ConstructorsMade | errors.go:93-205 | the constructors build library-shaped nodes only: annotated nodes hold the composed `Wrap` text |
| Errors.SuppressedOnlyAfterForeign | errors.go:156-158 | over a library-built cause, the annotation is left out if and only if the cause is not a `withStack` and its text equals the annotation |
| Errors.WrapSameTextOnce | errors.go:156-158 | `Wrap(goerrors.New(m), m)` prints `m` once, followed by its stack |
| Errors.DoubleWrapRepeats | errors.go:156-158 | `Wrap(Wrap(x, m), m)` prints the inner report and then `"\n" + m` again |
| Chains.Apply | errors.go:114-188 | one `WithStack` or `Wrap` call on an error yields a `withStack` node carrying that call's stack |
| Chains.Build | errors.go:93-205 | a non-empty sequence of constructor calls yields a `withStack` node |
| Chains.BuildMade | errors.go:93-205 | every chain built over a foreign root is library-shaped |
| Chains.ExtendedReport | errors.go:142-164 | `%+v` of a built chain is the root's text, then per layer from the innermost out its annotation line (left out only for the innermost one when it repeats the root's text) and its stack |
| Chains.StackedReport | errors.go:146-151 | k unannotated layers over a root print the root's text followed by the k stacks in order |
| Chains.BuildUnwrap | errors.go:132-134 | a built chain cannot be unwrapped exactly when it has no annotated layer and a plain root |
| Chains.CauseOfBuild | errors.go:218-229 | `Cause` of a built chain is `ExpectedCause`. Over a plain root that is the root, unless the innermost k > 0 layers are unannotated: then it is the chain of the first k - 1 layers. Over a `%w` root the search continues into the wrapped error |
| Stack.Decimal | format_test.go:26-30 | a line number is printed as a non-empty string of decimal digits |
| Stack.DecimalRoundTrip | format_test.go:26-30 | reading the printed digits back gives the line number |
| Stack.RenderStack | format_test.go:26-30 | a snapshot renders to the empty string exactly when it has no frames |
| Stack.RenderStackAppend | format_test.go:242-246 | the rendering of two snapshots one after the other is the concatenation of their renderings |
| Fmt.Quote | errors.go:170-171 | `%q` output is wrapped in double quotes and is at least two characters longer than its input |
| Fmt.QuoteVerbatim | format_test.go:109-112 | a string of printable ASCII with no quote or backslash is quoted verbatim |
| Fmt.Writer.WriteString | errors.go:169 | a write appends its text to what was written before |
| Scenarios.FormatNew | format_test.go:12-35 | `New(m)` prints `m` under `%s` and `%v`, `m` and its stack under `%+v`, and `m` in double quotes under `%q` when `m` is printable ASCII with no quote or backslash (the test uses `m = "error"`) |
| Scenarios.FormatErrorf | format_test.go:42-61 | `Errorf` of an interpolated text prints like `New` of that text |
| Scenarios.FormatWrapNew | format_test.go:73-86 | `Wrap(New(root), m)` prints `m + ": " + root`; under `%+v` it prints `root`, the inner stack, the line `m` and its own stack |
| Scenarios.FormatWrapForeign | format_test.go:87-101 | `Wrap(io.EOF, "error")` and any foreign root whose text differs from the message: the composed text, and under `%+v` the root line, then the message line, then the stack |
| Scenarios.FormatWrapTwice | format_test.go:102-108 | two annotations over a foreign root: under `%+v` the root, then the first annotation and its stack, then the second and its stack |
| Scenarios.FormatWrapQuoted | format_test.go:109-112 | `%q` of `Wrap(New(m), c)` is the double-quoted `c + ": " + m` when that text is printable ASCII with no quote or backslash |
| Scenarios.FormatWrapf | format_test.go:125-139 | `Wrapf(io.EOF, "error%d", 2)`, with the message already interpolated, prints like `Wrap` |
| Scenarios.FormatWithStack | format_test.go:166-195 | `WithStack` over a foreign root prints its text, and under `%+v` the text and one stack; `WithStack(New(root))` prints `root` followed by two stacks |
| Scenarios.TwoStacks | format_test.go:196-203 | two stack annotations over any error print its report followed by the two stacks |
| Scenarios.FormatWithStackWrapf | format_test.go:204-214 | `WithStack(WithStack(Wrapf(io.EOF, "message")))` prints `EOF`, then `message`, then three stacks |
| Scenarios.FormatWrappedNew | format_test.go:230-247 | `New` called from a helper prints the message, then the helper's frame block, then its caller's |

## Left out

- Stack capture (`callers()`) and symbol and line resolution are runtime calls made in stack.go. The `StackTrace` accessor is a method of `*stack` defined there. stack.go is not part of this model: each constructor receives its snapshot as a parameter.
- Format-string interpolation in `Errorf` and `Wrapf` (`fmt.Errorf`, `fmt.Sprintf`) is left out. Both take the already-formatted message. A `%w` inside the user's format and a format whose verbs do not match its arguments are not modelled.
- Fmt.Quote: only `"`, `\`, `\n`, `\t` and `\r` are escaped. Go's `strconv.Quote` also escapes `\a`, `\b`, `\f`, `\v`, the other control characters, DEL, non-printable Unicode and invalid UTF-8. Those cases are not modelled, and every lemma about `%q` output (`Fmt.QuoteVerbatim`, `Scenarios.FormatNew`, `Scenarios.FormatWrapQuoted`) is restricted to printable ASCII.
- `fmt.State` is reduced to the `+` flag and an optional width. Other flags (`#`, `-`, ` `, `0`) and the precision are left out.
- Foreign error types that have their own `Format` method, or an `Unwrap` other than the one of `fmt.Errorf` with `%w`, are not modelled. Neither are Go 1.20 multi-error `Unwrap() []error` values.
- The pointer identity of `&withStack{...}` is not modelled: errors are compared as values, so two nodes built from equal parts are equal.
- The model has no depth cap with a truncation marker for very long chains, because the code has none.
- Chains.ExtendedReport and Chains.StackedReport: these theorems cover chains built by the constructors over a foreign root, with non-empty annotations. `Wrap` with an empty message is covered separately by `Errors.ExtendedWrapEmpty`.
