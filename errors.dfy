/**
 * The error chain of errors.go: one immutable node type, `withStack`, that pairs an inner
 * error with a stack snapshot and an optional annotation; the five constructors; one-step
 * unwrapping; the package-level `Cause` search; and the `Format` renderer for `%s`, `%v`,
 * `%+v` and `%q`.
 */
module Errors {
  import opened Wrappers
  import opened Stack
  import opened Fmt

  /**
   * An error value that is not `nil`.
   *  - `Plain`: an error with neither `Unwrap` nor `Format`, as made by the standard
   *    `errors.New` or `fmt.Errorf` without `%w` (for instance `io.EOF`).
   *  - `FmtWrap`: the value `fmt.Errorf` builds for a format holding `%w`: its text is the
   *    formatted text and its `Unwrap` yields the wrapped error.
   *  - `WS`: a `withStack` node; `inner` is its embedded `error`.
   */
  datatype Err =
    | Plain(text: string)
    | FmtWrap(text: string, wrapped: Err)
    | WS(inner: Err, stack: Stack, msg: string)
  {
    /** Length of the longest path to a leaf: the measure the chain walks decrease. */
    function Depth(): nat {
      match this
      case Plain(_) => 0
      case FmtWrap(_, w) => w.Depth() + 1
      case WS(inner, _, _) => inner.Depth() + 1
    }

    /** The error itself, or, below a `withStack` node, the first embedded error that is not one. */
    function Base(): (r: Err)
      ensures !r.WS? && r.Depth() <= Depth()
    {
      if WS? then inner.Base() else this
    }

    /**
     * `Error()`. `withStack` has no `Error` method of its own: the one of its embedded error
     * is promoted, so any run of `withStack` nodes reports the text of the error below them.
     */
    function Error(): (r: string)
      ensures r == Base().text
    {
      match this
      case Plain(t) => t
      case FmtWrap(t, _) => t
      case WS(inner, _, _) => inner.Error()
    }

    /**
     * The value's own `Unwrap` method, as `errors.Unwrap` sees it. A `withStack` node
     * unwraps its inner error, so it adds no unwrap step of its own.
     */
    function Unwrap(): (r: Option<Err>)
      ensures r.Some? ==> r.value.Depth() < Depth()
      ensures WS? ==> r == inner.Unwrap()
      ensures Plain? ==> r == None
    {
      match this
      case Plain(_) => None
      case FmtWrap(_, w) => Some(w)
      case WS(inner, _, _) => inner.Unwrap()
    }

    /** `withStack.Cause`: the same step as `Unwrap`. */
    function Cause(): (r: Option<Err>)
      requires WS?
      ensures r == Unwrap()
    {
      inner.Unwrap()
    }
  }

  /** The standard `errors.Unwrap`: `nil` for `nil`, otherwise the value's own step. */
  function Unwrap(err: Option<Err>): (r: Option<Err>)
    ensures r.Some? ==> err.Some? && r.value.Depth() < err.value.Depth()
    ensures err.None? ==> r.None?
  {
    match err
    case None => None
    case Some(e) => e.Unwrap()
  }

  // ---------------------------------------------------------------------------------------
  // Constructors. `stack` is the snapshot `callers()` takes at the call site.

  /** `New(message)`: a stack-annotated plain error whose text is `message`. */
  function New(message: string, stack: Stack): (r: Err)
    ensures r.Error() == message
    ensures r.Unwrap() == None
    ensures r.WS? && r.stack == stack && r.msg == ""
  {
    WS(Plain(message), stack, "")
  }

  /** `Errorf(format, args...)` on the already-interpolated text: the same node as `New`. */
  function Errorf(formatted: string, stack: Stack): (r: Err)
    ensures r == New(formatted, stack)
  {
    WS(Plain(formatted), stack, "")
  }

  /** `WithStack(err)`: `nil` stays `nil`; otherwise the same text and unwrap step plus a stack. */
  function WithStack(err: Option<Err>, stack: Stack): (r: Option<Err>)
    ensures r.None? <==> err.None?
    ensures r.Some? ==> r.value.Error() == err.value.Error()
    ensures Unwrap(r) == Unwrap(err)
    ensures r.Some? ==> r.value.WS? && r.value.stack == stack && r.value.msg == ""
  {
    if err.None? then None else Some(WS(err.value, stack, ""))
  }

  /**
   * `Wrap(err, message)`: `nil` stays `nil`; otherwise the text becomes
   * `message + ": " + err.Error()`, one unwrap step leads back to `err`, and `message`
   * is kept for the de-duplication done by `%+v`.
   */
  function Wrap(err: Option<Err>, message: string, stack: Stack): (r: Option<Err>)
    ensures r.None? <==> err.None?
    ensures r.Some? ==> r.value.Error() == message + ": " + err.value.Error()
    ensures r.Some? ==> Unwrap(r) == err
    ensures r.Some? ==> r.value.WS? && r.value.stack == stack && r.value.msg == message
  {
    if err.None? then None
    else Some(WS(FmtWrap(message + ": " + err.value.Error(), err.value), stack, message))
  }

  /**
   * `Wrapf(err, format, args...)` on the already-interpolated message `msg`: the stored
   * annotation is `msg` without the `": " + err` suffix, so the result is that of `Wrap`.
   */
  function Wrapf(err: Option<Err>, msg: string, stack: Stack): (r: Option<Err>)
    ensures r == Wrap(err, msg, stack)
  {
    if err.None? then None
    else
      var composed := FmtWrap(msg + ": " + err.value.Error(), err.value);
      Some(WS(composed, stack, msg))
  }

  // ---------------------------------------------------------------------------------------
  // The package-level Cause search.

  /**
   * What `Cause(err)` returns: follow `errors.Unwrap` while it yields an error; on the last
   * value, a `withStack` node gives its inner error and anything else is returned as is.
   */
  function CauseOf(err: Option<Err>): (r: Option<Err>)
    ensures r.None? <==> err.None?
    ensures Unwrap(r) == None
    decreases if err.Some? then err.value.Depth() else 0
  {
    match Unwrap(err)
    case None => if err.Some? && err.value.WS? then Some(err.value.inner) else err
    case Some(u) => CauseOf(Some(u))
  }

  /** `Cause(err)`: the loop that reassigns `err` until it can no longer be unwrapped. */
  method Cause(err0: Option<Err>) returns (r: Option<Err>)
    ensures r == CauseOf(err0)
  {
    var err := err0;
    while true
      invariant CauseOf(err) == CauseOf(err0)
      decreases if err.Some? then err.value.Depth() else 0
    {
      var unwrap := Unwrap(err);
      if unwrap.None? {
        if err.Some? && err.value.WS? {
          return Some(err.value.inner);
        }
        return err;
      }
      err := unwrap;
    }
  }

  lemma CauseOfNil()
    ensures CauseOf(None) == None
  {
  }

  /** Wrapping adds nothing to what `Cause` finds. */
  lemma CauseOfWrap(e: Err, m: string, s: Stack)
    ensures CauseOf(Wrap(Some(e), m, s)) == CauseOf(Some(e))
  {
  }

  /** The cause of `New(m)` is the plain error with text `m`. */
  lemma CauseOfNew(m: string, s: Stack)
    ensures CauseOf(Some(New(m, s))) == Some(Plain(m))
  {
  }

  /**
   * `Cause` is not idempotent: over `WithStack(New(m))` it stops at the inner `New` node,
   * whose own cause is the plain error.
   */
  lemma CauseNotIdempotent(m: string, s1: Stack, s2: Stack)
    ensures CauseOf(WithStack(Some(New(m, s1)), s2)) == Some(New(m, s1))
    ensures CauseOf(CauseOf(WithStack(Some(New(m, s1)), s2))) == Some(Plain(m))
    ensures CauseOf(CauseOf(WithStack(Some(New(m, s1)), s2))) != CauseOf(WithStack(Some(New(m, s1)), s2))
  {
    assert New(m, s1).Unwrap() == None;
  }

  // ---------------------------------------------------------------------------------------
  // The renderer.

  /**
   * Whether `%+v` of an annotated node prints its annotation `msg` after its cause `c`:
   * when the cause is a `withStack` carrying another annotation, or when the cause's text
   * differs from `msg`.
   */
  predicate ShowsMessage(c: Err, msg: string): (r: bool)
    ensures r ==> msg != ""
    ensures !c.WS? ==> (r <==> msg != "" && c.Error() != msg)
    ensures c.WS? ==> (r <==> msg != "" && (c.msg != msg || c.Error() != msg))
  {
    (c.WS? && msg != "" && c.msg != msg) || (msg != "" && c.Error() != msg)
  }

  /** Whether `r` ends with `suffix`. */
  predicate EndsWith(r: string, suffix: string) {
    |suffix| <= |r| && r[|r| - |suffix|..] == suffix
  }

  /**
   * The text `%+v` produces for `e`. Errors other than `withStack` have no `Format` method,
   * so fmt prints their `Error()`. `wide` is "a width greater than zero was given", which
   * only an unannotated node consults.
   */
  function Extended(e: Err, wide: bool): (r: string)
    ensures !e.WS? ==> r == e.Error()
    ensures e.WS? ==> EndsWith(r, RenderStack(e.stack))
    decreases e.Depth()
  {
    match e
    case Plain(t) => t
    case FmtWrap(t, _) => t
    case WS(inner, stack, msg) =>
      var body :=
        if msg == "" then (if wide then "\n" else "") + Extended(inner, false)
        else match e.Cause()
          case Some(c) => Extended(c, false) + (if ShowsMessage(c, msg) then "\n" + msg else "")
          case None => Extended(inner, false);
      body + RenderStack(stack)
  }

  /**
   * The text `withStack.Format` writes for `verb` under state `s`: under `%+v` a report that
   * closes with the node's own stack, under `%s` and plain `%v` the error text and no stack,
   * under `%q` that text quoted, and nothing for any other verb.
   */
  function Render(w: Err, s: State, verb: char): (r: string)
    requires w.WS?
    ensures verb == 'v' && s.plus ==> EndsWith(r, RenderStack(w.stack))
    ensures verb == 's' || (verb == 'v' && !s.plus) ==> r == w.Error()
    ensures verb == 'q' ==> r == Quote(w.Error())
    ensures verb !in {'v', 's', 'q'} ==> r == ""
  {
    if verb == 'v' && s.plus then Extended(w, s.width.Some? && s.width.value > 0)
    else if verb == 'v' || verb == 's' then w.inner.Error()
    else if verb == 'q' then Quote(w.Error())
    else ""
  }

  /** `withStack.Format(s, verb)`: writes the rendering of `w` to the writer behind `s`. */
  method Format(w: Err, s: State, verb: char, out: Writer)
    requires w.WS?
    modifies out
    ensures out.written == old(out.written) + Render(w, s, verb)
    decreases w.Depth(), 0
  {
    if verb == 'v' && s.plus {
      ghost var before := out.written;
      ghost var report;
      if w.msg == "" {
        var br := "";
        if s.width.Some? && s.width.value > 0 {
          br := "\n";
        }
        out.WriteString(br);
        PrintPlusV(w.inner, out);
        report := br + Extended(w.inner, false);
        AppendAssoc(before, br, Extended(w.inner, false));
      } else {
        var cause := w.Cause();
        if cause.Some? {
          PrintPlusV(cause.value, out);
          ghost var line := if ShowsMessage(cause.value, w.msg) then "\n" + w.msg else "";
          if ShowsMessage(cause.value, w.msg) {
            out.WriteString("\n" + w.msg);
          } else {
            assert line == "";
          }
          report := Extended(cause.value, false) + line;
          AppendAssoc(before, Extended(cause.value, false), line);
        } else {
          PrintPlusV(w.inner, out);
          report := Extended(w.inner, false);
        }
      }
      assert out.written == before + report;
      out.WriteString(RenderStack(w.stack));
      AppendAssoc(before, report, RenderStack(w.stack));
      assert Render(w, s, verb) == report + RenderStack(w.stack);
    } else if verb == 'v' || verb == 's' {
      out.WriteString(w.inner.Error());
    } else if verb == 'q' {
      out.WriteString(Quote(w.Error()));
    }
  }

  /**
   * `fmt.Sprintf` with a single verb and a `withStack` operand: a fresh buffer, the
   * operand's `Format` call, and the text it was given.
   */
  method Sprint(w: Err, s: State, verb: char) returns (text: string)
    requires w.WS?
    ensures text == Render(w, s, verb)
  {
    var out := new Writer();
    Format(w, s, verb, out);
    text := out.written;
  }

  /** fmt's `%+v` of an error operand: its `Format` method if it has one, else `Error()`. */
  method PrintPlusV(e: Err, out: Writer)
    modifies out
    ensures out.written == old(out.written) + Extended(e, false)
    decreases e.Depth(), 1
  {
    if e.WS? {
      Format(e, State(true, None), 'v', out);
    } else {
      out.WriteString(e.Error());
    }
  }

  // ---------------------------------------------------------------------------------------
  // Properties of the renderer.

  /** `%+v` with a positive width puts a line break before an unannotated node's report. */
  lemma WidthBreaksLine(w: Err, n: int)
    requires w.WS? && w.msg == "" && n > 0
    ensures Render(w, State(true, Some(n)), 'v') == "\n" + Render(w, State(true, None), 'v')
  {
  }

  /** `%+v` of `New(m)`: the message, then the stack. */
  lemma ExtendedNew(m: string, s: Stack)
    ensures Extended(New(m, s), false) == m + RenderStack(s)
  {
    assert "" + m == m;
  }

  /** An unannotated node prints the report of its inner error, then its own stack. */
  lemma {:induction false} ExtendedWithStack(e: Err, s: Stack)
    ensures Extended(WithStack(Some(e), s).value, false) == Extended(e, false) + RenderStack(s)
  {
    assert "" + Extended(e, false) == Extended(e, false);
  }

  /**
   * An annotated node prints the report of the error it wraps, then its annotation exactly
   * when `ShowsMessage` holds, then its own stack.
   */
  lemma {:induction false} ExtendedWrap(e: Err, m: string, s: Stack)
    requires m != ""
    ensures Extended(Wrap(Some(e), m, s).value, false)
         == Extended(e, false) + (if ShowsMessage(e, m) then "\n" + m else "") + RenderStack(s)
  {
    var w := Wrap(Some(e), m, s).value;
    assert w.Cause() == Some(e);
  }

  /**
   * With an empty annotation `Wrap` renders like `WithStack` over its composed text: the
   * root line is `": " + e.Error()`.
   */
  lemma {:induction false} ExtendedWrapEmpty(e: Err, s: Stack)
    ensures Extended(Wrap(Some(e), "", s).value, false) == ": " + e.Error() + RenderStack(s)
  {
  }

  /**
   * Errors the library can produce: a `withStack` node is unannotated over such an error,
   * or annotated over the composed text of `Wrap`. Anything else counts as foreign.
   */
  predicate Made(e: Err)
    decreases e
  {
    match e
    case Plain(_) => true
    case FmtWrap(_, _) => true
    case WS(inner, _, msg) =>
      if msg == "" then Made(inner)
      else inner.FmtWrap? && inner.text == msg + ": " + inner.wrapped.Error() && Made(inner.wrapped)
  }

  /** The constructors produce only `Made` errors from `Made` errors. */
  lemma ConstructorsMade(e: Err, m: string, s: Stack)
    requires Made(e)
    ensures Made(New(m, s))
    ensures Made(WithStack(Some(e), s).value)
    ensures Made(Wrap(Some(e), m, s).value)
  {
  }

  /**
   * Over an error the library made, an annotation is left out only when the cause is a
   * foreign error whose text equals it: a library-made cause never suppresses it.
   */
  lemma {:induction false} SuppressedOnlyAfterForeign(c: Err, m: string)
    requires Made(c) && m != ""
    ensures !ShowsMessage(c, m) <==> !c.WS? && c.Error() == m
  {
    if c.WS? && c.msg == m {
      assert c.Error() == c.inner.text;
      assert |c.Error()| > |m|;
    }
  }

  /** `Wrap(goerrors.New(m), m)` prints `m` once: the annotation repeats the root line. */
  lemma WrapSameTextOnce(m: string, s: Stack)
    requires m != ""
    ensures Extended(Wrap(Some(Plain(m)), m, s).value, false) == m + RenderStack(s)
  {
    ExtendedWrap(Plain(m), m, s);
  }

  /**
   * `Wrap(Wrap(x, m), m)` prints `m` again after the inner report: the cause's text is
   * `m + ": " + x.Error()`, never `m`.
   */
  lemma {:induction false} DoubleWrapRepeats(x: Err, m: string, s1: Stack, s2: Stack)
    requires m != ""
    ensures Extended(Wrap(Wrap(Some(x), m, s1), m, s2).value, false)
         == Extended(Wrap(Some(x), m, s1).value, false) + "\n" + m + RenderStack(s2)
  {
    var inner := Wrap(Some(x), m, s1).value;
    assert |inner.Error()| > |m|;
    assert ShowsMessage(inner, m);
    ExtendedWrap(inner, m, s2);
  }
}
