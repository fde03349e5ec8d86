/**
 * The expectations of format_test.go. The tests match stack lines with regular expressions,
 * so the snapshots are arbitrary here; the messages are arbitrary too, and each lemma names
 * the test strings it generalises.
 */
module Scenarios {
  import opened Wrappers
  import opened Stack
  import opened Fmt
  import opened Errors

  const PlusV := State(true, None)
  const NoFlags := State(false, None)

  predicate Unescaped(t: string) {
    forall i :: 0 <= i < |t| ==> Verbatim(t[i])
  }

  /**
   * A line break and a message appended one by one or as one line. Like `Fmt.AppendAssoc`,
   * a proof step for the solver that models nothing in the source.
   */
  lemma AppendLine(a: string, m: string)
    ensures a + ("\n" + m) == a + "\n" + m
  {
  }

  /** TestFormatNew, `New("error")`: the text under `%s` and `%v`, then its stack under `%+v`. */
  lemma FormatNew(m: string, s: Stack)
    ensures Render(New(m, s), NoFlags, 's') == m
    ensures Render(New(m, s), NoFlags, 'v') == m
    ensures Render(New(m, s), PlusV, 'v') == m + RenderStack(s)
    ensures Unescaped(m) ==> Render(New(m, s), NoFlags, 'q') == "\"" + m + "\""
  {
    ExtendedNew(m, s);
    if Unescaped(m) {
      QuoteVerbatim(m);
    }
  }

  /** TestFormatErrorf, `Errorf("%s", "error")`: printed like `New` of the same text. */
  lemma FormatErrorf(m: string, s: Stack)
    ensures Render(Errorf(m, s), NoFlags, 's') == m
    ensures Render(Errorf(m, s), PlusV, 'v') == m + RenderStack(s)
  {
    ExtendedNew(m, s);
  }

  /**
   * TestFormatWrap, `Wrap(New("error"), "error2")`: the composed text; under `%+v` the
   * inner report, then the annotation, then the outer stack.
   */
  lemma FormatWrapNew(root: string, m: string, s1: Stack, s2: Stack)
    requires m != ""
    ensures Render(Wrap(Some(New(root, s1)), m, s2).value, NoFlags, 's') == m + ": " + root
    ensures Render(Wrap(Some(New(root, s1)), m, s2).value, PlusV, 'v')
         == root + RenderStack(s1) + "\n" + m + RenderStack(s2)
  {
    var inner := New(root, s1);
    var outer := Wrap(Some(inner), m, s2).value;
    ExtendedNew(root, s1);
    assert ShowsMessage(inner, m);
    ExtendedWrap(inner, m, s2);
    assert Extended(outer, false) == root + RenderStack(s1) + ("\n" + m) + RenderStack(s2);
    assert Render(outer, PlusV, 'v') == Extended(outer, false);
    AppendLine(root + RenderStack(s1), m);
  }

  /** TestFormatWrap, `Wrap(io.EOF, "error")`: the root line `EOF`, then the annotation. */
  lemma FormatWrapForeign(root: string, m: string, s: Stack)
    requires m != "" && m != root
    ensures Render(Wrap(Some(Plain(root)), m, s).value, NoFlags, 'v') == m + ": " + root
    ensures Render(Wrap(Some(Plain(root)), m, s).value, PlusV, 'v') == root + "\n" + m + RenderStack(s)
  {
    ExtendedWrap(Plain(root), m, s);
  }

  /** TestFormatWrap, `Wrap(Wrap(io.EOF, "error1"), "error2")`: both annotations, in order. */
  lemma FormatWrapTwice(root: string, m1: string, m2: string, s1: Stack, s2: Stack)
    requires m1 != "" && m2 != "" && m1 != root
    ensures Render(Wrap(Wrap(Some(Plain(root)), m1, s1), m2, s2).value, PlusV, 'v')
         == root + "\n" + m1 + RenderStack(s1) + "\n" + m2 + RenderStack(s2)
  {
    var inner := Wrap(Some(Plain(root)), m1, s1).value;
    var outer := Wrap(Some(inner), m2, s2).value;
    ExtendedWrap(Plain(root), m1, s1);
    assert ShowsMessage(Plain(root), m1);
    assert Extended(inner, false) == root + ("\n" + m1) + RenderStack(s1);
    assert inner.Error() == m1 + ": " + root;
    if m1 == m2 {
      assert |inner.Error()| > |m2|;
    }
    assert ShowsMessage(inner, m2);
    ExtendedWrap(inner, m2, s2);
    assert Extended(outer, false) == Extended(inner, false) + ("\n" + m2) + RenderStack(s2);
    assert Render(outer, PlusV, 'v') == Extended(outer, false);
    AppendLine(root, m1);
    AppendLine(root + "\n" + m1 + RenderStack(s1), m2);
  }

  /**
   * TestFormatWrap, `Wrap(New("error with space"), "context")` under `%q`: the whole
   * composed text, double-quoted.
   */
  lemma FormatWrapQuoted(m: string, c: string, s1: Stack, s2: Stack)
    requires Unescaped(c + ": " + m)
    ensures Render(Wrap(Some(New(m, s1)), c, s2).value, NoFlags, 'q') == "\"" + c + ": " + m + "\""
  {
    QuoteVerbatim(c + ": " + m);
  }

  /** TestFormatWrapf, `Wrapf(io.EOF, "error%d", 2)`: the interpolated message acts as in `Wrap`. */
  lemma FormatWrapf(root: string, m: string, s: Stack)
    requires m != "" && m != root
    ensures Render(Wrapf(Some(Plain(root)), m, s).value, NoFlags, 's') == m + ": " + root
    ensures Render(Wrapf(Some(Plain(root)), m, s).value, PlusV, 'v') == root + "\n" + m + RenderStack(s)
  {
    ExtendedWrap(Plain(root), m, s);
  }

  /** TestFormatWithStack, `WithStack(io.EOF)` and `WithStack(New("error"))`: one stack per layer. */
  lemma FormatWithStack(root: string, s1: Stack, s2: Stack)
    ensures Render(WithStack(Some(Plain(root)), s1).value, NoFlags, 's') == root
    ensures Render(WithStack(Some(Plain(root)), s1).value, PlusV, 'v') == root + RenderStack(s1)
    ensures Render(WithStack(Some(New(root, s1)), s2).value, PlusV, 'v')
         == root + RenderStack(s1) + RenderStack(s2)
  {
    ExtendedWithStack(Plain(root), s1);
    ExtendedNew(root, s1);
    ExtendedWithStack(New(root, s1), s2);
  }

  /** Two stack annotations over any error add two stacks after its report. */
  lemma TwoStacks(e: Err, s2: Stack, s3: Stack)
    ensures Extended(WithStack(WithStack(Some(e), s2), s3).value, false)
         == Extended(e, false) + RenderStack(s2) + RenderStack(s3)
  {
    ExtendedWithStack(e, s2);
    ExtendedWithStack(WithStack(Some(e), s2).value, s3);
  }

  /** TestFormatWithStack, `WithStack(WithStack(Wrapf(io.EOF, "message")))`: three stacks. */
  lemma FormatWithStackWrapf(root: string, m: string, s1: Stack, s2: Stack, s3: Stack)
    requires m != "" && m != root
    ensures Render(WithStack(WithStack(Wrapf(Some(Plain(root)), m, s1), s2), s3).value, PlusV, 'v')
         == root + "\n" + m + RenderStack(s1) + RenderStack(s2) + RenderStack(s3)
  {
    var w := Wrapf(Some(Plain(root)), m, s1).value;
    ExtendedWrap(Plain(root), m, s1);
    assert ShowsMessage(Plain(root), m);
    AppendLine(root, m);
    assert Extended(w, false) == root + "\n" + m + RenderStack(s1);
    TwoStacks(w, s2, s3);
  }

  /**
   * TestFormatWrappedNew, `New` called from a helper: a snapshot of two frames prints the
   * helper's frame block and then its caller's, each with its own function and `file:line`.
   */
  lemma FormatWrappedNew(m: string, helper: Frame, caller: Frame)
    ensures Render(New(m, [helper, caller]), PlusV, 'v') == m + RenderFrame(helper) + RenderFrame(caller)
  {
    ExtendedNew(m, [helper, caller]);
    RenderStackAppend([helper], [caller]);
    assert [helper] + [caller] == [helper, caller];
    assert RenderStack([helper]) == RenderFrame(helper);
    assert RenderStack([caller]) == RenderFrame(caller);
  }
}
