/**
 * Call-stack snapshots and their extended rendering.
 *
 * stack.go (frame capture by `callers()` and `stack.Format`) is not part of this model.
 * A snapshot is an opaque sequence of frames handed to the constructors; its `%+v`
 * rendering follows the text that format_test.go expects: every frame becomes a line with
 * the qualified function name followed by a tab-indented `file:line` line.
 */
module Stack {

  /** One call site: qualified function name, source file path and line number. */
  datatype Frame = Frame(name: string, file: string, line: nat)

  type Stack = seq<Frame>

  predicate IsDigits(s: string) {
    forall i :: 0 <= i < |s| ==> '0' <= s[i] <= '9'
  }

  function DigitChar(d: nat): (c: char)
    requires d < 10
    ensures '0' <= c <= '9' && c as int - '0' as int == d
  {
    ('0' as int + d) as char
  }

  /** The decimal notation of a line number, as `%d` prints it. */
  function Decimal(n: nat): (r: string)
    ensures r != [] && IsDigits(r)
    ensures n < 10 <==> |r| == 1
  {
    if n < 10 then [DigitChar(n)] else Decimal(n / 10) + [DigitChar(n % 10)]
  }

  /** The number a string of decimal digits denotes. */
  function DigitsValue(s: string): nat
    requires IsDigits(s)
  {
    if s == [] then 0 else DigitsValue(s[..|s| - 1]) * 10 + (s[|s| - 1] as int - '0' as int)
  }

  /** Reading back a rendered line number gives the line number. */
  lemma {:induction false} DecimalRoundTrip(n: nat)
    ensures DigitsValue(Decimal(n)) == n
  {
    if n >= 10 {
      var r := Decimal(n);
      assert r[..|r| - 1] == Decimal(n / 10);
      DecimalRoundTrip(n / 10);
    }
  }

  /** `%+v` of one frame, preceded by the line break that separates it from what came before. */
  function RenderFrame(f: Frame): string {
    "\n" + f.name + "\n\t" + f.file + ":" + Decimal(f.line)
  }

  /** `%+v` of a whole snapshot: the frames in capture order, one block after another. */
  function RenderStack(s: Stack): (r: string)
    ensures r == [] <==> s == []
  {
    if s == [] then "" else RenderFrame(s[0]) + RenderStack(s[1..])
  }

  /** Rendering distributes over concatenation of snapshots. */
  lemma {:induction false} RenderStackAppend(a: Stack, b: Stack)
    ensures RenderStack(a + b) == RenderStack(a) + RenderStack(b)
  {
    if a != [] {
      assert (a + b)[1..] == a[1..] + b;
      RenderStackAppend(a[1..], b);
    } else {
      assert a + b == b;
    }
  }
}
