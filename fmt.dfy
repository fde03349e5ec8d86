/**
 * The few parts of Go's fmt package that the renderer relies on: the state a `Format`
 * method is called with, the writer behind it, and `%q` quoting.
 */
module Fmt {
  import opened Wrappers

  /** What `Format` consults of fmt.State: the `+` flag and the width, if one was given. */
  datatype State = State(plus: bool, width: Option<int>)

  /** The output behind an fmt.State: everything written to it so far. */
  class Writer {
    var written: string

    constructor ()
      ensures written == ""
    {
      written := "";
    }

    method WriteString(s: string)
      modifies this
      ensures written == old(written) + s
    {
      written := written + s;
    }
  }

  /**
   * Regrouping a concatenation of three strings. It models nothing in the source: it is a
   * step the proofs of the renderer hand to the solver, which is slow to find it alone.
   */
  lemma AppendAssoc(a: string, b: string, c: string)
    ensures a + b + c == a + (b + c)
  {
  }

  /** Characters that `%q` writes as a backslash escape. */
  predicate NeedsEscape(c: char) {
    c == '"' || c == '\\' || c == '\n' || c == '\t' || c == '\r'
  }

  function Escape(c: char): (r: string)
    ensures NeedsEscape(c) ==> |r| == 2 && r[0] == '\\'
    ensures !NeedsEscape(c) ==> r == [c]
  {
    match c
    case '"' => "\\\""
    case '\\' => "\\\\"
    case '\n' => "\\n"
    case '\t' => "\\t"
    case '\r' => "\\r"
    case _ => [c]
  }

  function EscapeAll(s: string): (r: string)
    ensures |r| >= |s|
  {
    if s == [] then "" else Escape(s[0]) + EscapeAll(s[1..])
  }

  /** `%q` of a string: double-quoted, with quotes, backslashes, `\n`, `\t` and `\r` escaped. */
  function Quote(s: string): (r: string)
    ensures |r| >= |s| + 2 && r[0] == '"' && r[|r| - 1] == '"'
  {
    "\"" + EscapeAll(s) + "\""
  }

  /**
   * Printable ASCII other than the quote and the backslash: the characters `%q` writes as
   * they are. This is the set on which the stand-in above agrees with strconv.Quote.
   */
  predicate Verbatim(c: char) {
    ' ' <= c <= '~' && c != '"' && c != '\\'
  }

  /** A string of printable ASCII with no quote or backslash is quoted verbatim. */
  lemma {:induction false} QuoteVerbatim(s: string)
    requires forall i :: 0 <= i < |s| ==> Verbatim(s[i])
    ensures Quote(s) == "\"" + s + "\""
  {
    EscapeAllVerbatim(s);
  }

  lemma {:induction false} EscapeAllVerbatim(s: string)
    requires forall i :: 0 <= i < |s| ==> Verbatim(s[i])
    ensures EscapeAll(s) == s
  {
    if s != [] {
      EscapeAllVerbatim(s[1..]);
    }
  }
}
