/**
 * Chains built by the constructors of errors.go over a foreign root error, and what the
 * renderer and the `Cause` search make of a whole chain.
 */
module Chains {
  import opened Wrappers
  import opened Stack
  import opened Errors

  /**
   * One constructor call on an existing error: `WithStack` (and `New`/`Errorf`, which are
   * `WithStack` over a plain error) or `Wrap`/`Wrapf` with an interpolated message.
   */
  datatype Layer = Stacked(stack: Stack) | Annotated(msg: string, stack: Stack)

  function Apply(e: Err, l: Layer): (r: Err)
    ensures r.WS? && r.stack == l.stack
  {
    match l
    case Stacked(s) => WithStack(Some(e), s).value
    case Annotated(m, s) => Wrap(Some(e), m, s).value
  }

  /** The error left by applying `layers` to `base`, innermost first. */
  function Build(base: Err, layers: seq<Layer>): (r: Err)
    ensures layers != [] ==> r.WS?
    decreases |layers|
  {
    if layers == [] then base
    else Apply(Build(base, layers[..|layers| - 1]), layers[|layers| - 1])
  }

  predicate AnnotationsNonEmpty(layers: seq<Layer>) {
    forall i :: 0 <= i < |layers| ==> layers[i].Annotated? ==> layers[i].msg != ""
  }

  /**
   * The annotation line of layer `i`: every annotation is printed, except that of the
   * innermost layer when it repeats the root's text.
   */
  function MessageLine(base: Err, layers: seq<Layer>, i: nat): string
    requires i < |layers|
  {
    if layers[i].Annotated? && (i > 0 || base.Error() != layers[i].msg) then "\n" + layers[i].msg
    else ""
  }

  /**
   * The expected `%+v` report of a built chain, read off layer by layer: the root's text,
   * then for each layer from the innermost out its annotation line and its stack.
   */
  function Report(base: Err, layers: seq<Layer>): string
    decreases |layers|
  {
    if layers == [] then base.Error()
    else
      var n := |layers| - 1;
      Report(base, layers[..n]) + MessageLine(base, layers, n) + RenderStack(layers[n].stack)
  }

  /** Built chains are made of library nodes only. */
  lemma {:induction false} BuildMade(base: Err, layers: seq<Layer>)
    requires !base.WS?
    ensures Made(Build(base, layers))
    decreases |layers|
  {
    if layers != [] {
      var n := |layers| - 1;
      BuildMade(base, layers[..n]);
      match layers[n]
      case Stacked(st) => ConstructorsMade(Build(base, layers[..n]), "", st);
      case Annotated(m, st) => ConstructorsMade(Build(base, layers[..n]), m, st);
    }
  }

  /**
   * `%+v` of a chain built over a foreign root prints the root's text first, then each
   * layer's annotation line and stack, from the innermost layer out.
   */
  lemma {:induction false} ExtendedReport(base: Err, layers: seq<Layer>)
    requires !base.WS?
    requires AnnotationsNonEmpty(layers)
    ensures Extended(Build(base, layers), false) == Report(base, layers)
    decreases |layers|
  {
    if layers != [] {
      var n := |layers| - 1;
      var prefix := layers[..n];
      assert prefix + [layers[n]] == layers;
      ExtendedReport(base, prefix);
      ReportStep(base, prefix, layers[n]);
    }
  }

  /** One layer more: the report of `Apply` follows from the report of the chain below it. */
  lemma {:induction false} ReportStep(base: Err, prefix: seq<Layer>, l: Layer)
    requires !base.WS?
    requires l.Annotated? ==> l.msg != ""
    requires Extended(Build(base, prefix), false) == Report(base, prefix)
    ensures Extended(Build(base, prefix + [l]), false) == Report(base, prefix + [l])
  {
    match l
    case Stacked(s) => ReportStepStacked(base, prefix, s);
    case Annotated(m, s) => ReportStepAnnotated(base, prefix, m, s);
  }

  lemma {:induction false} ReportStepStacked(base: Err, prefix: seq<Layer>, s: Stack)
    requires !base.WS?
    requires Extended(Build(base, prefix), false) == Report(base, prefix)
    ensures Extended(Build(base, prefix + [Stacked(s)]), false) == Report(base, prefix + [Stacked(s)])
  {
    var layers := prefix + [Stacked(s)];
    assert layers[..|prefix|] == prefix;
    var b := Build(base, prefix);
    assert Build(base, layers) == WS(b, s, "");
    ExtendedWithStack(b, s);
    assert Extended(Build(base, layers), false) == Extended(b, false) + RenderStack(s);
    assert MessageLine(base, layers, |prefix|) == "";
    assert Report(base, layers) == Report(base, prefix) + RenderStack(s) by {
      assert Report(base, prefix) + "" == Report(base, prefix);
    }
  }

  lemma {:induction false} ReportStepAnnotated(base: Err, prefix: seq<Layer>, m: string, s: Stack)
    requires !base.WS? && m != ""
    requires Extended(Build(base, prefix), false) == Report(base, prefix)
    ensures Extended(Build(base, prefix + [Annotated(m, s)]), false) == Report(base, prefix + [Annotated(m, s)])
  {
    var layers := prefix + [Annotated(m, s)];
    assert layers[..|prefix|] == prefix;
    var b := Build(base, prefix);
    ExtendedWrap(b, m, s);
    BuildMade(base, prefix);
    SuppressedOnlyAfterForeign(b, m);
    assert MessageLine(base, layers, |prefix|) == if ShowsMessage(b, m) then "\n" + m else "";
  }

  /** The stacks of `layers`, rendered one after another from the innermost layer out. */
  function StackBlocks(layers: seq<Layer>): string
    decreases |layers|
  {
    if layers == [] then ""
    else StackBlocks(layers[..|layers| - 1]) + RenderStack(layers[|layers| - 1].stack)
  }

  /** A chain of unannotated layers prints its root's text followed by one stack per layer. */
  lemma {:induction false} StackedReport(base: Err, layers: seq<Layer>)
    requires !base.WS?
    requires forall i :: 0 <= i < |layers| ==> layers[i].Stacked?
    ensures Extended(Build(base, layers), false) == base.Error() + StackBlocks(layers)
  {
    ExtendedReport(base, layers);
    StackedReportIs(base, layers);
  }

  lemma {:induction false} StackedReportIs(base: Err, layers: seq<Layer>)
    requires forall i :: 0 <= i < |layers| ==> layers[i].Stacked?
    ensures Report(base, layers) == base.Error() + StackBlocks(layers)
    decreases |layers|
  {
    if layers != [] {
      var n := |layers| - 1;
      StackedReportIs(base, layers[..n]);
    }
  }

  /** The number of unannotated layers below the innermost annotated one. */
  function LeadingStacked(layers: seq<Layer>): (k: nat)
    ensures k <= |layers|
    ensures forall i :: 0 <= i < k ==> layers[i].Stacked?
    ensures k < |layers| ==> layers[k].Annotated?
  {
    if layers == [] || layers[0].Annotated? then 0 else 1 + LeadingStacked(layers[1..])
  }

  /** A built chain cannot be unwrapped exactly when it has no annotation and a plain root. */
  lemma {:induction false} BuildUnwrap(base: Err, layers: seq<Layer>)
    requires !base.WS?
    ensures Build(base, layers).Unwrap().None? <==> LeadingStacked(layers) == |layers| && base.Plain?
    ensures LeadingStacked(layers) == |layers| ==> Build(base, layers).Unwrap() == base.Unwrap()
    decreases |layers|
  {
    if layers != [] {
      var n := |layers| - 1;
      BuildUnwrap(base, layers[..n]);
      LeadingStackedSnoc(layers[..n], layers[n]);
      assert layers[..n] + [layers[n]] == layers;
    }
  }

  lemma {:induction false} LeadingStackedSnoc(layers: seq<Layer>, l: Layer)
    ensures LeadingStacked(layers + [l])
         == if LeadingStacked(layers) == |layers| && l.Stacked? then |layers| + 1 else LeadingStacked(layers)
  {
    if layers != [] && layers[0].Stacked? {
      assert (layers + [l])[1..] == layers[1..] + [l];
      LeadingStackedSnoc(layers[1..], l);
    }
  }

  /**
   * What `Cause` finds in a chain built over a foreign root. A plain root is the answer,
   * except that when the innermost layers are `k > 0` unannotated ones the search stops one
   * layer short, at the chain of the first `k - 1`. A foreign `%w` root hands the search on
   * to the error it wraps.
   */
  function ExpectedCause(base: Err, layers: seq<Layer>): Option<Err>
    requires !base.WS?
  {
    if base.FmtWrap? then CauseOf(Some(base))
    else
      var k := LeadingStacked(layers);
      Some(if k == 0 then base else Build(base, layers[..k - 1]))
  }

  /** The `Cause` search over a chain built over a foreign root returns `ExpectedCause`. */
  lemma {:induction false} CauseOfBuild(base: Err, layers: seq<Layer>)
    requires !base.WS?
    ensures CauseOf(Some(Build(base, layers))) == ExpectedCause(base, layers)
    decreases |layers|
  {
    if layers != [] {
      var n := |layers| - 1;
      var prefix := layers[..n];
      assert prefix + [layers[n]] == layers;
      CauseOfBuild(base, prefix);
      match layers[n]
      case Stacked(s) => CauseStepStacked(base, prefix, s);
      case Annotated(m, s) => CauseStepAnnotated(base, prefix, m, s);
    }
  }

  lemma {:induction false} CauseStepStacked(base: Err, prefix: seq<Layer>, s: Stack)
    requires !base.WS?
    requires CauseOf(Some(Build(base, prefix))) == ExpectedCause(base, prefix)
    ensures CauseOf(Some(Build(base, prefix + [Stacked(s)]))) == ExpectedCause(base, prefix + [Stacked(s)])
  {
    var layers := prefix + [Stacked(s)];
    var b := Build(base, prefix);
    assert layers[..|prefix|] == prefix;
    assert Build(base, layers) == WS(b, s, "");
    BuildUnwrap(base, prefix);
    LeadingStackedSnoc(prefix, Stacked(s));
    if b.Unwrap().None? {
      assert CauseOf(Some(WS(b, s, ""))) == Some(b);
      assert LeadingStacked(layers) == |prefix| + 1;
    } else {
      CauseStepStackedOver(base, prefix, s);
    }
  }

  /** The stacked step when the chain below can still be unwrapped: nothing changes. */
  lemma {:induction false} CauseStepStackedOver(base: Err, prefix: seq<Layer>, s: Stack)
    requires !base.WS?
    requires Build(base, prefix).Unwrap().Some?
    requires LeadingStacked(prefix) == |prefix| ==> !base.Plain?
    requires CauseOf(Some(Build(base, prefix))) == ExpectedCause(base, prefix)
    ensures CauseOf(Some(Build(base, prefix + [Stacked(s)]))) == ExpectedCause(base, prefix + [Stacked(s)])
  {
    var layers := prefix + [Stacked(s)];
    var b := Build(base, prefix);
    assert layers[..|prefix|] == prefix;
    assert Build(base, layers) == WS(b, s, "");
    var u := b.Unwrap().value;
    assert CauseOf(Some(WS(b, s, ""))) == CauseOf(Some(u));
    assert CauseOf(Some(b)) == CauseOf(Some(u));
    LeadingStackedSnoc(prefix, Stacked(s));
    var k := LeadingStacked(prefix);
    if base.Plain? {
      assert LeadingStacked(layers) == k;
      if k > 0 {
        assert layers[..k - 1] == prefix[..k - 1];
      }
    }
  }

  lemma {:induction false} CauseStepAnnotated(base: Err, prefix: seq<Layer>, m: string, s: Stack)
    requires !base.WS?
    requires CauseOf(Some(Build(base, prefix))) == ExpectedCause(base, prefix)
    ensures CauseOf(Some(Build(base, prefix + [Annotated(m, s)])))
         == ExpectedCause(base, prefix + [Annotated(m, s)])
  {
    var layers := prefix + [Annotated(m, s)];
    var n := |prefix|;
    assert layers[..n] == prefix;
    var b := Build(base, prefix);
    assert Build(base, layers).Unwrap() == Some(b);
    LeadingStackedSnoc(prefix, Annotated(m, s));
    var k := LeadingStacked(prefix);
    if base.Plain? && k > 0 {
      assert layers[..k - 1] == prefix[..k - 1];
    }
  }
}
