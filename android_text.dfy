/** The Android framework pieces the view uses, at their interface only.
    `StaticLayout` line breaking, `TextUtils.ellipsize`, `Paint.measureText`,
    the sp-to-pixel scaling of `TypedValue.applyDimension`, `Color.parseColor`
    and the typeface lookup of `FontUtil.getFont` are functions supplied by a
    `Platform` value; nothing here says how they compute. */
module AndroidText {
  import opened JavaLang

  /** A handle to a resolved typeface. */
  datatype Typeface = Typeface(handle: nat)

  /** What text measurement and line breaking depend on: the typeface and the
      text size. Colour, paint style, stroke width and shadow do not change
      glyph advances. */
  datatype Metrics = Metrics(typeface: Option<Typeface>, textSize: real)

  /** `Layout.Alignment`. */
  datatype Alignment = AlignNormal | AlignOpposite | AlignCenter

  datatype PaintStyle = FillStyle | StrokeStyle

  /** A paint's shadow layer (`setShadowLayer` / `clearShadowLayer`). */
  datatype ShadowLayer = NoShadow | Shadow(radius: real, dx: real, dy: real, color: bv32)

  /** The layer `Paint.setShadowLayer(radius, dx, dy, color)` leaves: the
      framework removes the layer when the blur radius is not positive. */
  function SetShadowLayer(radius: real, dx: real, dy: real, color: bv32): (l: ShadowLayer)
    ensures l == NoShadow <==> radius <= 0.0
    ensures l.Shadow? ==> l == Shadow(radius, dx, dy, color)
  {
    if radius <= 0.0 then NoShadow else Shadow(radius, dx, dy, color)
  }

  /** The state of a `TextPaint` that the view sets. `roundStroke` stands for
      a round stroke join together with a round stroke cap. */
  datatype TextPaint = TextPaint(
    typeface: Option<Typeface>,
    textSize: real,
    color: bv32,
    style: PaintStyle,
    strokeWidth: real,
    roundStroke: bool,
    shadow: ShadowLayer)

  /** The part of a paint that measurement and line breaking see. */
  function MetricsOf(paint: TextPaint): Metrics {
    Metrics(paint.typeface, paint.textSize)
  }

  /** A freshly allocated anti-aliased `TextPaint`: default typeface and size,
      opaque black fill, hairline stroke width, miter join, no shadow. */
  const NewTextPaint := TextPaint(None, 12.0, 0xFF00_0000, FillStyle, 0.0, false, NoShadow)

  /** The framework functions the view calls. */
  datatype Platform = Platform(
    // TypedValue.applyDimension(COMPLEX_UNIT_SP, size, displayMetrics)
    scale: real -> real,
    // FontUtil.getFont(context, fontFamily)
    resolveFont: string -> Typeface,
    // Color.parseColor on a string starting with '#'; None when it throws
    parseHexColor: string -> Option<bv32>,
    // Paint.measureText(line)
    measureText: (Metrics, string) -> real,
    // TextUtils.ellipsize(text, paint, width, TruncateAt.END)
    ellipsizeEnd: (Metrics, string, int) -> string,
    // the end offset of every line of a StaticLayout of the text at the width
    lineEnds: (Metrics, string, int) -> seq<nat>,
    // StaticLayout.getHeight()
    layoutHeight: (Metrics, string, int) -> int)

  /** The text's last character is a line feed. */
  predicate EndsInNewline(text: string) {
    |text| > 0 && text[|text| - 1] == '\n'
  }

  /** Line end offsets as a `StaticLayout` reports them: at least one line
      (an empty text still has one), the last one at the end of the text,
      non-decreasing, and strictly increasing except for the empty last line
      a layout adds after a text that ends in a line feed (so "a\n" has the
      line ends 2 and 2). */
  ghost predicate WellFormedLineEnds(ends: seq<nat>, text: string) {
    && |ends| >= 1
    && ends[|ends| - 1] == |text|
    && (forall i, j :: 0 <= i < j < |ends| ==> ends[i] <= ends[j])
    && (forall i, j :: 0 <= i < j < |ends| - 1 ==> ends[i] < ends[j])
    && (EndsInNewline(text) <==> |ends| >= 2 && ends[|ends| - 2] == |text|)
  }

  /** The line breaker of the platform always reports well-formed lines. */
  ghost predicate BreaksWellFormed(p: Platform) {
    forall m, text, width :: WellFormedLineEnds(p.lineEnds(m, text, width), text)
  }

  /** Every line ends inside the text; a line before the last two ends
      before the end of the text, and so does the line before the last one
      unless the text ends in a line feed. */
  lemma LineEndsBounded(p: Platform, m: Metrics, text: string, width: int, i: nat)
    requires BreaksWellFormed(p)
    requires i < |p.lineEnds(m, text, width)|
    ensures p.lineEnds(m, text, width)[i] <= |text|
    ensures i < |p.lineEnds(m, text, width)| - 1 && !EndsInNewline(text) ==> p.lineEnds(m, text, width)[i] < |text|
    ensures i < |p.lineEnds(m, text, width)| - 2 ==> p.lineEnds(m, text, width)[i] < |text|
  {
    var ends := p.lineEnds(m, text, width);
    assert WellFormedLineEnds(ends, text);
    assert ends[i] <= ends[|ends| - 1];
    if i < |ends| - 2 {
      assert ends[i] < ends[|ends| - 2];
    }
  }

  /** What breaking the text again after cutting it at the end of one of its
      lines gives: the lines before the cut, followed by the empty line a
      layout adds when the cut text ends in a line feed; and, when the line
      ends in a line feed and the cut leaves that feed out, the lines before
      it followed by the shortened line. */
  ghost predicate CutStable(p: Platform, m: Metrics, text: string, width: int) {
    var ends := p.lineEnds(m, text, width);
    && (forall i :: 0 <= i < |ends| - 1 && ends[i] < |text| ==>
          p.lineEnds(m, text[..ends[i]], width)
            == ends[..i + 1] + (if EndsInNewline(text[..ends[i]]) then [ends[i]] else []))
    && (forall i :: 0 <= i < |ends| - 1 && 0 < ends[i] <= |text| && text[ends[i] - 1] == '\n' ==>
          p.lineEnds(m, text[..ends[i] - 1], width) == ends[..i] + [ends[i] - 1])
  }

  /** `android.text.StaticLayout` as the view uses it: built from a text, a
      paint, a width and an alignment, with spacing multiplier 1 and no extra
      spacing. */
  datatype StaticLayout = StaticLayout(
    text: string,
    paint: TextPaint,
    width: int,
    alignment: Alignment,
    lineEnds: seq<nat>,
    height: int)
  {
    function LineCount(): nat {
      |lineEnds|
    }

    function LineEnd(line: nat): nat
      requires line < LineCount()
    {
      lineEnds[line]
    }
  }

  /** `new StaticLayout(text, paint, width, alignment, 1.0f, 0.0f, false)`. */
  function NewStaticLayout(p: Platform, text: string, paint: TextPaint, width: int, alignment: Alignment): StaticLayout {
    var m := MetricsOf(paint);
    StaticLayout(text, paint, width, alignment, p.lineEnds(m, text, width), p.layoutHeight(m, text, width))
  }
}
