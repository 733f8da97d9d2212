/** The computations inside the Android `StrokeTextView` that change no
    state: the shadow colour of `ensureLayout`, the width of `getCanvasWidth`,
    the line-limit cut, the translation and reported size of `onDraw`, and
    the paints and layouts `ensureLayout` derives from the style fields. */
module StrokeTextLayout {
  import opened JavaLang
  import opened AndroidText
  import opened ColorParsing

  /** The style fields of a view. `fontSize`, `strokeWidth` and the shadow
      offsets and radius hold pixels (their setters scale them);
      `customWidth` holds the value as set, and is scaled when used. */
  datatype Style = Style(
    text: string,
    fontSize: real,
    textColor: bv32,
    strokeColor: bv32,
    strokeWidth: real,
    fontFamily: string,
    alignment: Alignment,
    numberOfLines: int,
    ellipsis: bool,
    customWidth: real,
    shadowColor: bv32,
    shadowOffsetX: real,
    shadowOffsetY: real,
    shadowRadius: real,
    shadowOpacity: real,
    hasShadow: bool)

  function Abs(x: real): real {
    if x < 0.0 then -x else x
  }

  // ---------------------------------------------------------------------------
  // setters

  /** `Math.max(0f, Math.min(1f, opacity))`. */
  function ClampOpacity(opacity: real): (r: real)
    ensures 0.0 <= r <= 1.0
    ensures 0.0 <= opacity <= 1.0 ==> r == opacity
    ensures opacity < 0.0 ==> r == 0.0
    ensures 1.0 < opacity ==> r == 1.0
  {
    if opacity < 0.0 then 0.0 else if 1.0 < opacity then 1.0 else opacity
  }

  /** The alignment `setTextAlignment` picks: left, right and center map to
      normal, opposite and center; any other name keeps the current one. */
  function AlignmentFor(name: string, current: Alignment): (a: Alignment)
    ensures name != "left" && name != "right" && name != "center" ==> a == current
    ensures name == "left" ==> a == AlignNormal
    ensures name == "right" ==> a == AlignOpposite
    ensures name == "center" ==> a == AlignCenter
  {
    if name == "left" then AlignNormal
    else if name == "right" then AlignOpposite
    else if name == "center" then AlignCenter
    else current
  }

  // ---------------------------------------------------------------------------
  // shadow colour

  /** `(int) (alpha * shadowOpacity)`: for an opacity in [0, 1], the alpha
      scaled by the opacity and truncated, never more than the original. */
  function ShadowAlpha(alpha: int, opacity: real): (n: int)
    requires 0 <= alpha < 256
    ensures 0.0 <= opacity <= 1.0 ==> n == (alpha as real * opacity).Floor && 0 <= n <= alpha
  {
    var n := FloatToInt(alpha as real * opacity);
    if 0.0 <= opacity <= 1.0 then ScaledAlphaBounds(alpha, opacity); n else n
  }

  /** `(shadowColor & 0x00FFFFFF) | (alpha << 24)` with the alpha
      `((shadowColor >>> 24) & 0xFF)` scaled by the opacity; red, green and
      blue are kept. */
  function AdjustedShadowColor(color: bv32, opacity: real): (c: bv32)
    ensures c & 0x00FF_FFFF == color & 0x00FF_FFFF
  {
    (color & 0x00FF_FFFF) | (Bits(ShadowAlpha(Alpha(color) as int, opacity)) << 24)
  }

  /** The colour with its alpha byte replaced. */
  function WithAlpha(color: bv32, a: bv8): bv32 {
    (color & 0x00FF_FFFF) | ((a as bv32) << 24)
  }

  lemma AlphaOfWithAlpha(color: bv32, a: bv8)
    ensures Alpha(WithAlpha(color, a)) == a
  {
  }

  /** Shifting a number below 256 into the top byte is replacing the alpha by its byte. */
  lemma ReplacedAlpha(color: bv32, n: int)
    requires 0 <= n < 256
    ensures (color & 0x00FF_FFFF) | (Bits(n) << 24) == WithAlpha(color, n as bv8)
  {
    ByteBits(n);
  }

  /** The opacity-scaled alpha, truncated, lies between 0 and the original alpha. */
  lemma ScaledAlphaBounds(a: int, opacity: real)
    requires 0 <= a < 256 && 0.0 <= opacity <= 1.0
    ensures FloatToInt(a as real * opacity) == (a as real * opacity).Floor
    ensures 0 <= (a as real * opacity).Floor <= a
  {
    var x := a as real * opacity;
    assert a as real - x == a as real * (1.0 - opacity);
    NonNegativeProduct(a as real, 1.0 - opacity);
    NonNegativeProduct(a as real, opacity);
    assert x.Floor as real <= x;
  }

  lemma NonNegativeProduct(u: real, v: real)
    requires 0.0 <= u && 0.0 <= v
    ensures 0.0 <= u * v
  {
  }

  /** For an opacity in [0, 1], the adjusted colour's alpha byte is the
      opacity-scaled alpha (the original alpha times the opacity, truncated,
      never more than the original; see `ShadowAlpha`). */
  lemma AdjustedShadowAlpha(color: bv32, opacity: real)
    requires 0.0 <= opacity <= 1.0
    ensures Alpha(AdjustedShadowColor(color, opacity)) == ShadowAlpha(Alpha(color) as int, opacity) as bv8
  {
    var n := ShadowAlpha(Alpha(color) as int, opacity);
    ReplacedAlpha(color, n);
    AlphaOfWithAlpha(color, n as bv8);
  }

  /** The adjusted shadow colour has the red, green and blue of the original. */
  lemma AdjustedShadowKeepsRgb(color: bv32, opacity: real)
    ensures Red(AdjustedShadowColor(color, opacity)) == Red(color)
    ensures Green(AdjustedShadowColor(color, opacity)) == Green(color)
    ensures Blue(AdjustedShadowColor(color, opacity)) == Blue(color)
  {
    LowBytesKept(color, AdjustedShadowColor(color, opacity));
  }

  /** Colours that agree on their low 24 bits have the same red, green and blue. */
  lemma LowBytesKept(c: bv32, d: bv32)
    requires c & 0x00FF_FFFF == d & 0x00FF_FFFF
    ensures Red(c) == Red(d) && Green(c) == Green(d) && Blue(c) == Blue(d)
  {
    assert (c >> 16) & 0xFF == (d >> 16) & 0xFF;
    assert (c >> 8) & 0xFF == (d >> 8) & 0xFF;
    assert c & 0xFF == d & 0xFF;
  }

  // ---------------------------------------------------------------------------
  // canvas width

  /** The widest measured line, as the loop of `getCanvasWidth` finds it:
      starting from 0, every later line that measures wider replaces it. */
  function MaxLineWidth(p: Platform, m: Metrics, lines: seq<string>): (w: real)
    ensures 0.0 <= w
    ensures forall i :: 0 <= i < |lines| ==> p.measureText(m, lines[i]) <= w
    ensures w == 0.0 || exists i :: 0 <= i < |lines| && w == p.measureText(m, lines[i])
    decreases |lines|
  {
    if lines == [] then 0.0
    else
      var w := MaxLineWidth(p, m, lines[..|lines| - 1]);
      var last := p.measureText(m, lines[|lines| - 1]);
      if last > w then last else w
  }

  /** `getCanvasWidth`: a positive custom width, scaled; otherwise the widest
      line of the text split at newlines, plus half of the stroke width
      scaled once more. */
  function CanvasWidth(p: Platform, m: Metrics, text: string, customWidth: real, strokeWidth: real): (w: real)
    ensures 0.0 < customWidth ==> w == p.scale(customWidth)
    ensures customWidth <= 0.0 ==> forall line :: line in Split(text, '\n') ==>
      p.measureText(m, line) + p.scale(strokeWidth) / 2.0 <= w
    ensures customWidth <= 0.0 ==> p.scale(strokeWidth) / 2.0 <= w
    ensures customWidth <= 0.0 ==>
      (w == p.scale(strokeWidth) / 2.0 ||
       exists line :: line in Split(text, '\n') && w == p.measureText(m, line) + p.scale(strokeWidth) / 2.0)
  {
    if 0.0 < customWidth then p.scale(customWidth)
    else MaxLineWidth(p, m, Split(text, '\n')) + p.scale(strokeWidth) / 2.0
  }

  /** The stroke margin as written is the stored stroke width scaled once
      more and halved: at a density of 2 (a scale that doubles the stored
      width) it is the whole width the stroke paint draws with, not half. */
  lemma StrokeMarginScaledTwice(p: Platform, m: Metrics, text: string, strokeWidth: real)
    requires p.scale(strokeWidth) == 2.0 * strokeWidth && 0.0 < strokeWidth
    ensures CanvasWidth(p, m, text, 0.0, strokeWidth) - MaxLineWidth(p, m, Split(text, '\n')) == strokeWidth
    ensures CanvasWidth(p, m, text, 0.0, strokeWidth) - MaxLineWidth(p, m, Split(text, '\n')) != strokeWidth / 2.0
  {
  }

  /** `getCanvasWidth` with the stored (already scaled) stroke width used as
      it is. */
  function SingleScaledCanvasWidth(p: Platform, m: Metrics, text: string, customWidth: real, strokeWidth: real): real {
    if 0.0 < customWidth then p.scale(customWidth)
    else MaxLineWidth(p, m, Split(text, '\n')) + strokeWidth / 2.0
  }

  /** Without a custom width, the single-scaled width leaves every line
      exactly half the width the stroke paint draws with, beyond the widest
      line. */
  lemma CanvasHoldsHalfStroke(p: Platform, s: Style)
    requires s.customWidth <= 0.0
    ensures var m := MetricsFor(p, s);
      var w := SingleScaledCanvasWidth(p, m, s.text, s.customWidth, s.strokeWidth);
      && w - MaxLineWidth(p, m, Split(s.text, '\n')) == StrokePaint(p, s).strokeWidth / 2.0
      && forall line :: line in Split(s.text, '\n') ==>
           p.measureText(m, line) + StrokePaint(p, s).strokeWidth / 2.0 <= w
  {
    var m := MetricsFor(p, s);
    var lines := Split(s.text, '\n');
    forall line | line in lines
      ensures p.measureText(m, line) <= MaxLineWidth(p, m, lines)
    {
      var i :| 0 <= i < |lines| && lines[i] == line;
    }
  }

  // ---------------------------------------------------------------------------
  // line-limit truncation

  /** The text before the line limit: ellipsized at its end to the width when
      `ellipsis` is set (`TextUtils.ellipsize`), as it is otherwise. */
  function EllipsizedText(p: Platform, m: Metrics, text: string, ellipsis: bool, width: int): string {
    if ellipsis then p.ellipsizeEnd(m, text, width) else text
  }

  /** The cut of `ensureLayout`: when the text breaks into more lines than a
      positive limit, it is cut after the last allowed line, line feed
      included. */
  function CutToLines(p: Platform, m: Metrics, text: string, limit: int, width: int): (t: string)
    requires BreaksWellFormed(p)
    ensures t <= text
    ensures var ends := p.lineEnds(m, text, width);
      if 0 < limit < |ends| then |t| == ends[limit - 1] else t == text
  {
    var ends := p.lineEnds(m, text, width);
    if 0 < limit && limit < |ends| then
      LineEndsBounded(p, m, text, width, limit - 1);
      text[..ends[limit - 1]]
    else text
  }

  /** A cut that reaches the end of the text leaves a text ending in a line
      feed: the only line before the last that can end there is the one
      before the empty last line. */
  lemma CutAtEnd(p: Platform, m: Metrics, text: string, limit: int, width: int)
    requires BreaksWellFormed(p)
    requires var ends := p.lineEnds(m, text, width);
      0 < limit < |ends| && ends[limit - 1] == |text|
    ensures limit == |p.lineEnds(m, text, width)| - 1 && EndsInNewline(text)
  {
    var ends := p.lineEnds(m, text, width);
    assert WellFormedLineEnds(ends, text);
  }

  /** With a breaker that re-breaks a cut text into the same leading lines,
      the cut text has the first `limit` lines of the original, followed by
      the empty line a layout adds when the cut ends in a line feed; so
      `limit` lines, or one more when the cut ends in a line feed, and all of
      them when the limit is 0 or not exceeded. */
  lemma CutLines(p: Platform, m: Metrics, text: string, limit: int, width: int)
    requires BreaksWellFormed(p) && CutStable(p, m, text, width)
    ensures var ends := p.lineEnds(m, text, width);
      var t := CutToLines(p, m, text, limit, width);
      var cut := p.lineEnds(m, t, width);
      && (0 < limit < |ends| ==>
            cut == ends[..limit] + (if EndsInNewline(t) then [ends[limit - 1]] else []))
      && (0 < limit ==>
            |cut| == if limit < |ends| then limit + (if EndsInNewline(t) then 1 else 0) else |ends|)
      && (limit <= 0 ==> cut == ends)
  {
    var ends := p.lineEnds(m, text, width);
    if 0 < limit < |ends| {
      LineEndsBounded(p, m, text, width, limit - 1);
      var t := CutToLines(p, m, text, limit, width);
      assert t == text[..ends[limit - 1]];
      if ends[limit - 1] == |text| {
        CutAtEnd(p, m, text, limit, width);
        assert t == text;
        assert ends == ends[..limit] + [ends[limit - 1]];
      }
    }
  }

  /** Cutting an already cut text changes nothing: a cut ending in a line feed
      has one line too many, and cutting it again after its `limit`-th line
      keeps all of it. */
  lemma CutIdempotent(p: Platform, m: Metrics, text: string, limit: int, width: int)
    requires BreaksWellFormed(p) && CutStable(p, m, text, width)
    ensures var once := CutToLines(p, m, text, limit, width);
      CutToLines(p, m, once, limit, width) == once
  {
    CutLines(p, m, text, limit, width);
    var ends := p.lineEnds(m, text, width);
    var once := CutToLines(p, m, text, limit, width);
    if 0 < limit < |ends| && EndsInNewline(once) {
      var cut := p.lineEnds(m, once, width);
      assert cut[limit - 1] == ends[limit - 1] == |once|;
    }
  }

  /** The cut with a line feed at its end dropped: what keeps the layout at
      the line limit. */
  function TrimmedCut(p: Platform, m: Metrics, text: string, limit: int, width: int): (t: string)
    requires BreaksWellFormed(p)
    ensures t <= CutToLines(p, m, text, limit, width)
    ensures |CutToLines(p, m, text, limit, width)| - 1 <= |t|
  {
    var t := CutToLines(p, m, text, limit, width);
    if 0 < limit < |p.lineEnds(m, text, width)| && EndsInNewline(t) then t[..|t| - 1] else t
  }

  /** The trimmed cut breaks into exactly `limit` lines when the text has
      more, and into all of its lines otherwise. */
  lemma TrimmedCutLines(p: Platform, m: Metrics, text: string, limit: int, width: int)
    requires BreaksWellFormed(p) && CutStable(p, m, text, width)
    requires 0 < limit
    ensures var ends := p.lineEnds(m, text, width);
      |p.lineEnds(m, TrimmedCut(p, m, text, limit, width), width)| == if limit < |ends| then limit else |ends|
  {
    var ends := p.lineEnds(m, text, width);
    if limit < |ends| {
      LineEndsBounded(p, m, text, width, limit - 1);
      var e := ends[limit - 1];
      var t := CutToLines(p, m, text, limit, width);
      assert t == text[..e];
      if EndsInNewline(t) {
        assert text[e - 1] == '\n';
        assert TrimmedCut(p, m, text, limit, width) == text[..e - 1];
      } else {
        if e == |text| {
          CutAtEnd(p, m, text, limit, width);
        }
      }
    }
  }

  /** The cut as written lets a line feed through: "a\nb\nc" breaks at its
      line feeds, a limit of one line cuts it to "a\n", and that text lays
      out as two lines, the second one empty. */
  lemma CutKeepsLineFeed(p: Platform, m: Metrics, width: int)
    requires BreaksWellFormed(p) && CutStable(p, m, "a\nb\nc", width)
    requires p.lineEnds(m, "a\nb\nc", width) == [2, 4, 5]
    ensures CutToLines(p, m, "a\nb\nc", 1, width) == "a\n"
    ensures |p.lineEnds(m, CutToLines(p, m, "a\nb\nc", 1, width), width)| == 2
  {
    var t := CutToLines(p, m, "a\nb\nc", 1, width);
    assert t == "a\nb\nc"[..2] == "a\n";
    assert EndsInNewline(t);
    CutLines(p, m, "a\nb\nc", 1, width);
  }

  // ---------------------------------------------------------------------------
  // what ensureLayout derives

  /** The two paints and the two layouts `ensureLayout` leaves behind. */
  datatype Rendering = Rendering(
    textPaint: TextPaint,
    strokePaint: TextPaint,
    textLayout: StaticLayout,
    strokeLayout: StaticLayout)

  function MetricsFor(p: Platform, s: Style): Metrics {
    Metrics(Some(p.resolveFont(s.fontFamily)), s.fontSize)
  }

  /** The shadow layer of the fill paint: set from the style's radius,
      offsets and opacity-adjusted colour when the style has a shadow, which
      leaves none when the radius is not positive; cleared otherwise. */
  function FillShadow(s: Style): (l: ShadowLayer)
    ensures l != NoShadow <==> s.hasShadow && 0.0 < s.shadowRadius
    ensures l.Shadow? ==> l.radius == s.shadowRadius && l.dx == s.shadowOffsetX && l.dy == s.shadowOffsetY
    ensures l.Shadow? ==> l.color == AdjustedShadowColor(s.shadowColor, s.shadowOpacity)
  {
    if s.hasShadow
    then SetShadowLayer(s.shadowRadius, s.shadowOffsetX, s.shadowOffsetY, AdjustedShadowColor(s.shadowColor, s.shadowOpacity))
    else NoShadow
  }

  /** The fill paint: the resolved typeface, the font size, the text colour and
      the shadow; its stroke attributes stay those of a new paint. */
  function FillPaint(p: Platform, s: Style): (f: TextPaint)
    ensures MetricsOf(f) == MetricsFor(p, s)
    ensures f.style == FillStyle && f.color == s.textColor
    ensures f.strokeWidth == NewTextPaint.strokeWidth && f.roundStroke == NewTextPaint.roundStroke
    ensures f.shadow == FillShadow(s)
  {
    TextPaint(Some(p.resolveFont(s.fontFamily)), s.fontSize, s.textColor, FillStyle,
              NewTextPaint.strokeWidth, NewTextPaint.roundStroke, FillShadow(s))
  }

  /** The stroke paint: round joins and caps, the stroke width and colour, no shadow. */
  function StrokePaint(p: Platform, s: Style): (k: TextPaint)
    ensures MetricsOf(k) == MetricsFor(p, s) == MetricsOf(FillPaint(p, s))
    ensures k.style == StrokeStyle && k.color == s.strokeColor
    ensures k.strokeWidth == s.strokeWidth && k.roundStroke && k.shadow == NoShadow
  {
    TextPaint(Some(p.resolveFont(s.fontFamily)), s.fontSize, s.strokeColor, StrokeStyle, s.strokeWidth, true, NoShadow)
  }

  /** `(int) getCanvasWidth()` under the fill paint: an `int`; the scaled
      custom width, truncated, when one is set; otherwise, when the canvas
      width fits an `int`, no line plus half the scaled stroke width is a
      pixel or more wider. */
  function LayoutWidth(p: Platform, s: Style): (w: int)
    ensures IsInt(w)
    ensures 0.0 < s.customWidth ==> w == FloatToInt(p.scale(s.customWidth))
    ensures s.customWidth <= 0.0 && IsInt(Truncate(CanvasWidth(p, MetricsFor(p, s), s.text, s.customWidth, s.strokeWidth))) ==>
      forall line :: line in Split(s.text, '\n') ==>
        p.measureText(MetricsFor(p, s), line) + p.scale(s.strokeWidth) / 2.0 < w as real + 1.0
  {
    FloatToInt(CanvasWidth(p, MetricsFor(p, s), s.text, s.customWidth, s.strokeWidth))
  }

  /** The text both layouts show: ellipsized if asked, then cut to the line
      limit; a prefix of the ellipsized text, all of it when the limit is 0
      or not exceeded (`CutLines` says what the cut keeps). */
  function DisplayedText(p: Platform, s: Style): (t: string)
    requires BreaksWellFormed(p)
    ensures var m := MetricsFor(p, s);
      var width := LayoutWidth(p, s);
      var shown := EllipsizedText(p, m, s.text, s.ellipsis, width);
      && t <= shown
      && (s.numberOfLines <= 0 || |p.lineEnds(m, shown, width)| <= s.numberOfLines ==> t == shown)
  {
    var m := MetricsFor(p, s);
    var width := LayoutWidth(p, s);
    CutToLines(p, m, EllipsizedText(p, m, s.text, s.ellipsis, width), s.numberOfLines, width)
  }

  /** Both layouts come from the same text, width and alignment and so break
      into the same lines; only the fill paint carries the shadow. */
  function RenderingFor(p: Platform, s: Style): (r: Rendering)
    requires BreaksWellFormed(p)
    ensures r.textLayout.text == r.strokeLayout.text
    ensures r.textLayout.width == r.strokeLayout.width && IsInt(r.textLayout.width)
    ensures r.textLayout.lineEnds == r.strokeLayout.lineEnds
    ensures r.textLayout.height == r.strokeLayout.height
    ensures r.textLayout.paint == r.textPaint && r.strokeLayout.paint == r.strokePaint
    ensures r.strokePaint.shadow == NoShadow && r.strokePaint.style == StrokeStyle
    ensures r.textPaint.style == FillStyle && (r.textPaint.shadow != NoShadow <==> s.hasShadow && 0.0 < s.shadowRadius)
  {
    var text := DisplayedText(p, s);
    var width := LayoutWidth(p, s);
    var fill := FillPaint(p, s);
    var stroke := StrokePaint(p, s);
    Rendering(fill, stroke,
              NewStaticLayout(p, text, fill, width, s.alignment),
              NewStaticLayout(p, text, stroke, width, s.alignment))
  }

  /** With a positive line limit and a breaker that re-breaks cut text into
      the same leading lines, the layouts show that many lines when the
      ellipsized text has more, one more when the shown text ends in a line
      feed, and all of the ellipsized text's lines otherwise. */
  lemma RenderedLineCount(p: Platform, s: Style)
    requires BreaksWellFormed(p)
    requires var m := MetricsFor(p, s);
      var width := LayoutWidth(p, s);
      CutStable(p, m, EllipsizedText(p, m, s.text, s.ellipsis, width), width)
    requires 0 < s.numberOfLines
    ensures var r := RenderingFor(p, s);
      var m := MetricsFor(p, s);
      var width := LayoutWidth(p, s);
      var natural := |p.lineEnds(m, EllipsizedText(p, m, s.text, s.ellipsis, width), width)|;
      && r.textLayout.LineCount() == r.strokeLayout.LineCount()
      && r.textLayout.LineCount() == if s.numberOfLines < natural
         then s.numberOfLines + (if EndsInNewline(DisplayedText(p, s)) then 1 else 0)
         else natural
  {
    var m := MetricsFor(p, s);
    var width := LayoutWidth(p, s);
    var shown := EllipsizedText(p, m, s.text, s.ellipsis, width);
    CutLines(p, m, shown, s.numberOfLines, width);
    var r := RenderingFor(p, s);
    assert r.textLayout.lineEnds == p.lineEnds(m, CutToLines(p, m, shown, s.numberOfLines, width), width);
  }

  // ---------------------------------------------------------------------------
  // onDraw

  datatype CanvasOp = Save | Translate(dx: real, dy: real) | DrawLayout(layout: StaticLayout) | Restore

  /** A size reported to the host's layout manager, in pixels. */
  datatype PixelSize = PixelSize(width: int, height: int)

  /** `Math.max(0, shadowRadius - offset)` with a shadow, 0 without: the least
      shift that keeps the blurred shadow edge, `radius - offset` before the
      text, inside the canvas. */
  function Translation(hasShadow: bool, radius: real, offset: real): (t: real)
    ensures 0.0 <= t
    ensures !hasShadow ==> t == 0.0
    ensures hasShadow ==> 0.0 <= t + offset - radius
    ensures hasShadow ==> t == 0.0 || t + offset - radius == 0.0
  {
    if hasShadow then (if radius - offset < 0.0 then 0.0 else radius - offset) else 0.0
  }

  /** `(int) Math.ceil(Math.abs(offset) + radius)` with a shadow, 0 without:
      whole pixels enough to hold the shadow's offset and blur. */
  function ShadowExtra(hasShadow: bool, offset: real, radius: real): (e: int)
    ensures IsInt(e)
    ensures !hasShadow ==> e == 0
    ensures hasShadow && IsInt(Ceiling(Abs(offset) + radius)) ==>
      Abs(offset) + radius <= e as real < Abs(offset) + radius + 1.0
  {
    if hasShadow then
      var c := Ceiling(Abs(offset) + radius);
      assert Truncate(c as real) == c;
      FloatToInt(c as real)
    else 0
  }

  /** The size `onDraw` reports: the fill layout's width and height plus the
      shadow extras, added as `int`s; without a shadow, the layout's own
      size. */
  function ReportedSize(layout: StaticLayout, s: Style): (size: PixelSize)
    ensures IsInt(size.width) && IsInt(size.height)
    ensures !s.hasShadow && IsInt(layout.width) && IsInt(layout.height) ==>
      size == PixelSize(layout.width, layout.height)
  {
    PixelSize(AddInt(layout.width, ShadowExtra(s.hasShadow, s.shadowOffsetX, s.shadowRadius)),
              AddInt(layout.height, ShadowExtra(s.hasShadow, s.shadowOffsetY, s.shadowRadius)))
  }

  /** Without a shadow the reported size is the layout's; with one it grows by
      at least the offset plus the radius on each axis, and by less than one
      pixel more, when no sum leaves the `int` range. */
  lemma ReportedSizeCoversShadow(layout: StaticLayout, s: Style)
    requires IsInt(layout.width) && IsInt(layout.height)
    requires IsInt(Ceiling(Abs(s.shadowOffsetX) + s.shadowRadius)) && IsInt(Ceiling(Abs(s.shadowOffsetY) + s.shadowRadius))
    requires IsInt(layout.width + ShadowExtra(s.hasShadow, s.shadowOffsetX, s.shadowRadius))
    requires IsInt(layout.height + ShadowExtra(s.hasShadow, s.shadowOffsetY, s.shadowRadius))
    ensures var size := ReportedSize(layout, s);
      && (!s.hasShadow ==> size == PixelSize(layout.width, layout.height))
      && (s.hasShadow ==>
            && (layout.width as real + Abs(s.shadowOffsetX) + s.shadowRadius <= size.width as real
                  < layout.width as real + Abs(s.shadowOffsetX) + s.shadowRadius + 1.0)
            && (layout.height as real + Abs(s.shadowOffsetY) + s.shadowRadius <= size.height as real
                  < layout.height as real + Abs(s.shadowOffsetY) + s.shadowRadius + 1.0))
  {
  }
}
