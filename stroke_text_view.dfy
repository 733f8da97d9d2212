/** The Android `StrokeTextView`: style attributes written by setters that
    compare before they write, a dirty flag that gates the rebuild of the
    paints and layouts, a typeface cache, and the drawing pass. */
module StrokeText {
  import opened JavaLang
  import opened AndroidText
  import opened ColorParsing
  import opened StrokeTextLayout

  /** The style a freshly constructed view has. Its font size and stroke
      width are the raw defaults, not scaled. */
  const DefaultStyle := Style(
    "", 14.0, 0xFF00_0000, 0xFFFF_FFFF, 1.0, "sans-serif", AlignCenter, 0, false,
    0.0, 0, 0.0, 0.0, 0.0, 1.0, false)

  class StrokeTextView {
    /** The framework functions this view calls. */
    const platform: Platform

    /** The sixteen style attributes of the view (text, sizes, colours,
        alignment, line limit, ellipsis, custom width and shadow), held as
        one value; each setter replaces one component. */
    var style: Style

    var textPaint: TextPaint
    var strokePaint: TextPaint
    var textLayout: Option<StaticLayout>
    var strokeLayout: Option<StaticLayout>
    var layoutDirty: bool
    var fontCache: map<string, Typeface>

    /** Whether `setLayerType(LAYER_TYPE_SOFTWARE, null)` has been called. */
    var softwareLayer: bool
    /** How many times `invalidate()` has been called. */
    var redrawRequests: nat
    /** The size last passed to `updateSize`, if any. */
    var lastReportedSize: Option<PixelSize>
    /** The families passed to `FontUtil.getFont`, in order. */
    ghost var fontLoads: seq<string>

    /** Every cached typeface is the one `FontUtil` gives for its family, and
        `FontUtil` has been asked exactly once for each cached family. */
    ghost predicate CacheValid()
      reads this`fontCache, this`fontLoads
    {
      && (forall f :: f in fontCache ==> fontCache[f] == platform.resolveFont(f))
      && (forall f :: f in fontCache <==> f in fontLoads)
      && (forall i, j :: 0 <= i < j < |fontLoads| ==> fontLoads[i] != fontLoads[j])
    }

    /** The invariant of the view: the opacity is clamped, the cache is
        sound, the fill paint keeps the stroke attributes of a new paint, and
        while the flag is clear the paints and layouts are exactly those the
        current style gives. */
    ghost predicate Valid()
      reads this
    {
      && BreaksWellFormed(platform)
      && 0.0 <= style.shadowOpacity <= 1.0
      && CacheValid()
      && textPaint.style == FillStyle
      && textPaint.strokeWidth == NewTextPaint.strokeWidth
      && textPaint.roundStroke == NewTextPaint.roundStroke
      && (!layoutDirty ==> Rendered())
    }

    /** The paints and layouts are exactly those the current style gives. */
    ghost predicate Rendered()
      requires BreaksWellFormed(platform)
      reads this
    {
      var r := RenderingFor(platform, style);
      && textPaint == r.textPaint && strokePaint == r.strokePaint
      && textLayout == Some(r.textLayout) && strokeLayout == Some(r.strokeLayout)
    }

    constructor(platform: Platform)
      requires BreaksWellFormed(platform)
      ensures Valid()
      ensures this.platform == platform
      ensures style == DefaultStyle
      ensures layoutDirty && textLayout == None && strokeLayout == None
      ensures textPaint == NewTextPaint && strokePaint == NewTextPaint
      ensures fontCache == map[] && fontLoads == []
      ensures !softwareLayer && redrawRequests == 0 && lastReportedSize == None
    {
      this.platform := platform;
      style := DefaultStyle;
      textPaint := NewTextPaint;
      strokePaint := NewTextPaint;
      textLayout := None;
      strokeLayout := None;
      layoutDirty := true;
      fontCache := map[];
      softwareLayer := false;
      redrawRequests := 0;
      lastReportedSize := None;
      fontLoads := [];
    }

    // -------------------------------------------------------------------------
    // setters: each writes its attribute, sets the flag and requests a redraw
    // only when the new value differs from the stored one

    method SetText(newText: string)
      requires Valid()
      modifies this`style, this`layoutDirty, this`redrawRequests
      ensures Valid()
      ensures style == old(style).(text := newText)
      ensures layoutDirty == (old(layoutDirty) || newText != old(style.text))
      ensures redrawRequests == old(redrawRequests) + if newText != old(style.text) then 1 else 0
    {
      if style.text != newText {
        style := style.(text := newText);
        layoutDirty := true;
        redrawRequests := redrawRequests + 1;
      }
    }

    /** The size is given in scale-independent pixels and stored scaled. */
    method SetFontSize(size: real)
      requires Valid()
      modifies this`style, this`layoutDirty, this`redrawRequests
      ensures Valid()
      ensures style == old(style).(fontSize := platform.scale(size))
      ensures layoutDirty == (old(layoutDirty) || platform.scale(size) != old(style.fontSize))
      ensures redrawRequests == old(redrawRequests) + if platform.scale(size) != old(style.fontSize) then 1 else 0
    {
      var v := platform.scale(size);
      if style.fontSize != v {
        style := style.(fontSize := v);
        layoutDirty := true;
        redrawRequests := redrawRequests + 1;
      }
    }

    /** A colour that does not parse makes the setter throw, leaving the view
        as it was. */
    method SetTextColor(color: string) returns (outcome: Outcome<ColorError>)
      requires Valid()
      modifies this`style, this`layoutDirty, this`redrawRequests
      ensures Valid()
      ensures var parsed := ParseColor(platform.parseHexColor, color);
        && (outcome.Fail? <==> parsed.Err?)
        && (parsed.Err? ==> unchanged(this))
        && (parsed.Ok? ==>
              && style == old(style).(textColor := parsed.value)
              && layoutDirty == (old(layoutDirty) || parsed.value != old(style.textColor))
              && redrawRequests == old(redrawRequests) + if parsed.value != old(style.textColor) then 1 else 0)
    {
      var parsed := ParseColor(platform.parseHexColor, color);
      if parsed.Err? {
        return Fail(parsed.error);
      }
      if style.textColor != parsed.value {
        style := style.(textColor := parsed.value);
        layoutDirty := true;
        redrawRequests := redrawRequests + 1;
      }
      return Pass;
    }

    method SetStrokeColor(color: string) returns (outcome: Outcome<ColorError>)
      requires Valid()
      modifies this`style, this`layoutDirty, this`redrawRequests
      ensures Valid()
      ensures var parsed := ParseColor(platform.parseHexColor, color);
        && (outcome.Fail? <==> parsed.Err?)
        && (parsed.Err? ==> unchanged(this))
        && (parsed.Ok? ==>
              && style == old(style).(strokeColor := parsed.value)
              && layoutDirty == (old(layoutDirty) || parsed.value != old(style.strokeColor))
              && redrawRequests == old(redrawRequests) + if parsed.value != old(style.strokeColor) then 1 else 0)
    {
      var parsed := ParseColor(platform.parseHexColor, color);
      if parsed.Err? {
        return Fail(parsed.error);
      }
      if style.strokeColor != parsed.value {
        style := style.(strokeColor := parsed.value);
        layoutDirty := true;
        redrawRequests := redrawRequests + 1;
      }
      return Pass;
    }

    method SetStrokeWidth(width: real)
      requires Valid()
      modifies this`style, this`layoutDirty, this`redrawRequests
      ensures Valid()
      ensures style == old(style).(strokeWidth := platform.scale(width))
      ensures layoutDirty == (old(layoutDirty) || platform.scale(width) != old(style.strokeWidth))
      ensures redrawRequests == old(redrawRequests) + if platform.scale(width) != old(style.strokeWidth) then 1 else 0
    {
      var v := platform.scale(width);
      if style.strokeWidth != v {
        style := style.(strokeWidth := v);
        layoutDirty := true;
        redrawRequests := redrawRequests + 1;
      }
    }

    method SetFontFamily(family: string)
      requires Valid()
      modifies this`style, this`layoutDirty, this`redrawRequests
      ensures Valid()
      ensures style == old(style).(fontFamily := family)
      ensures layoutDirty == (old(layoutDirty) || family != old(style.fontFamily))
      ensures redrawRequests == old(redrawRequests) + if family != old(style.fontFamily) then 1 else 0
    {
      if style.fontFamily != family {
        style := style.(fontFamily := family);
        layoutDirty := true;
        redrawRequests := redrawRequests + 1;
      }
    }

    /** "left", "right" and "center" select an alignment; any other name
        keeps the current one and so changes nothing. */
    method SetTextAlignment(name: string)
      requires Valid()
      modifies this`style, this`layoutDirty, this`redrawRequests
      ensures Valid()
      ensures style == old(style).(alignment := AlignmentFor(name, old(style.alignment)))
      ensures name != "left" && name != "right" && name != "center" ==> unchanged(this)
      ensures layoutDirty == (old(layoutDirty) || style.alignment != old(style.alignment))
      ensures redrawRequests == old(redrawRequests) + if style.alignment != old(style.alignment) then 1 else 0
    {
      var newAlignment := AlignmentFor(name, style.alignment);
      if style.alignment != newAlignment {
        style := style.(alignment := newAlignment);
        layoutDirty := true;
        redrawRequests := redrawRequests + 1;
      }
    }

    method SetNumberOfLines(lines: int)
      requires Valid()
      modifies this`style, this`layoutDirty, this`redrawRequests
      ensures Valid()
      ensures style == old(style).(numberOfLines := lines)
      ensures layoutDirty == (old(layoutDirty) || lines != old(style.numberOfLines))
      ensures redrawRequests == old(redrawRequests) + if lines != old(style.numberOfLines) then 1 else 0
    {
      if style.numberOfLines != lines {
        style := style.(numberOfLines := lines);
        layoutDirty := true;
        redrawRequests := redrawRequests + 1;
      }
    }

    method SetEllipsis(on: bool)
      requires Valid()
      modifies this`style, this`layoutDirty, this`redrawRequests
      ensures Valid()
      ensures style == old(style).(ellipsis := on)
      ensures layoutDirty == (old(layoutDirty) || on != old(style.ellipsis))
      ensures redrawRequests == old(redrawRequests) + if on != old(style.ellipsis) then 1 else 0
    {
      if style.ellipsis != on {
        style := style.(ellipsis := on);
        layoutDirty := true;
        redrawRequests := redrawRequests + 1;
      }
    }

    /** The custom width is stored as given; `getCanvasWidth` scales it. */
    method SetCustomWidth(width: real)
      requires Valid()
      modifies this`style, this`layoutDirty, this`redrawRequests
      ensures Valid()
      ensures style == old(style).(customWidth := width)
      ensures layoutDirty == (old(layoutDirty) || width != old(style.customWidth))
      ensures redrawRequests == old(redrawRequests) + if width != old(style.customWidth) then 1 else 0
    {
      if style.customWidth != width {
        style := style.(customWidth := width);
        layoutDirty := true;
        redrawRequests := redrawRequests + 1;
      }
    }

    /** A new shadow colour turns the shadow on and switches the view to a
        software layer; a colour equal to the stored one changes nothing, not
        even `hasShadow`. No setter turns the shadow off. */
    method SetShadowColor(color: string) returns (outcome: Outcome<ColorError>)
      requires Valid()
      modifies this`style, this`softwareLayer, this`layoutDirty, this`redrawRequests
      ensures Valid()
      ensures var parsed := ParseColor(platform.parseHexColor, color);
        && (outcome.Fail? <==> parsed.Err?)
        && (parsed.Err? || parsed.value == old(style.shadowColor) ==> unchanged(this))
        && (parsed.Ok? && parsed.value != old(style.shadowColor) ==>
              && style == old(style).(shadowColor := parsed.value, hasShadow := true)
              && softwareLayer && layoutDirty
              && redrawRequests == old(redrawRequests) + 1)
    {
      var parsed := ParseColor(platform.parseHexColor, color);
      if parsed.Err? {
        return Fail(parsed.error);
      }
      if style.shadowColor != parsed.value {
        style := style.(shadowColor := parsed.value, hasShadow := true);
        softwareLayer := true;
        layoutDirty := true;
        redrawRequests := redrawRequests + 1;
      }
      return Pass;
    }

    method SetShadowOffsetX(offset: real)
      requires Valid()
      modifies this`style, this`layoutDirty, this`redrawRequests
      ensures Valid()
      ensures style == old(style).(shadowOffsetX := platform.scale(offset))
      ensures layoutDirty == (old(layoutDirty) || platform.scale(offset) != old(style.shadowOffsetX))
      ensures redrawRequests == old(redrawRequests) + if platform.scale(offset) != old(style.shadowOffsetX) then 1 else 0
    {
      var v := platform.scale(offset);
      if style.shadowOffsetX != v {
        style := style.(shadowOffsetX := v);
        layoutDirty := true;
        redrawRequests := redrawRequests + 1;
      }
    }

    method SetShadowOffsetY(offset: real)
      requires Valid()
      modifies this`style, this`layoutDirty, this`redrawRequests
      ensures Valid()
      ensures style == old(style).(shadowOffsetY := platform.scale(offset))
      ensures layoutDirty == (old(layoutDirty) || platform.scale(offset) != old(style.shadowOffsetY))
      ensures redrawRequests == old(redrawRequests) + if platform.scale(offset) != old(style.shadowOffsetY) then 1 else 0
    {
      var v := platform.scale(offset);
      if style.shadowOffsetY != v {
        style := style.(shadowOffsetY := v);
        layoutDirty := true;
        redrawRequests := redrawRequests + 1;
      }
    }

    method SetShadowRadius(radius: real)
      requires Valid()
      modifies this`style, this`layoutDirty, this`redrawRequests
      ensures Valid()
      ensures style == old(style).(shadowRadius := platform.scale(radius))
      ensures layoutDirty == (old(layoutDirty) || platform.scale(radius) != old(style.shadowRadius))
      ensures redrawRequests == old(redrawRequests) + if platform.scale(radius) != old(style.shadowRadius) then 1 else 0
    {
      var v := platform.scale(radius);
      if style.shadowRadius != v {
        style := style.(shadowRadius := v);
        layoutDirty := true;
        redrawRequests := redrawRequests + 1;
      }
    }

    /** The opacity is clamped to [0, 1] before it is compared and stored. */
    method SetShadowOpacity(opacity: real)
      requires Valid()
      modifies this`style, this`layoutDirty, this`redrawRequests
      ensures Valid()
      ensures style == old(style).(shadowOpacity := ClampOpacity(opacity))
      ensures layoutDirty == (old(layoutDirty) || ClampOpacity(opacity) != old(style.shadowOpacity))
      ensures redrawRequests == old(redrawRequests) + if ClampOpacity(opacity) != old(style.shadowOpacity) then 1 else 0
    {
      var clamped := ClampOpacity(opacity);
      if style.shadowOpacity != clamped {
        style := style.(shadowOpacity := clamped);
        layoutDirty := true;
        redrawRequests := redrawRequests + 1;
      }
    }

    // -------------------------------------------------------------------------
    // layout

    /** `getFont`: the cached typeface of the family, or the one `FontUtil`
        gives, which is then cached. `FontUtil` is asked only on a miss. */
    method GetFont(family: string) returns (typeface: Typeface)
      requires CacheValid()
      modifies this`fontCache, this`fontLoads
      ensures CacheValid()
      ensures typeface == platform.resolveFont(family)
      ensures fontCache == old(fontCache)[family := typeface]
      ensures fontLoads == if family in old(fontCache) then old(fontLoads) else old(fontLoads) + [family]
    {
      if family in fontCache {
        typeface := fontCache[family];
      } else {
        typeface := platform.resolveFont(family);
        fontCache := fontCache[family := typeface];
        fontLoads := fontLoads + [family];
      }
    }

    /** `getCanvasWidth`, measuring with the current fill paint. */
    method GetCanvasWidth() returns (width: real)
      ensures width == CanvasWidth(platform, MetricsOf(textPaint), style.text, style.customWidth, style.strokeWidth)
    {
      if 0.0 < style.customWidth {
        return platform.scale(style.customWidth);
      }
      var m := MetricsOf(textPaint);
      var lines := Split(style.text, '\n');
      var maxLineWidth := 0.0;
      var i := 0;
      while i < |lines|
        invariant 0 <= i <= |lines|
        invariant maxLineWidth == MaxLineWidth(platform, m, lines[..i])
      {
        var lineWidth := platform.measureText(m, lines[i]);
        ghost var longer := lines[..i + 1];
        assert longer[..|longer| - 1] == lines[..i] && longer[|longer| - 1] == lines[i];
        if lineWidth > maxLineWidth {
          maxLineWidth := lineWidth;
        }
        assert maxLineWidth == MaxLineWidth(platform, m, longer);
        i := i + 1;
      }
      assert lines[..i] == lines;
      maxLineWidth := maxLineWidth + platform.scale(style.strokeWidth) / 2.0;
      return maxLineWidth;
    }

    /** The paint half of `ensureLayout`: the typeface of the family; the
        fill paint with the typeface, size, colour and shadow of the style;
        the stroke paint with round joins and caps, the stroke width and
        colour, and no shadow. */
    method UpdatePaints()
      requires CacheValid()
      requires textPaint.style == FillStyle && textPaint.strokeWidth == NewTextPaint.strokeWidth
      requires textPaint.roundStroke == NewTextPaint.roundStroke
      modifies this`textPaint, this`strokePaint, this`fontCache, this`fontLoads
      ensures CacheValid()
      ensures textPaint == FillPaint(platform, style) && strokePaint == StrokePaint(platform, style)
    {
      var typeface := GetFont(style.fontFamily);
      textPaint := textPaint.(typeface := Some(typeface), textSize := style.fontSize, color := style.textColor);
      if style.hasShadow {
        textPaint := textPaint.(shadow := SetShadowLayer(style.shadowRadius, style.shadowOffsetX, style.shadowOffsetY,
                                                         AdjustedShadowColor(style.shadowColor, style.shadowOpacity)));
      } else {
        textPaint := textPaint.(shadow := NoShadow);
      }
      strokePaint := strokePaint.(shadow := NoShadow, style := StrokeStyle, roundStroke := true,
                                  strokeWidth := style.strokeWidth, color := style.strokeColor,
                                  typeface := Some(typeface), textSize := style.fontSize);
    }

    /** The text and width of the layouts `ensureLayout` builds: measure the
        width, ellipsize if asked, lay out, and cut after the last allowed
        line and lay out again if there are too many. */
    method LayOutText() returns (shown: string, width: int, layout: StaticLayout)
      requires BreaksWellFormed(platform)
      requires textPaint == FillPaint(platform, style)
      ensures shown == DisplayedText(platform, style) && width == LayoutWidth(platform, style)
      ensures layout == NewStaticLayout(platform, shown, textPaint, width, style.alignment)
    {
      var canvasWidth := GetCanvasWidth();
      width := FloatToInt(canvasWidth);
      var m := MetricsOf(textPaint);
      assert m == MetricsFor(platform, style) && width == LayoutWidth(platform, style);
      shown := if style.ellipsis then platform.ellipsizeEnd(m, style.text, width) else style.text;
      layout := NewStaticLayout(platform, shown, textPaint, width, style.alignment);
      if 0 < style.numberOfLines && style.numberOfLines < layout.LineCount() {
        LineEndsBounded(platform, m, shown, width, style.numberOfLines - 1);
        var lineEnd := layout.LineEnd(style.numberOfLines - 1);
        shown := shown[..lineEnd];
        layout := NewStaticLayout(platform, shown, textPaint, width, style.alignment);
      }
    }

    /** The layout half of `ensureLayout`: the fill layout of the shown text,
        and a layout of the same text with the stroke paint. */
    method UpdateLayouts()
      requires BreaksWellFormed(platform)
      requires textPaint == FillPaint(platform, style) && strokePaint == StrokePaint(platform, style)
      modifies this`textLayout, this`strokeLayout
      ensures textLayout == Some(RenderingFor(platform, style).textLayout)
      ensures strokeLayout == Some(RenderingFor(platform, style).strokeLayout)
    {
      var shown, width, layout := LayOutText();
      textLayout := Some(layout);
      strokeLayout := Some(NewStaticLayout(platform, shown, strokePaint, width, style.alignment));
    }

    /** `ensureLayout`: with the flag set, rebuild both paints and both
        layouts from the style and clear the flag; with it clear, do
        nothing. Either way the paints and layouts are afterwards those of
        the current style. */
    method EnsureLayout()
      requires Valid()
      modifies this`textPaint, this`strokePaint, this`textLayout, this`strokeLayout,
               this`layoutDirty, this`fontCache, this`fontLoads
      ensures Valid()
      ensures !layoutDirty
      ensures !old(layoutDirty) ==> unchanged(this)
      ensures Rendered()
    {
      if layoutDirty {
        UpdatePaints();
        UpdateLayouts();
        layoutDirty := false;
      }
    }

    /** `onSizeChanged`: the new size is ignored; the layouts are rebuilt. */
    method OnSizeChanged(w: int, h: int, oldW: int, oldH: int)
      requires Valid()
      modifies this`textPaint, this`strokePaint, this`textLayout, this`strokeLayout,
               this`layoutDirty, this`fontCache, this`fontLoads
      ensures Valid()
      ensures !layoutDirty
      ensures var r := RenderingFor(platform, style);
        textLayout == Some(r.textLayout) && strokeLayout == Some(r.strokeLayout)
    {
      layoutDirty := true;
      EnsureLayout();
    }

    /** The canvas calls of `onDraw`: save, shift so that the shadow's blur
        is not clipped on the left or top, draw the stroke layout and then
        the fill layout over it, restore. */
    method DrawCalls() returns (ops: seq<CanvasOp>)
      requires textLayout.Some? && strokeLayout.Some?
      ensures ops == [Save, Translate(Translation(style.hasShadow, style.shadowRadius, style.shadowOffsetX),
                                      Translation(style.hasShadow, style.shadowRadius, style.shadowOffsetY)),
                      DrawLayout(strokeLayout.value), DrawLayout(textLayout.value), Restore]
    {
      var translateX := 0.0;
      var translateY := 0.0;
      if style.hasShadow {
        translateX := if style.shadowRadius - style.shadowOffsetX < 0.0 then 0.0 else style.shadowRadius - style.shadowOffsetX;
        translateY := if style.shadowRadius - style.shadowOffsetY < 0.0 then 0.0 else style.shadowRadius - style.shadowOffsetY;
      }
      ops := [Save, Translate(translateX, translateY), DrawLayout(strokeLayout.value),
              DrawLayout(textLayout.value), Restore];
    }

    /** The size report at the end of `onDraw`: the fill layout's size plus
        the shadow's extent, passed to `updateSize`. */
    method ReportSize()
      requires textLayout.Some?
      modifies this`lastReportedSize
      ensures lastReportedSize == Some(ReportedSize(textLayout.value, style))
    {
      var extraWidth := 0;
      var extraHeight := 0;
      if style.hasShadow {
        extraWidth := FloatToInt(Ceiling(Abs(style.shadowOffsetX) + style.shadowRadius) as real);
        extraHeight := FloatToInt(Ceiling(Abs(style.shadowOffsetY) + style.shadowRadius) as real);
      }
      lastReportedSize := Some(PixelSize(AddInt(textLayout.value.width, extraWidth),
                                         AddInt(textLayout.value.height, extraHeight)));
    }

    /** `onDraw`: bring the layouts up to date, draw them, and report the size. */
    method OnDraw() returns (ops: seq<CanvasOp>)
      requires Valid()
      modifies this`textPaint, this`strokePaint, this`textLayout, this`strokeLayout,
               this`layoutDirty, this`fontCache, this`fontLoads, this`lastReportedSize
      ensures Valid()
      ensures !layoutDirty
      ensures var r := RenderingFor(platform, style);
        && ops == [Save, Translate(Translation(style.hasShadow, style.shadowRadius, style.shadowOffsetX),
                                   Translation(style.hasShadow, style.shadowRadius, style.shadowOffsetY)),
                   DrawLayout(r.strokeLayout), DrawLayout(r.textLayout), Restore]
        && lastReportedSize == Some(ReportedSize(r.textLayout, style))
    {
      EnsureLayout();
      ops := DrawCalls();
      ReportSize();
    }
  }
}
