/** The iOS `StrokedTextLabel`, a `UILabel` that draws its text twice: once
    stroked in the outline colour, then filled in the text colour with an
    optional drop shadow, inside insets as wide as the outline. Its content
    size grows by the outline and the shadow.

    `CGFloat` values are `real`s. What `UILabel.drawText(in:)` draws and what
    `UILabel.intrinsicContentSize` measures belong to UIKit: a draw is recorded
    with the label and context state it sees, and the measured size is a
    parameter. */
module StrokedText {
  import opened JavaLang

  // ---------------------------------------------------------------------------
  // UIKit and Core Graphics values

  /** A `UIColor` by its components. */
  datatype UIColor = UIColor(red: real, green: real, blue: real, alpha: real)

  const Clear := UIColor(0.0, 0.0, 0.0, 0.0)
  const Black := UIColor(0.0, 0.0, 0.0, 1.0)

  /** `color.withAlphaComponent(alpha)`: the same colour with another alpha. */
  function WithAlphaComponent(color: UIColor, alpha: real): UIColor {
    color.(alpha := alpha)
  }

  datatype Size = Size(width: real, height: real)

  const ZeroSize := Size(0.0, 0.0)

  datatype Rect = Rect(x: real, y: real, width: real, height: real)

  datatype EdgeInsets = EdgeInsets(top: real, left: real, bottom: real, right: real)

  const ZeroInsets := EdgeInsets(0.0, 0.0, 0.0, 0.0)

  /** `rect.inset(by: insets)`: the origin moves in by the top and left
      insets, the size shrinks by both insets of each axis. */
  function Inset(rect: Rect, insets: EdgeInsets): (r: Rect)
    ensures r.width == rect.width - insets.left - insets.right
    ensures r.height == rect.height - insets.top - insets.bottom
    ensures r.x + r.width == rect.x + rect.width - insets.right
    ensures r.y + r.height == rect.y + rect.height - insets.bottom
  {
    Rect(rect.x + insets.left, rect.y + insets.top,
         rect.width - insets.left - insets.right, rect.height - insets.top - insets.bottom)
  }

  /** A rectangle at the origin of the given size. */
  function Bounds(size: Size): Rect {
    Rect(0.0, 0.0, size.width, size.height)
  }

  datatype LineBreakMode =
    ByWordWrapping | ByCharWrapping | ByClipping | ByTruncatingHead | ByTruncatingTail | ByTruncatingMiddle

  datatype TextAlignment = AlignLeft | AlignCenter | AlignRight | AlignJustified | AlignNatural

  datatype TextDrawingMode = FillMode | StrokeMode | FillStrokeMode | InvisibleMode

  datatype LineJoin = MiterJoin | RoundJoin | BevelJoin

  /** The shadow of a graphics context; a context whose shadow colour is
      `nil` draws no shadow. */
  datatype ContextShadow = ContextShadow(offset: Size, blur: real, color: Option<UIColor>)

  /** What `setShadow(offset: .zero, blur: 0, color: nil)` leaves. */
  const NoShadow := ContextShadow(ZeroSize, 0.0, None)

  /** The drawing state of a `CGContext` that the label sets. */
  datatype ContextState = ContextState(
    lineWidth: real, lineJoin: LineJoin, mode: TextDrawingMode, shadow: ContextShadow)

  /** The current graphics context (`UIGraphicsGetCurrentContext()`). */
  class GraphicsContext {
    var state: ContextState

    constructor(state: ContextState)
      ensures this.state == state
    {
      this.state := state;
    }

    method SetLineWidth(width: real)
      modifies this
      ensures state == old(state).(lineWidth := width)
    {
      state := state.(lineWidth := width);
    }

    method SetLineJoin(join: LineJoin)
      modifies this
      ensures state == old(state).(lineJoin := join)
    {
      state := state.(lineJoin := join);
    }

    method SetTextDrawingMode(mode: TextDrawingMode)
      modifies this
      ensures state == old(state).(mode := mode)
    {
      state := state.(mode := mode);
    }

    method SetShadow(offset: Size, blur: real, color: Option<UIColor>)
      modifies this
      ensures state == old(state).(shadow := ContextShadow(offset, blur, color))
    {
      state := state.(shadow := ContextShadow(offset, blur, color));
    }
  }

  /** One call of `UILabel.drawText(in:)`: the rectangle, the label state it
      reads, and the state of the current context (`None` when there is no
      context). */
  datatype TextPass = TextPass(
    rect: Rect,
    textColor: UIColor,
    alignment: TextAlignment,
    lineBreakMode: LineBreakMode,
    shadowOffset: Size,
    context: Option<ContextState>)

  // ---------------------------------------------------------------------------
  // The label's own properties

  /** The stored properties the label declares, set by its owner. */
  datatype LabelProps = LabelProps(
    outlineWidth: real,
    outlineColor: UIColor,
    align: TextAlignment,
    customWidth: real,
    ellipsis: bool,
    shadowLayerColor: Option<UIColor>,
    shadowLayerOffsetX: real,
    shadowLayerOffsetY: real,
    shadowLayerRadius: real,
    shadowLayerOpacity: real)

  const DefaultProps := LabelProps(0.0, Clear, AlignCenter, 0.0, false, None, 0.0, 0.0, 0.0, 1.0)

  function Abs(x: real): real {
    if x < 0.0 then -x else x
  }

  /** Wrapping by words, or truncating the tail when `ellipsis` is set. */
  function LineBreakFor(ellipsis: bool): (m: LineBreakMode)
    ensures m == ByTruncatingTail <==> ellipsis
    ensures m == ByWordWrapping <==> !ellipsis
  {
    if ellipsis then ByTruncatingTail else ByWordWrapping
  }

  /** The context shadow of the fill pass when a shadow colour is set: the
      shadow offset and radius, and the colour at the shadow opacity. */
  function FillShadow(p: LabelProps): (s: ContextShadow)
    requires p.shadowLayerColor.Some?
    ensures s.color == Some(p.shadowLayerColor.value.(alpha := p.shadowLayerOpacity))
    ensures s.offset == Size(p.shadowLayerOffsetX, p.shadowLayerOffsetY)
    ensures s.blur == p.shadowLayerRadius
  {
    ContextShadow(Size(p.shadowLayerOffsetX, p.shadowLayerOffsetY), p.shadowLayerRadius,
                  Some(WithAlphaComponent(p.shadowLayerColor.value, p.shadowLayerOpacity)))
  }

  // ---------------------------------------------------------------------------
  // drawText(in:)

  /** The context state of the stroke pass: round joins, the outline width as
      line width, stroke mode; the shadow is whatever the context had. */
  function StrokeContext(p: LabelProps, ctx: ContextState): ContextState {
    ctx.(lineWidth := p.outlineWidth, lineJoin := RoundJoin, mode := StrokeMode)
  }

  /** The context state of the fill pass. */
  function FillContext(p: LabelProps, ctx: ContextState): ContextState {
    var c := StrokeContext(p, ctx).(mode := FillMode);
    if p.shadowLayerColor.Some? then c.(shadow := FillShadow(p)) else c
  }

  /** The two passes `drawText(in: rect)` draws, given the label state on
      entry (its text colour and shadow offset) and the context state. Both
      draw inside the inset rectangle with the label's alignment and line
      break mode. The stroke pass comes first, in the outline colour with
      the label's own shadow offset and the context's shadow untouched; the
      fill pass second, in the text colour, with no label shadow and with the
      context shadow set exactly when a shadow colour is set. */
  function DrawPasses(p: LabelProps, insets: EdgeInsets, textColor: UIColor, shadowOffset: Size,
                      rect: Rect, ctx: Option<ContextState>): (r: seq<TextPass>)
    ensures |r| == 2
    ensures r[0].rect == r[1].rect == Inset(rect, insets)
    ensures r[0].alignment == r[1].alignment == p.align
    ensures r[0].lineBreakMode == r[1].lineBreakMode == LineBreakFor(p.ellipsis)
    ensures r[0].textColor == p.outlineColor && r[1].textColor == textColor
    ensures r[0].shadowOffset == shadowOffset && r[1].shadowOffset == ZeroSize
    ensures r[0].context.Some? == r[1].context.Some? == ctx.Some?
    ensures ctx.Some? ==>
      var s, f := r[0].context.value, r[1].context.value;
      && s.mode == StrokeMode && f.mode == FillMode
      && s.lineWidth == f.lineWidth == p.outlineWidth
      && s.lineJoin == f.lineJoin == RoundJoin
      && s.shadow == ctx.value.shadow
      && f.shadow == (if p.shadowLayerColor.Some? then FillShadow(p) else ctx.value.shadow)
  {
    var inner := Inset(rect, insets);
    var mode := LineBreakFor(p.ellipsis);
    [ TextPass(inner, p.outlineColor, p.align, mode, shadowOffset,
               if ctx.Some? then Some(StrokeContext(p, ctx.value)) else None),
      TextPass(inner, textColor, p.align, mode, ZeroSize,
               if ctx.Some? then Some(FillContext(p, ctx.value)) else None) ]
  }

  /** The context state `drawText` leaves: fill mode, the outline width and
      round joins, and the shadow cleared when the label set one. */
  function ContextAfterDraw(p: LabelProps, ctx: ContextState): (c: ContextState)
    ensures c.mode == FillMode && c.lineWidth == p.outlineWidth && c.lineJoin == RoundJoin
    ensures p.shadowLayerColor.Some? ==> c.shadow == NoShadow
    ensures p.shadowLayerColor.None? ==> c.shadow == ctx.shadow
  {
    var f := FillContext(p, ctx);
    if p.shadowLayerColor.Some? then f.(shadow := NoShadow) else f
  }

  function ContextAfter(p: LabelProps, ctx: Option<ContextState>): Option<ContextState> {
    if ctx.Some? then Some(ContextAfterDraw(p, ctx.value)) else None
  }

  /** The shadow never leaks out of `drawText`: a context without a shadow is
      left without one, so the stroke pass of the next draw has no shadow. */
  lemma ShadowDoesNotLeak(p: LabelProps, insets: EdgeInsets, textColor: UIColor, shadowOffset: Size,
                          rect: Rect, ctx: ContextState)
    requires ctx.shadow == NoShadow
    ensures ContextAfterDraw(p, ctx).shadow == NoShadow
    ensures DrawPasses(p, insets, textColor, shadowOffset, rect,
                       Some(ContextAfterDraw(p, ctx)))[0].context.value.shadow == NoShadow
  {
  }

  /** Because the label restores its text colour and shadow offset and the
      context shadow does not leak, drawing again draws the same two passes. */
  lemma {:induction false} RedrawRepeats(p: LabelProps, insets: EdgeInsets, textColor: UIColor,
                                         shadowOffset: Size, rect: Rect, ctx: Option<ContextState>)
    requires ctx.Some? && p.shadowLayerColor.Some? ==> ctx.value.shadow == NoShadow
    ensures DrawPasses(p, insets, textColor, shadowOffset, rect, ContextAfter(p, ctx))
         == DrawPasses(p, insets, textColor, shadowOffset, rect, ctx)
  {
    if ctx.Some? {
      var after := ContextAfterDraw(p, ctx.value);
      assert StrokeContext(p, after) == StrokeContext(p, ctx.value);
      assert FillContext(p, after) == FillContext(p, ctx.value);
    }
  }

  // ---------------------------------------------------------------------------
  // intrinsicContentSize

  /** The room a shadow takes beside the text: its horizontal offset plus
      its radius, none without a shadow colour. */
  function ShadowExtraWidth(p: LabelProps): real {
    if p.shadowLayerColor.Some? then Abs(p.shadowLayerOffsetX) + p.shadowLayerRadius else 0.0
  }

  /** The room a shadow takes below or above the text. */
  function ShadowExtraHeight(p: LabelProps): real {
    if p.shadowLayerColor.Some? then Abs(p.shadowLayerOffsetY) + p.shadowLayerRadius else 0.0
  }

  /** `intrinsicContentSize`, from the size UIKit measures for the text
      (`base`): a positive custom width replaces the width, otherwise the
      outline width and the shadow's room are added to it; the height always
      grows by the outline width and the shadow's room. */
  function ContentSize(p: LabelProps, base: Size): (size: Size)
    ensures p.customWidth > 0.0 ==> size.width == p.customWidth
    ensures 0.0 <= p.outlineWidth && 0.0 <= p.shadowLayerRadius ==>
      base.height <= size.height && (p.customWidth <= 0.0 ==> base.width <= size.width)
  {
    var width := if p.customWidth > 0.0 then p.customWidth
                 else base.width + p.outlineWidth + ShadowExtraWidth(p);
    Size(width, base.height + p.outlineWidth + ShadowExtraHeight(p))
  }

  /** Without a shadow colour the shadow takes no room, whatever its offsets
      and radius, and the content size is the measured size plus the outline. */
  lemma NoShadowNoExtra(p: LabelProps, base: Size)
    requires p.shadowLayerColor.None?
    ensures ShadowExtraWidth(p) == 0.0 && ShadowExtraHeight(p) == 0.0
    ensures ContentSize(p, base).height == base.height + p.outlineWidth
    ensures p.customWidth <= 0.0 ==> ContentSize(p, base).width == base.width + p.outlineWidth
  {
  }

  /** A positive custom width is the content width exactly: the measured
      width, the outline and the shadow do not change it. */
  lemma ExplicitWidthFixed(p: LabelProps, q: LabelProps, base1: Size, base2: Size)
    requires p.customWidth > 0.0 && q.customWidth == p.customWidth
    ensures ContentSize(p, base1).width == ContentSize(q, base2).width == p.customWidth
  {
  }

  /** Without a positive custom width the content width is the measured width
      plus the outline width, plus the shadow's horizontal offset (either
      way) and radius when a shadow colour is set. */
  lemma AutoWidth(p: LabelProps, base: Size)
    requires p.customWidth <= 0.0
    ensures p.shadowLayerColor.Some? ==>
      ContentSize(p, base).width == base.width + p.outlineWidth + Abs(p.shadowLayerOffsetX) + p.shadowLayerRadius
    ensures p.shadowLayerColor.None? ==> ContentSize(p, base).width == base.width + p.outlineWidth
    ensures p.shadowLayerRadius >= 0.0 ==> ContentSize(p, base).width >= base.width + p.outlineWidth
  {
  }

  /** The content height does not depend on the custom width. */
  lemma HeightIgnoresCustomWidth(p: LabelProps, base: Size, customWidth: real)
    ensures ContentSize(p.(customWidth := customWidth), base).height == ContentSize(p, base).height
    ensures ContentSize(p, base).height == base.height + p.outlineWidth + ShadowExtraHeight(p)
  {
  }

  /** The insets `updateTextInsets` sets: the outline width on every side. */
  function OutlineInsets(p: LabelProps): (e: EdgeInsets)
    ensures e.top == e.left == e.bottom == e.right == p.outlineWidth
  {
    EdgeInsets(p.outlineWidth, p.outlineWidth, p.outlineWidth, p.outlineWidth)
  }

  /** A label sized to its content size and inset by the outline on each side
      draws into a rectangle one outline width narrower and lower than the
      text UIKit measured, when it has an outline, no custom width and no
      shadow. */
  lemma InsetContentShortOfText(p: LabelProps, base: Size)
    requires p.outlineWidth > 0.0 && p.customWidth <= 0.0 && p.shadowLayerColor.None?
    ensures var r := Inset(Bounds(ContentSize(p, base)), OutlineInsets(p));
      && r.width == base.width - p.outlineWidth < base.width
      && r.height == base.height - p.outlineWidth < base.height
  {
    NoShadowNoExtra(p, base);
  }

  /** An outline of 2 around text measured at 100 by 20 gives a content size
      of 102 by 22, which the insets shrink to a drawing area of 98 by 18. */
  lemma OutlineOfTwoClipsText()
    ensures var p := DefaultProps.(outlineWidth := 2.0);
      && ContentSize(p, Size(100.0, 20.0)) == Size(102.0, 22.0)
      && Inset(Bounds(ContentSize(p, Size(100.0, 20.0))), OutlineInsets(p)) == Rect(2.0, 2.0, 98.0, 18.0)
  {
  }

  /** The content size that makes room for the outline inset on both sides
      of each axis, and for the shadow. */
  function FittedContentSize(p: LabelProps, base: Size): Size {
    var width := if p.customWidth > 0.0 then p.customWidth
                 else base.width + 2.0 * p.outlineWidth + ShadowExtraWidth(p);
    Size(width, base.height + 2.0 * p.outlineWidth + ShadowExtraHeight(p))
  }

  /** With the fitted content size the inset drawing rectangle holds the
      measured text, with the shadow's room to spare, and it is exactly the
      measured size without a shadow. The custom width and the height rule
      are those of `intrinsicContentSize`. */
  lemma FittedContentHoldsText(p: LabelProps, base: Size)
    requires p.customWidth <= 0.0 && p.shadowLayerRadius >= 0.0
    ensures var r := Inset(Bounds(FittedContentSize(p, base)), OutlineInsets(p));
      && r.width == base.width + ShadowExtraWidth(p) >= base.width
      && r.height == base.height + ShadowExtraHeight(p) >= base.height
      && (p.shadowLayerColor.None? ==> r.width == base.width && r.height == base.height)
  {
  }

  /** The fitted size differs from `intrinsicContentSize` only by one more
      outline width on each axis, and not at all in the custom width. */
  lemma FittedAddsOneOutline(p: LabelProps, base: Size)
    ensures FittedContentSize(p, base).height == ContentSize(p, base).height + p.outlineWidth
    ensures p.customWidth > 0.0 ==> FittedContentSize(p, base).width == ContentSize(p, base).width
    ensures p.customWidth <= 0.0 ==>
      FittedContentSize(p, base).width == ContentSize(p, base).width + p.outlineWidth
  {
  }

  // ---------------------------------------------------------------------------
  // The label

  /** UIKit's defaults for the inherited state the label touches. */
  const DefaultTextColor := Black
  const DefaultShadowOffset := Size(0.0, -1.0)

  class StrokedTextLabel {
    var props: LabelProps
    var textInsets: EdgeInsets
    var frame: Rect

    // State inherited from UILabel.
    var textColor: UIColor
    var shadowOffset: Size
    var lineBreakMode: LineBreakMode
    var textAlignment: TextAlignment
    var numberOfLines: nat

    /** The calls of `UILabel.drawText(in:)`, in order. */
    var drawn: seq<TextPass>

    /** `init(frame:)`: the declared defaults, zero insets, and no limit on
        the number of lines. */
    constructor(frame: Rect)
      ensures props == DefaultProps && textInsets == ZeroInsets && this.frame == frame
      ensures numberOfLines == 0
      ensures textColor == DefaultTextColor && shadowOffset == DefaultShadowOffset
      ensures lineBreakMode == ByTruncatingTail && textAlignment == AlignNatural
      ensures drawn == []
    {
      props := DefaultProps;
      textInsets := ZeroInsets;
      this.frame := frame;
      textColor := DefaultTextColor;
      shadowOffset := DefaultShadowOffset;
      lineBreakMode := ByTruncatingTail;
      textAlignment := AlignNatural;
      numberOfLines := 0;
      drawn := [];
    }

    /** `updateTextInsets`: every inset becomes the outline width. */
    method UpdateTextInsets()
      modifies this`textInsets
      ensures textInsets == OutlineInsets(props)
      ensures textInsets.top == textInsets.left == textInsets.bottom == textInsets.right == props.outlineWidth
    {
      textInsets := EdgeInsets(props.outlineWidth, props.outlineWidth, props.outlineWidth, props.outlineWidth);
    }

    /** `intrinsicContentSize`, given the size `UILabel` measures. */
    function IntrinsicContentSize(base: Size): (s: Size)
      reads this`props
      ensures props.customWidth > 0.0 ==> s.width == props.customWidth
      ensures props.customWidth <= 0.0 ==> s.width == base.width + props.outlineWidth + ShadowExtraWidth(props)
      ensures s.height == base.height + props.outlineWidth + ShadowExtraHeight(props)
    {
      ContentSize(props, base)
    }

    /** `UILabel.drawText(in:)`, recorded with what it reads. */
    method SuperDrawText(rect: Rect, context: GraphicsContext?)
      modifies this`drawn
      ensures drawn == old(drawn) + [TextPass(rect, textColor, textAlignment, lineBreakMode, shadowOffset,
                                              if context == null then None else Some(context.state))]
    {
      drawn := drawn + [TextPass(rect, textColor, textAlignment, lineBreakMode, shadowOffset,
                                 if context == null then None else Some(context.state))];
    }

    /** `drawText(in:)`: the stroke pass then the fill pass, into the inset
        rectangle; the text colour and shadow offset are restored, the
        alignment and line break mode are left as the passes used them. */
    method DrawText(rect: Rect, context: GraphicsContext?)
      modifies this`textColor, this`shadowOffset, this`lineBreakMode, this`textAlignment, this`drawn
      modifies context
      ensures drawn == old(drawn) + DrawPasses(props, textInsets, old(textColor), old(shadowOffset), rect,
                                               old(if context == null then None else Some(context.state)))
      ensures context != null ==> context.state == ContextAfterDraw(props, old(context.state))
      ensures textColor == old(textColor) && shadowOffset == old(shadowOffset)
      ensures lineBreakMode == LineBreakFor(props.ellipsis) && textAlignment == props.align
    {
      var savedOffset := shadowOffset;
      var savedColor := textColor;

      lineBreakMode := if props.ellipsis then ByTruncatingTail else ByWordWrapping;

      var adjustedRect := Inset(rect, textInsets);

      if context != null {
        context.SetLineWidth(props.outlineWidth);
        context.SetLineJoin(RoundJoin);
        context.SetTextDrawingMode(StrokeMode);
      }
      textAlignment := props.align;
      textColor := props.outlineColor;

      SuperDrawText(adjustedRect, context);

      if context != null {
        context.SetTextDrawingMode(FillMode);
      }
      textColor := savedColor;
      shadowOffset := ZeroSize;

      if props.shadowLayerColor.Some? {
        var adjustedColor := WithAlphaComponent(props.shadowLayerColor.value, props.shadowLayerOpacity);
        if context != null {
          context.SetShadow(Size(props.shadowLayerOffsetX, props.shadowLayerOffsetY),
                            props.shadowLayerRadius, Some(adjustedColor));
        }
      }

      SuperDrawText(adjustedRect, context);

      if props.shadowLayerColor.Some? {
        if context != null {
          context.SetShadow(ZeroSize, 0.0, None);
        }
      }

      shadowOffset := savedOffset;
    }
  }
}
