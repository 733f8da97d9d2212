# Stroked text views, modelled in Dafny

`react-native-stroke-text-shadows` draws outlined text with an optional drop
shadow. On Android this is `StrokeTextView`. On iOS it is
`StrokedTextLabel`. This project models the core of both.

The Android `StrokeTextView` keeps sixteen style attributes: the text, font
size and family, fill and stroke colour, stroke width, alignment, line limit,
ellipsis, custom width and five shadow attributes.
- Each setter writes its attribute only when the new value differs. It then
  marks the layout dirty and requests a redraw.
- `ensureLayout` rebuilds a fill paint and a stroke paint and two
  `StaticLayout`s, but only while the dirty flag is set:
  - the shadow colour's alpha is scaled by the opacity;
  - the text is ellipsized if asked;
  - it is cut after the last allowed line.
- `onDraw` draws the stroke layout and then the fill layout, shifted so that
  the shadow's blur is not clipped. It then reports the layout size plus the
  shadow's extent.
- Colours are `#…` strings handed to `Color.parseColor`, or `rgb(…)` /
  `rgba(…)` strings parsed by the view itself.

The iOS `StrokedTextLabel` is a `UILabel`.
- `drawText(in:)` draws the text twice inside insets as wide as the outline:
  first stroked in the outline colour, then filled with an optional
  context shadow.
- `intrinsicContentSize` adds the outline and the shadow to the size UIKit
  measures, unless a custom width is set.

Modules, one per file:

- `JavaLang` (`java_lang.dfy`): the Java semantics the view relies on.
  - 32-bit `int` addition with wrap-around.
  - The saturating `(int)` cast and `Math.ceil`.
  - `String.split` with a one-character separator, `Integer.parseInt` and
    plain decimal `Float.parseFloat`.
- `AndroidText` (`android_text.dfy`): the framework at its interface.
  - `TextPaint` and `StaticLayout` are values.
  - A `Platform` value holds, as functions: sp scaling, typeface lookup,
    `Color.parseColor`, `measureText`, `TextUtils.ellipsize`, line breaking
    and layout height.
- `ColorParsing` (`color_parsing.dfy`): `parseColor`, `parseRgbColor` and
  `Color.argb`.
- `StrokeTextLayout` (`stroke_text_layout.dfy`): the state-free
  computations of the view.
  - The shadow colour, the canvas width and the line-limit cut.
  - The paints and layouts a style gives.
  - The translation and the reported size of `onDraw`.
- `StrokeText` (`stroke_text_view.dfy`): the class `StrokeTextView`.
  - Its setters, `getFont` with its cache, `getCanvasWidth` (a loop),
    `ensureLayout`, `onSizeChanged` and `onDraw`.
  - All of them are proved against the functions above and the invariant
    `Valid()`. `Valid()` says that while the flag is clear the paints and
    layouts are exactly those of the current style.
- `StrokedText` (`stroked_text_label.dfy`): the iOS label.
  - `updateTextInsets`, `drawText(in:)` over a `GraphicsContext` and
    `intrinsicContentSize`.

Three behaviours of the code that are easy to misread; the model follows
the code:

- **Malformed colour strings** are not replaced by opaque black.
  `Color.parseColor` throws on a bad `#…` string, and `Integer.parseInt`,
  `Float.parseFloat` and `parts[i]` throw on a bad `rgb(…)` string. The
  setters model these throws as `Fail` outcomes that leave the view
  unchanged.
  - Only an unknown prefix gives opaque black (`0xFF000000`).
  - Fields beyond the fourth are ignored, not rejected.
- **Stroke width scaled twice.** `setStrokeWidth` already stores a scaled
  width, and `getCanvasWidth` scales it again
  (`StrokeTextView.java:107`). `CanvasWidth` does the same (see Findings).
- **Shadow radius.** `ensureLayout` sets the shadow layer whenever
  `hasShadow` is set, but `Paint.setShadowLayer` removes the layer when the
  radius is not positive, and the default radius is 0. So a shadow colour
  alone draws no shadow (`SetShadowLayer`, `FillShadow`). `onDraw` still
  shifts the text and reports the extras from `hasShadow` alone.

## Model

| member | source | states |
|---|---|---|
| JavaLang.AddInt | android/src/main/java/com/stroketext/StrokeTextView.java:135 | `int` addition: the result is an `int`, congruent to the exact sum modulo 2^32, and equal to it when the sum fits |
| JavaLang.Ceiling | android/src/main/java/com/stroketext/StrokeTextView.java:132-133 | `Math.ceil`: the least integer not below the argument |
| JavaLang.FloatToInt | android/src/main/java/com/stroketext/StrokeTextView.java:73 | the `(int)` cast: truncation toward zero, saturating at `Integer.MIN_VALUE` and `Integer.MAX_VALUE` |
| JavaLang.Split | android/src/main/java/com/stroketext/StrokeTextView.java:98 | `split`: a string without the separator comes back whole; otherwise its fields, with trailing empty fields removed; no part holds the separator |
| JavaLang.JoinFields | android/src/main/java/com/stroketext/StrokeTextView.java:98 | joining the fields with the separator gives back the original string (no character is lost by splitting) |
| JavaLang.SplitThree | android/src/main/java/com/stroketext/StrokeTextView.java:308 | three separator-free fields, the last non-empty, joined by the separator split back into exactly themselves |
| JavaLang.SplitFour | android/src/main/java/com/stroketext/StrokeTextView.java:308 | the same for four fields |
| JavaLang.ParseInt | android/src/main/java/com/stroketext/StrokeTextView.java:309-311 | `Integer.parseInt` succeeds only on an optional sign followed by at least one digit; on digits, `+digits` and `-digits` it succeeds exactly when the value fits an `int`, and gives that value, negated after `-` |
| JavaLang.DigitsRoundTrip | android/src/main/java/com/stroketext/StrokeTextView.java:309-311 | the decimal digits of a natural number denote that number |
| JavaLang.ParseFormatInt | android/src/main/java/com/stroketext/StrokeTextView.java:309-311 | `Integer.parseInt(Integer.toString(x)) == x` for every `int` |
| JavaLang.ParseDecimalOfDigits | android/src/main/java/com/stroketext/StrokeTextView.java:312 | `Float.parseFloat` of a non-empty run of digits is the integer they denote |
| JavaLang.UnsignedDecimal | android/src/main/java/com/stroketext/StrokeTextView.java:312 | an unsigned literal is accepted exactly when it is digits with at most one point and at least one digit; its value is the digits' integer, or the whole part plus the fraction around the point |
| JavaLang.ParseDecimal | android/src/main/java/com/stroketext/StrokeTextView.java:312 | `Float.parseFloat` succeeds exactly when the string is non-empty and, after an optional sign, a plain decimal; the value is that literal's, negated after a minus |
| JavaLang.ParseDecimalRejects | android/src/main/java/com/stroketext/StrokeTextView.java:312 | ".", "-" and "1e" are rejected |
| JavaLang.ParseDecimalAcceptsPoint | android/src/main/java/com/stroketext/StrokeTextView.java:312 | ".5" parses to 0.5 and "1." to 1 |
| JavaLang.ParseDecimalAcceptsSign | android/src/main/java/com/stroketext/StrokeTextView.java:312 | "-5" parses to -5 and "+5" to 5 |
| JavaLang.ParseDecimalFraction | android/src/main/java/com/stroketext/StrokeTextView.java:312 | `whole.frac` parses to the whole part plus the digits after the point over ten to the number of those digits |
| AndroidText.LineEndsBounded | android/src/main/java/com/stroketext/StrokeTextView.java:76-78 | every line end of a layout lies within the text, so `subSequence(0, lineEnd)` is in range; a line before the last ends before the end of the text, except the one before the empty last line that a trailing line feed adds |
| AndroidText.SetShadowLayer | android/src/main/java/com/stroketext/StrokeTextView.java:60 | `setShadowLayer` leaves no shadow layer exactly when the radius is not positive, and otherwise the layer it is given |
| ColorParsing.ArgbChannels | android/src/main/java/com/stroketext/StrokeTextView.java:313 | `Color.argb` with components in 0..255 puts each component in its own byte, read back unchanged |
| ColorParsing.ArgbOred | android/src/main/java/com/stroketext/StrokeTextView.java:313 | `Color.argb` masks nothing: the low byte is blue's and every bit of each shifted component is set in the colour |
| ColorParsing.StripRgbSyntax | android/src/main/java/com/stroketext/StrokeTextView.java:308 | `replaceAll("[rgba()\\s]", "")`: no longer than its input, and none of the removed characters is left |
| ColorParsing.StripConcat | android/src/main/java/com/stroketext/StrokeTextView.java:308 | stripping distributes over concatenation |
| ColorParsing.StripKeeps | android/src/main/java/com/stroketext/StrokeTextView.java:308 | text without any of the removed characters is left unchanged |
| ColorParsing.StripDrops | android/src/main/java/com/stroketext/StrokeTextView.java:308 | text made only of removed characters vanishes |
| ColorParsing.StripWrapped | android/src/main/java/com/stroketext/StrokeTextView.java:308 | `rgb(` / `rgba(` and `)` around a body are removed and the body kept |
| ColorParsing.StripParens | android/src/main/java/com/stroketext/StrokeTextView.java:308 | `rgb(` / `rgba(` and `)` around any body are removed, leaving what stripping the body leaves |
| ColorParsing.StripPadded | android/src/main/java/com/stroketext/StrokeTextView.java:308 | kept text followed by white space keeps the text and drops the white space |
| ColorParsing.StripPaddedBody | android/src/main/java/com/stroketext/StrokeTextView.java:308 | three comma-separated fields with white space after each comma strip to the fields and commas alone |
| ColorParsing.ParseIntField | android/src/main/java/com/stroketext/StrokeTextView.java:309-311 | a field parses exactly when it exists and `parseInt` accepts it, and then to `parseInt`'s value; otherwise it is an error (the exception) |
| ColorParsing.ParseAlphaField | android/src/main/java/com/stroketext/StrokeTextView.java:312 | the alpha field parses exactly when `parseFloat` accepts it, to `(int) (v * 255)` |
| ColorParsing.ParseRgbParts | android/src/main/java/com/stroketext/StrokeTextView.java:309-313 | fewer than three fields is an error (the index error when the fields present parse); otherwise it succeeds exactly when the first three fields parse as `int`s and a fourth, if present, as a decimal, giving `Color.argb` of `(int) (v * 255)` (255 without a fourth field) and the three `int`s |
| ColorParsing.ParseRgbColor | android/src/main/java/com/stroketext/StrokeTextView.java:307-314 | `parseRgbColor` succeeds exactly when, after stripping and splitting at commas, there are at least three fields, the first three parse as `int`s and a fourth, if present, as a decimal; the colour is then `Color.argb` of the parsed alpha (or 255) and the three `int`s |
| ColorParsing.ParseColor | android/src/main/java/com/stroketext/StrokeTextView.java:297-305 | `#…` succeeds exactly when `Color.parseColor` does, with its value; any other string starting with `rgb` goes to `parseRgbColor`; any other prefix gives opaque black |
| ColorParsing.FormatIntPlain | android/src/main/java/com/stroketext/StrokeTextView.java:308 | a printed `int` holds no removed character and no comma |
| ColorParsing.JoinedPlain | android/src/main/java/com/stroketext/StrokeTextView.java:308 | comma-joined plain fields survive stripping |
| ColorParsing.RgbLiteralFields | android/src/main/java/com/stroketext/StrokeTextView.java:308 | `rgb(r,g,b)` strips and splits into the three printed components |
| ColorParsing.RgbaLiteralFields | android/src/main/java/com/stroketext/StrokeTextView.java:308 | `rgba(r,g,b,a)` strips and splits into the three printed components and the alpha field |
| ColorParsing.ParseRgbFields | android/src/main/java/com/stroketext/StrokeTextView.java:309-313 | fields printed from three `int`s parse back to the colour packed from them, with alpha 255 when there is no fourth field |
| ColorParsing.RgbDispatch | android/src/main/java/com/stroketext/StrokeTextView.java:298-301 | a string opening with `rgb(` or `rgba(` goes to `parseRgbColor` |
| ColorParsing.ParseRgbLiteral | android/src/main/java/com/stroketext/StrokeTextView.java:307-313 | round trip: `rgb(r,g,b)` parses to `Color.argb(255, r, g, b)` for any `int` components |
| ColorParsing.ParseRgbaLiteral | android/src/main/java/com/stroketext/StrokeTextView.java:312-313 | round trip: `rgba(r,g,b,a)` with a plain decimal alpha parses to `Color.argb((int) (a * 255), r, g, b)` |
| ColorParsing.ParsePaddedRgbLiteral | android/src/main/java/com/stroketext/StrokeTextView.java:307-313 | `rgb(r, g, b)` with white space after the commas parses to the same colour as `rgb(r,g,b)`, `Color.argb(255, r, g, b)` |
| ColorParsing.OpaqueRgbaLiteral | android/src/main/java/com/stroketext/StrokeTextView.java:312-313 | `rgba(r,g,b,1)` is the same colour as `rgb(r,g,b)` |
| ColorParsing.RgbLiteralChannels | android/src/main/java/com/stroketext/StrokeTextView.java:307-313 | with components in 0..255, `rgb(r,g,b)` is opaque and carries the components in its bytes |
| ColorParsing.ScaledAlphaChannels | android/src/main/java/com/stroketext/StrokeTextView.java:312-313 | the colour `rgba(r,g,b,v)` parses to, for `v` in [0, 1]: alpha byte `v * 255` truncated, the other bytes the components |
| ColorParsing.AlphaFieldRange | android/src/main/java/com/stroketext/StrokeTextView.java:312 | for `v` in [0, 1], `(int) (v * 255)` is the floor of `v * 255`, within 0..255 |
| ColorParsing.RedOverflowSpillsIntoAlpha | android/src/main/java/com/stroketext/StrokeTextView.java:313 | components are not masked: `rgb(256,0,0)` is opaque black, its red spilling into the alpha byte |
| StrokeTextLayout.ClampOpacity | android/src/main/java/com/stroketext/StrokeTextView.java:289 | the opacity clamped to [0, 1]: unchanged inside, 0 below, 1 above |
| StrokeTextLayout.AlignmentFor | android/src/main/java/com/stroketext/StrokeTextView.java:209-218 | `left`, `right` and `center` select normal, opposite and centre alignment; any other name keeps the current alignment |
| StrokeTextLayout.ShadowAlpha | android/src/main/java/com/stroketext/StrokeTextView.java:58 | for an opacity in [0, 1], the alpha times the opacity, truncated: between 0 and the original alpha |
| StrokeTextLayout.ScaledAlphaBounds | android/src/main/java/com/stroketext/StrokeTextView.java:58 | the cast of the scaled alpha is its floor, within 0 and the original alpha |
| StrokeTextLayout.AdjustedShadowColor | android/src/main/java/com/stroketext/StrokeTextView.java:59 | the adjusted shadow colour keeps the low 24 bits of the original |
| StrokeTextLayout.AdjustedShadowAlpha | android/src/main/java/com/stroketext/StrokeTextView.java:58-59 | the adjusted shadow colour's alpha byte is the opacity-scaled alpha |
| StrokeTextLayout.AdjustedShadowKeepsRgb | android/src/main/java/com/stroketext/StrokeTextView.java:59 | the adjusted shadow colour has the original red, green and blue |
| StrokeTextLayout.MaxLineWidth | android/src/main/java/com/stroketext/StrokeTextView.java:98-105 | the loop's maximum: at least every line's measured width, non-negative, and either 0 or the width of some line |
| StrokeTextLayout.CanvasWidth | android/src/main/java/com/stroketext/StrokeTextView.java:93-109 | a positive custom width gives its scaled value; otherwise every line's width plus half the (again scaled) stroke width fits, and the width is half the scaled stroke width plus 0 or plus the width of some line |
| StrokeTextLayout.StrokeMarginScaledTwice | android/src/main/java/com/stroketext/StrokeTextView.java:107 | as written, at a density of 2 the stroke margin is the whole stored stroke width, not half of it |
| StrokeTextLayout.CanvasHoldsHalfStroke | android/src/main/java/com/stroketext/StrokeTextView.java:93-109 | corrected (stored width used unscaled): the margin beyond the widest line is exactly half the stroke paint's width, and every line plus that half fits |
| StrokeTextLayout.CutToLines | android/src/main/java/com/stroketext/StrokeTextView.java:76-79 | the cut text is a prefix of the text; it ends at the last allowed line's end, line feed included, when a positive limit is exceeded, and is the whole text otherwise |
| StrokeTextLayout.CutAtEnd | android/src/main/java/com/stroketext/StrokeTextView.java:76-78 | a cut that reaches the end of the text happens only when the limit is one less than the line count and the text ends in a line feed |
| StrokeTextLayout.CutLines | android/src/main/java/com/stroketext/StrokeTextView.java:75-79 | with a breaker that re-breaks a cut text into its leading lines, the cut text has the first `limit` lines followed by an empty line when it ends in a line feed, so `limit` or `limit + 1` lines; all lines when the limit is 0 or not exceeded |
| StrokeTextLayout.CutIdempotent | android/src/main/java/com/stroketext/StrokeTextView.java:76-79 | cutting an already cut text changes nothing, including a cut ending in a line feed |
| StrokeTextLayout.CutKeepsLineFeed | android/src/main/java/com/stroketext/StrokeTextView.java:76-79 | as written, `a\nb\nc` with a limit of one line is cut to `a\n`, which lays out as two lines |
| StrokeTextLayout.TrimmedCut | android/src/main/java/com/stroketext/StrokeTextView.java:76-79 | corrected cut: a prefix of the cut text, shorter by at most the trailing line feed |
| StrokeTextLayout.TrimmedCutLines | android/src/main/java/com/stroketext/StrokeTextView.java:76-79 | the corrected cut lays out as exactly `limit` lines when the text has more, and as all of its lines otherwise |
| StrokeTextLayout.FillShadow | android/src/main/java/com/stroketext/StrokeTextView.java:57-63 | the fill paint has a shadow layer exactly when the view has a shadow with a positive radius, carrying the radius, the offsets and the opacity-adjusted colour |
| StrokeTextLayout.FillPaint | android/src/main/java/com/stroketext/StrokeTextView.java:53-63 | the fill paint measures with the style's typeface and size, fills in the text colour, keeps a new paint's stroke attributes and carries `FillShadow` |
| StrokeTextLayout.StrokePaint | android/src/main/java/com/stroketext/StrokeTextView.java:64-71 | the stroke paint measures like the fill paint, strokes in the stroke colour and width with round joins and caps, and has no shadow |
| StrokeTextLayout.LayoutWidth | android/src/main/java/com/stroketext/StrokeTextView.java:73 | `(int) getCanvasWidth()` is an `int`: the truncated scaled custom width when one is set; otherwise, when it fits, no line plus half the scaled stroke width exceeds it by a pixel or more |
| StrokeTextLayout.DisplayedText | android/src/main/java/com/stroketext/StrokeTextView.java:73-81 | the shown text is a prefix of the ellipsized text, all of it when the limit is 0 or not exceeded |
| StrokeTextLayout.RenderingFor | android/src/main/java/com/stroketext/StrokeTextView.java:51-85 | both layouts share text, width, line breaks and height; the fill layout uses the fill paint, the stroke layout the stroke paint; only the fill paint has a shadow, exactly when the view has one with a positive radius; the stroke paint strokes |
| StrokeTextLayout.RenderedLineCount | android/src/main/java/com/stroketext/StrokeTextView.java:73-81 | with a positive line limit that the ellipsized text exceeds, both layouts have `limit` lines, one more when the shown text ends in a line feed; otherwise the ellipsized text's own line count |
| StrokeTextLayout.Translation | android/src/main/java/com/stroketext/StrokeTextView.java:116-121 | non-negative; 0 without a shadow; with one, the least shift keeping `radius - offset` of blur inside the canvas |
| StrokeTextLayout.ShadowExtra | android/src/main/java/com/stroketext/StrokeTextView.java:129-134 | 0 without a shadow; with one, a whole number of pixels at least the offset plus radius and less than one pixel more |
| StrokeTextLayout.ReportedSize | android/src/main/java/com/stroketext/StrokeTextView.java:129-135 | the reported size is a pair of `int`s, the fill layout's own size without a shadow |
| StrokeTextLayout.ReportedSizeCoversShadow | android/src/main/java/com/stroketext/StrokeTextView.java:129-135 | the reported size is the fill layout's without a shadow and covers the offset plus radius on each axis with one |
| StrokeText.StrokeTextView.constructor | android/src/main/java/com/stroketext/StrokeTextView.java:22-49 | the declared defaults, two new paints, no layouts, dirty, empty cache, no redraw requested |
| StrokeText.StrokeTextView.SetText | android/src/main/java/com/stroketext/StrokeTextView.java:156-162 | only the text changes; the flag is set and one redraw requested exactly when it differs; `Valid` is kept |
| StrokeText.StrokeTextView.SetFontSize | android/src/main/java/com/stroketext/StrokeTextView.java:164-171 | the scaled size is compared and stored; flag and redraw as above |
| StrokeText.StrokeTextView.SetTextColor | android/src/main/java/com/stroketext/StrokeTextView.java:173-180 | fails exactly when the colour does not parse, changing nothing; otherwise stores the parsed colour, with flag and redraw as above |
| StrokeText.StrokeTextView.SetStrokeColor | android/src/main/java/com/stroketext/StrokeTextView.java:182-189 | as `SetTextColor`, for the stroke colour |
| StrokeText.StrokeTextView.SetStrokeWidth | android/src/main/java/com/stroketext/StrokeTextView.java:191-198 | the scaled width is compared and stored |
| StrokeText.StrokeTextView.SetFontFamily | android/src/main/java/com/stroketext/StrokeTextView.java:200-206 | the family is compared and stored |
| StrokeText.StrokeTextView.SetTextAlignment | android/src/main/java/com/stroketext/StrokeTextView.java:208-224 | the mapped alignment is stored; an unknown name changes nothing at all |
| StrokeText.StrokeTextView.SetNumberOfLines | android/src/main/java/com/stroketext/StrokeTextView.java:226-232 | the line limit is compared and stored |
| StrokeText.StrokeTextView.SetEllipsis | android/src/main/java/com/stroketext/StrokeTextView.java:234-240 | the ellipsis flag is compared and stored |
| StrokeText.StrokeTextView.SetCustomWidth | android/src/main/java/com/stroketext/StrokeTextView.java:242-248 | the custom width is compared and stored unscaled |
| StrokeText.StrokeTextView.SetShadowColor | android/src/main/java/com/stroketext/StrokeTextView.java:250-259 | a parse failure or an equal colour changes nothing; a new colour is stored, turns the shadow on and the software layer, sets the flag and requests one redraw |
| StrokeText.StrokeTextView.SetShadowOffsetX | android/src/main/java/com/stroketext/StrokeTextView.java:261-268 | the scaled offset is compared and stored |
| StrokeText.StrokeTextView.SetShadowOffsetY | android/src/main/java/com/stroketext/StrokeTextView.java:270-277 | the scaled offset is compared and stored |
| StrokeText.StrokeTextView.SetShadowRadius | android/src/main/java/com/stroketext/StrokeTextView.java:279-286 | the scaled radius is compared and stored |
| StrokeText.StrokeTextView.SetShadowOpacity | android/src/main/java/com/stroketext/StrokeTextView.java:288-295 | the clamped opacity is compared and stored, so the stored opacity stays in [0, 1] |
| StrokeText.StrokeTextView.GetFont | android/src/main/java/com/stroketext/StrokeTextView.java:316-324 | returns the family's typeface; it is cached afterwards; the loader is called only on a miss, so at most once per family |
| StrokeText.StrokeTextView.GetCanvasWidth | android/src/main/java/com/stroketext/StrokeTextView.java:93-109 | the loop computes `CanvasWidth` under the current fill paint |
| StrokeText.StrokeTextView.UpdatePaints | android/src/main/java/com/stroketext/StrokeTextView.java:53-71 | the paints become exactly the fill and stroke paints of the style; the cache stays sound |
| StrokeText.StrokeTextView.LayOutText | android/src/main/java/com/stroketext/StrokeTextView.java:73-80 | the loop width is `LayoutWidth`, and the ellipsized, cut text is `DisplayedText`, laid out with the fill paint |
| StrokeText.StrokeTextView.UpdateLayouts | android/src/main/java/com/stroketext/StrokeTextView.java:73-81 | the layouts become exactly those of the style: the fill layout of the shown text, and the same text, width and alignment laid out with the stroke paint |
| StrokeText.StrokeTextView.EnsureLayout | android/src/main/java/com/stroketext/StrokeTextView.java:51-85 | with the flag clear nothing changes; either way the flag ends clear and the paints and layouts are those of the current style |
| StrokeText.StrokeTextView.OnSizeChanged | android/src/main/java/com/stroketext/StrokeTextView.java:87-91 | always rebuilds: the layouts are those of the current style and the flag is clear |
| StrokeText.StrokeTextView.DrawCalls | android/src/main/java/com/stroketext/StrokeTextView.java:116-127 | save, translate by the shadow translation, the stroke layout before the fill layout, restore |
| StrokeText.StrokeTextView.ReportSize | android/src/main/java/com/stroketext/StrokeTextView.java:129-135 | the reported size is the fill layout's plus the shadow extras |
| StrokeText.StrokeTextView.OnDraw | android/src/main/java/com/stroketext/StrokeTextView.java:111-136 | draws the up-to-date layouts of the current style, stroke first, and reports their size |
| StrokedText.Inset | ios/StrokedTextLabel.swift:37 | `inset(by:)` shrinks each axis by both of its insets and moves each edge in by its own inset |
| StrokedText.LineBreakFor | ios/StrokedTextLabel.swift:35 | truncate the tail exactly when `ellipsis` is set, wrap by words exactly when it is not |
| StrokedText.FillShadow | ios/StrokedTextLabel.swift:52-54 | the context shadow of the fill pass: the shadow offsets, the radius as blur, and the shadow colour at the shadow opacity |
| StrokedText.DrawPasses | ios/StrokedTextLabel.swift:31-64 | two passes into the inset rectangle with the label's alignment and line break mode; the stroke pass first, in the outline colour with the outline width, round joins and the context shadow untouched; the fill pass second, in the entry text colour, with no label shadow and the context shadow set exactly when a shadow colour is set |
| StrokedText.ContextAfterDraw | ios/StrokedTextLabel.swift:40-61 | after drawing the context is in fill mode with the outline width and round joins, and a shadow the label set is cleared |
| StrokedText.ShadowDoesNotLeak | ios/StrokedTextLabel.swift:59-61 | a context without a shadow is left without one, so the next stroke pass has no shadow |
| StrokedText.RedrawRepeats | ios/StrokedTextLabel.swift:31-64 | since the text colour, shadow offset and context shadow are restored, drawing again draws the same two passes |
| StrokedText.ContentSize | ios/StrokedTextLabel.swift:66-80 | a positive custom width is the content width; with a non-negative outline and shadow radius the content is never smaller than the measured text (in width too when there is no custom width) |
| StrokedText.NoShadowNoExtra | ios/StrokedTextLabel.swift:69-70 | without a shadow colour both shadow extras are 0, whatever the offsets and radius |
| StrokedText.ExplicitWidthFixed | ios/StrokedTextLabel.swift:72-73 | a positive custom width is the content width, whatever the measured size, outline and shadow |
| StrokedText.AutoWidth | ios/StrokedTextLabel.swift:74-76 | otherwise the width is the measured width plus the outline plus the absolute horizontal offset and radius of a set shadow |
| StrokedText.HeightIgnoresCustomWidth | ios/StrokedTextLabel.swift:78-79 | the height is the measured height plus the outline and the shadow's vertical extra, independent of the custom width |
| StrokedText.OutlineInsets | ios/StrokedTextLabel.swift:15-17 | all four insets equal the outline width |
| StrokedText.InsetContentShortOfText | ios/StrokedTextLabel.swift:66-80 | as written, a label sized to its content size draws into a rectangle one outline width narrower and lower than the measured text |
| StrokedText.OutlineOfTwoClipsText | ios/StrokedTextLabel.swift:66-80 | outline 2 and measured 100 by 20 give content 102 by 22 and a drawing rectangle of 98 by 18 |
| StrokedText.FittedContentHoldsText | ios/StrokedTextLabel.swift:66-80 | with the corrected size the inset rectangle holds the measured text plus the shadow's room, exactly the text without a shadow |
| StrokedText.FittedAddsOneOutline | ios/StrokedTextLabel.swift:75-78 | the corrected size adds one more outline width per axis and keeps the custom width |
| StrokedText.StrokedTextLabel.constructor | ios/StrokedTextLabel.swift:8-28 | the declared defaults, zero insets, no line limit (`numberOfLines = 0`) |
| StrokedText.StrokedTextLabel.UpdateTextInsets | ios/StrokedTextLabel.swift:15-17 | the insets become the outline width on every side |
| StrokedText.StrokedTextLabel.IntrinsicContentSize | ios/StrokedTextLabel.swift:66-80 | a positive custom width replaces the width, otherwise outline and shadow extras are added; the height always grows by outline and shadow extra |
| StrokedText.StrokedTextLabel.DrawText | ios/StrokedTextLabel.swift:31-64 | records exactly `DrawPasses` and leaves the context as `ContextAfterDraw`; text colour and shadow offset are restored; alignment and line break mode are left as the passes used them |

## Left out

- Drawing, measuring and line breaking are not modelled. Glyph rendering,
  `Paint.measureText`, `StaticLayout` line breaking and height,
  `TextUtils.ellipsize`, `TypedValue.applyDimension`, `Color.parseColor` and
  `FontUtil.getFont` are functions of a `Platform` value. They are assumed to
  be deterministic.
- Two line-breaker assumptions are hypotheses, not proofs.
  - The line ends the breaker reports are well formed (`BreaksWellFormed`):
    non-decreasing, the last at the end of the text, and strictly
    increasing except for the empty last line after a trailing line feed.
  - `CutLines`, `CutIdempotent`, `TrimmedCutLines` and `RenderedLineCount`
    assume that a text cut at a line end re-breaks into the same leading
    lines, followed by an empty line when the cut ends in a line feed, and
    that a cut leaving out a line's final line feed re-breaks into the
    lines before it and the shortened line (`CutStable`).
- Floating point is not modelled. `float` and `CGFloat` are exact reals.
  There is no rounding, NaN or infinity.
- ColorParsing.ParseRgbaLiteral: states `(int) (v * 255)` on the exact
    value of the literal, not on its nearest `float`. An alpha whose `float`
    product falls on the other side of an integer would differ.
- `Float.parseFloat` is modelled for plain decimals only: an optional sign,
  digits and at most one point. Exponents, `f`/`d` suffixes, hexadecimal
  floats, `NaN` and `Infinity` are rejected here; Java accepts them.
  Java also trims every leading and trailing character up to U+0020 before
  parsing, while the `\s` of the strip removes only space, tab, line feed,
  vertical tab, form feed and carriage return. So an alpha field such as
  "0.5" followed by U+0001 is rejected here and accepted by Java.
- `Integer.parseInt` is modelled for ASCII digits only. Other Unicode
  decimal digits are rejected here; Java accepts them.
- Null strings are not modelled: every string is a value.
- Channels are bytes: `Alpha`, `Red`, `Green` and `Blue` return the 8-bit
  byte of the colour.
- StrokeTextLayout.AdjustedShadowAlpha: states the alpha byte only. The
  bound of the scaled alpha (within 0 and the original) is stated by
  `ShadowAlpha`.
- StaticLayout's exception on a negative width is not modelled. The model
  builds the layout whatever the width.
- `updateSize` posts to the native-modules thread and calls
  `UIManagerModule.updateNodeSize`. The model records the last size passed;
  the threading and the host's layout are not modelled.
- `invalidate()` is counted (`redrawRequests`). `setLayerType` is recorded
  as a flag (`softwareLayer`).
- `super.onDraw`, `View` itself and `StrokeTextViewManager` (the React Native
  property bridge) are not part of this model.
- StrokeText.StrokeTextView: the sixteen style fields are held as one
  `Style` value that each setter updates in one component. The paints are
  values that the methods reassign, not shared mutable objects.
- On iOS, what `UILabel.drawText(in:)` draws is recorded as a `TextPass`
  with the state it reads. `super.intrinsicContentSize` is a parameter.
  `UIColor` is its four components.
  - `withAlphaComponent` does not clamp here.
  - `inset(by:)` may give negative sizes, as the arithmetic does.
- `init?(coder:)` traps and is not modelled. The label's properties are
  plain stored properties, set directly by its owner.
- StrokeText.StrokeTextView.LayOutText: models the cut as written, line
  feed included. The corrected `TrimmedCut` and the single-scaled
  `SingleScaledCanvasWidth` (see Findings) are stated beside the view, not
  substituted into it.
- StrokedText.StrokedTextLabel.IntrinsicContentSize: models the code as
  written. The corrected `FittedContentSize` (see Findings) is stated
  beside it, not substituted into the label.

## Findings

| source | as written | input that shows it | evidently intended | confidence | as-written member | corrected member |
|---|---|---|---|---|---|---|
| ios/StrokedTextLabel.swift:66-80 | `intrinsicContentSize` adds `outlineWidth` once per axis, but `drawText` insets the text by `outlineWidth` on every side (lines 16 and 37), taking away twice that | outline 2, no shadow, no custom width, text measured at 100 by 20: content size 102 by 22, drawing rectangle 98 by 18, so the text is wrapped or truncated | add `2 * outlineWidth` per axis, so that the inset rectangle holds the measured text | medium; not executed | StrokedText.InsetContentShortOfText | StrokedText.FittedContentHoldsText |
| android/src/main/java/com/stroketext/StrokeTextView.java:76-79 | the cut keeps the line feed that ends the last allowed line, and a `StaticLayout` adds an empty line after a trailing line feed | `a\nb\nc` with `numberOfLines` 1: cut to `a\n`, which lays out as two lines, the second empty, so the view is one line taller than the limit | cut before that line feed, so the layout has exactly `numberOfLines` lines | medium; not executed | StrokeTextLayout.CutKeepsLineFeed | StrokeTextLayout.TrimmedCutLines |
| android/src/main/java/com/stroketext/StrokeTextView.java:107 | `getScaledSize(strokeWidth)` scales a width that `setStrokeWidth` (line 191) already scaled, while the stroke paint draws with the stored width (line 68) | stroke width 4 at a text scale of 2: stored 8, the stroke paint draws 8 wide, and the canvas adds 8 rather than 4 | add half the stored width, `strokeWidth / 2` | low; not executed | StrokeTextLayout.StrokeMarginScaledTwice | StrokeTextLayout.CanvasHoldsHalfStroke |
