/** Colour strings of the Android view (`StrokeTextView.parseColor` and
    `parseRgbColor`) and the packing of `android.graphics.Color.argb`.
    A colour is the bit pattern of a Java `int` in ARGB order. */
module ColorParsing {
  import opened JavaLang

  /** The exception a colour string makes the view throw. */
  datatype ColorError =
    | UnknownColor(color: string)   // IllegalArgumentException from Color.parseColor
    | IndexOutOfBounds(index: nat)  // a missing field of an rgb(...) string
    | NumberFormat(field: string)   // a field that is not a number

  /** What an unsupported colour string stands for. */
  const OPAQUE_BLACK: bv32 := 0xFF00_0000

  predicate StartsWith(s: string, prefix: string) {
    prefix <= s
  }

  /** `Color.argb(a, r, g, b)`: `(a << 24) | (r << 16) | (g << 8) | b` on
      32-bit ints, without masking the components. */
  function Argb(a: int, r: int, g: int, b: int): bv32 {
    (Bits(a) << 24) | (Bits(r) << 16) | (Bits(g) << 8) | Bits(b)
  }

  /** The packed colour's low byte is blue's, and every bit of each shifted
      component is set in it: nothing is masked, so a component past its
      byte spills into the next one up. */
  lemma ArgbOred(a: int, r: int, g: int, b: int)
    ensures Argb(a, r, g, b) & 0xFF == Bits(b) & 0xFF
    ensures Argb(a, r, g, b) & (Bits(a) << 24) == Bits(a) << 24
    ensures Argb(a, r, g, b) & (Bits(r) << 16) == Bits(r) << 16
    ensures Argb(a, r, g, b) & (Bits(g) << 8) == Bits(g) << 8
  {
    OredWords(Bits(a), Bits(r), Bits(g), Bits(b));
  }

  lemma OredWords(a: bv32, r: bv32, g: bv32, b: bv32)
    ensures var c := (a << 24) | (r << 16) | (g << 8) | b;
      && c & 0xFF == b & 0xFF
      && c & (a << 24) == a << 24 && c & (r << 16) == r << 16 && c & (g << 8) == g << 8
  {
  }

  /** The bytes of a colour. */
  function Alpha(c: bv32): bv8 { ((c >> 24) & 0xFF) as bv8 }
  function Red(c: bv32): bv8 { ((c >> 16) & 0xFF) as bv8 }
  function Green(c: bv32): bv8 { ((c >> 8) & 0xFF) as bv8 }
  function Blue(c: bv32): bv8 { (c & 0xFF) as bv8 }

  lemma PackedChannels(a: bv8, r: bv8, g: bv8, b: bv8)
    ensures var c := ((a as bv32) << 24) | ((r as bv32) << 16) | ((g as bv32) << 8) | (b as bv32);
      && ((c >> 24) & 0xFF) as bv8 == a && ((c >> 16) & 0xFF) as bv8 == r
      && ((c >> 8) & 0xFF) as bv8 == g && (c & 0xFF) as bv8 == b
  {
  }

  /** Components in 0..255 are packed into their own bytes and read back unchanged. */
  lemma ArgbChannels(a: int, r: int, g: int, b: int)
    requires 0 <= a < 256 && 0 <= r < 256 && 0 <= g < 256 && 0 <= b < 256
    ensures Alpha(Argb(a, r, g, b)) == a as bv8 && Red(Argb(a, r, g, b)) == r as bv8
    ensures Green(Argb(a, r, g, b)) == g as bv8 && Blue(Argb(a, r, g, b)) == b as bv8
  {
    ByteBits(a);
    ByteBits(r);
    ByteBits(g);
    ByteBits(b);
    PackedChannels(a as bv8, r as bv8, g as bv8, b as bv8);
  }

  // ---------------------------------------------------------------------------
  // rgb(...) strings

  /** The characters of the class `[rgba()\s]`; `\s` is Java's
      `[ \t\n\x0B\f\r]`. */
  predicate IsRgbSyntax(c: char) {
    c in "rgba()" || c == ' ' || c == '\t' || c == '\n' || c == '\U{0B}' || c == '\U{0C}' || c == '\r'
  }

  /** `color.replaceAll("[rgba()\\s]", "")`. */
  function StripRgbSyntax(s: string): (t: string)
    ensures |t| <= |s|
    ensures forall i :: 0 <= i < |t| ==> !IsRgbSyntax(t[i])
    decreases |s|
  {
    if s == [] then ""
    else (if IsRgbSyntax(s[0]) then "" else [s[0]]) + StripRgbSyntax(s[1..])
  }

  lemma {:induction false} StripConcat(a: string, b: string)
    ensures StripRgbSyntax(a + b) == StripRgbSyntax(a) + StripRgbSyntax(b)
    decreases |a|
  {
    if a != [] {
      assert (a + b)[0] == a[0];
      assert (a + b)[1..] == a[1..] + b;
      StripConcat(a[1..], b);
    } else {
      assert a + b == b;
    }
  }

  /** Text with none of the stripped characters. */
  predicate Kept(s: string) {
    forall i :: 0 <= i < |s| ==> !IsRgbSyntax(s[i])
  }

  /** A string without any of the stripped characters is left as it is. */
  lemma {:induction false} StripKeeps(s: string)
    requires Kept(s)
    ensures StripRgbSyntax(s) == s
    decreases |s|
  {
    if s != [] {
      StripKeeps(s[1..]);
      assert [s[0]] + s[1..] == s;
    }
  }

  /** The comma-separated fields of an rgb(...) string after stripping. */
  function RgbFields(color: string): seq<string> {
    Split(StripRgbSyntax(color), ',')
  }

  /** `Integer.parseInt(parts[i])`. */
  function ParseIntField(parts: seq<string>, i: nat): (r: Result<int, ColorError>)
    ensures r.Ok? <==> i < |parts| && ParseInt(parts[i]).Some?
    ensures r.Ok? ==> r.value == ParseInt(parts[i]).value
  {
    if |parts| <= i then Err(IndexOutOfBounds(i))
    else match ParseInt(parts[i])
      case None => Err(NumberFormat(parts[i]))
      case Some(v) => Ok(v)
  }

  /** `(int) (Float.parseFloat(field) * 255)`. */
  function ParseAlphaField(field: string): (r: Result<int, ColorError>)
    ensures r.Ok? <==> ParseDecimal(field).Some?
    ensures r.Ok? ==> r.value == FloatToInt(ParseDecimal(field).value * 255.0)
  {
    match ParseDecimal(field)
    case None => Err(NumberFormat(field))
    case Some(v) => Ok(FloatToInt(v * 255.0))
  }

  /** The body of `parseRgbColor` after the split: red, green and blue from
      the first three fields, alpha from a fourth if there is one (further
      fields are ignored), opaque otherwise. A missing or malformed field
      makes it throw. */
  function ParseRgbParts(parts: seq<string>): (r: Result<bv32, ColorError>)
    ensures |parts| < 3 ==> r.Err?
    ensures |parts| < 3 && (forall i :: 0 <= i < |parts| ==> ParseInt(parts[i]).Some?) ==>
      r == Err(IndexOutOfBounds(|parts|))
    ensures r.Ok? <==>
      && |parts| >= 3
      && ParseInt(parts[0]).Some? && ParseInt(parts[1]).Some? && ParseInt(parts[2]).Some?
      && (|parts| > 3 ==> ParseDecimal(parts[3]).Some?)
    ensures r.Ok? ==>
      r.value == Argb(if |parts| > 3 then FloatToInt(ParseDecimal(parts[3]).value * 255.0) else 255,
                      ParseInt(parts[0]).value, ParseInt(parts[1]).value, ParseInt(parts[2]).value)
  {
    var red :- ParseIntField(parts, 0);
    var green :- ParseIntField(parts, 1);
    var blue :- ParseIntField(parts, 2);
    var alpha :- if |parts| > 3 then ParseAlphaField(parts[3]) else Ok(255);
    Ok(Argb(alpha, red, green, blue))
  }

  /** `parseRgbColor`: the colour of the comma-separated fields left once the
      `rgba()` characters and whitespace are stripped. */
  function ParseRgbColor(color: string): (r: Result<bv32, ColorError>)
    ensures var parts := RgbFields(color);
      r.Ok? <==>
        && |parts| >= 3
        && ParseInt(parts[0]).Some? && ParseInt(parts[1]).Some? && ParseInt(parts[2]).Some?
        && (|parts| > 3 ==> ParseDecimal(parts[3]).Some?)
    ensures var parts := RgbFields(color);
      r.Ok? ==>
        r.value == Argb(if |parts| > 3 then FloatToInt(ParseDecimal(parts[3]).value * 255.0) else 255,
                        ParseInt(parts[0]).value, ParseInt(parts[1]).value, ParseInt(parts[2]).value)
  {
    ParseRgbParts(RgbFields(color))
  }

  /** `parseColor`: hexadecimal strings go to `Color.parseColor` (`hex`),
      rgb strings to `parseRgbColor`, anything else is opaque black. */
  function ParseColor(hex: string -> Option<bv32>, color: string): (r: Result<bv32, ColorError>)
    ensures !StartsWith(color, "#") && !StartsWith(color, "rgb") ==> r == Ok(OPAQUE_BLACK)
    ensures StartsWith(color, "#") ==> (r.Ok? <==> hex(color).Some?)
    ensures StartsWith(color, "#") && r.Ok? ==> r.value == hex(color).value
    ensures !StartsWith(color, "#") && StartsWith(color, "rgb") ==> r == ParseRgbColor(color)
  {
    if StartsWith(color, "#") then
      match hex(color)
      case None => Err(UnknownColor(color))
      case Some(c) => Ok(c)
    else if StartsWith(color, "rgb") then ParseRgbColor(color)
    else Ok(OPAQUE_BLACK)
  }

  // ---------------------------------------------------------------------------
  // rgb and rgba literals

  function RgbLiteral(r: int, g: int, b: int): string {
    "rgb(" + (FormatInt(r) + "," + FormatInt(g) + "," + FormatInt(b)) + ")"
  }

  function RgbaLiteral(r: int, g: int, b: int, alpha: string): string {
    "rgba(" + (FormatInt(r) + "," + FormatInt(g) + "," + FormatInt(b) + "," + alpha) + ")"
  }

  /** Text that survives stripping and holds no comma. */
  predicate PlainField(s: string) {
    Kept(s) && ',' !in s
  }

  lemma FormatIntPlain(x: int)
    ensures PlainField(FormatInt(x))
  {
    var s := FormatInt(x);
    forall i | 0 <= i < |s| ensures !IsRgbSyntax(s[i]) && s[i] != ',' {
      assert IsDigit(s[i]) || s[i] == '-';
    }

  }

  /** Text made only of stripped characters, such as white space. */
  predicate Blank(s: string) {
    forall i :: 0 <= i < |s| ==> IsRgbSyntax(s[i])
  }

  /** A string made only of stripped characters disappears. */
  lemma {:induction false} StripDrops(s: string)
    requires Blank(s)
    ensures StripRgbSyntax(s) == ""
    decreases |s|
  {
    if s != [] {
      StripDrops(s[1..]);
    }
  }

  /** The opening `rgb(` or `rgba(` and the closing parenthesis are stripped,
      the comma-separated fields are kept. */
  lemma StripWrapped(open: string, body: string)
    requires open == "rgb(" || open == "rgba("
    requires Kept(body)
    ensures StripRgbSyntax(open + body + ")") == body
  {
    StripParens(open, body);
    StripKeeps(body);
  }

  /** Stripping `open + body + ")"` leaves what stripping the body leaves. */
  lemma StripParens(open: string, body: string)
    requires open == "rgb(" || open == "rgba("
    ensures StripRgbSyntax(open + body + ")") == StripRgbSyntax(body)
  {
    StripDrops(open);
    StripDrops(")");
    StripConcat(open + body, ")");
    StripConcat(open, body);
    assert StripRgbSyntax(open + body) + "" == StripRgbSyntax(open + body);
  }

  lemma JoinedPlain(a: string, b: string)
    requires Kept(a) && PlainField(b)
    ensures Kept(a + "," + b)
  {
    var s := a + "," + b;
    forall i | 0 <= i < |s| ensures !IsRgbSyntax(s[i]) {
      if i < |a| {
        assert s[i] == a[i];
      } else if i > |a| {
        assert s[i] == b[i - |a| - 1];
      }
    }
  }

  lemma RgbLiteralFields(r: int, g: int, b: int)
    ensures RgbFields(RgbLiteral(r, g, b)) == [FormatInt(r), FormatInt(g), FormatInt(b)]
  {
    var fr, fg, fb := FormatInt(r), FormatInt(g), FormatInt(b);
    FormatIntPlain(r);
    FormatIntPlain(g);
    FormatIntPlain(b);
    JoinedPlain(fr, fg);
    JoinedPlain(fr + "," + fg, fb);
    var body := fr + "," + fg + "," + fb;
    StripWrapped("rgb(", body);
    SplitThree(fr, fg, fb, ',');
  }

  lemma RgbaLiteralFields(r: int, g: int, b: int, alpha: string)
    requires alpha != "" && PlainField(alpha)
    ensures RgbFields(RgbaLiteral(r, g, b, alpha)) == [FormatInt(r), FormatInt(g), FormatInt(b), alpha]
  {
    var fr, fg, fb := FormatInt(r), FormatInt(g), FormatInt(b);
    FormatIntPlain(r);
    FormatIntPlain(g);
    FormatIntPlain(b);
    JoinedPlain(fr, fg);
    JoinedPlain(fr + "," + fg, fb);
    JoinedPlain(fr + "," + fg + "," + fb, alpha);
    var body := fr + "," + fg + "," + fb + "," + alpha;
    StripWrapped("rgba(", body);
    SplitFour(fr, fg, fb, alpha, ',');
  }

  /** Fields that are the decimal forms of three ints parse to those ints. */
  lemma ParseRgbFields(parts: seq<string>, r: int, g: int, b: int, alpha: int)
    requires IsInt(r) && IsInt(g) && IsInt(b)
    requires |parts| >= 3
    requires parts[0] == FormatInt(r) && parts[1] == FormatInt(g) && parts[2] == FormatInt(b)
    requires |parts| == 3 ==> alpha == 255
    requires |parts| > 3 ==> ParseAlphaField(parts[3]) == Ok(alpha)
    ensures ParseRgbParts(parts) == Ok(Argb(alpha, r, g, b))
  {
    ParseFormatInt(r);
    ParseFormatInt(g);
    ParseFormatInt(b);
    assert ParseIntField(parts, 0) == Ok(r);
    assert ParseIntField(parts, 1) == Ok(g);
    assert ParseIntField(parts, 2) == Ok(b);
  }

  /** A string opening with `rgb(` or `rgba(` goes to `parseRgbColor`. */
  lemma RgbDispatch(hex: string -> Option<bv32>, open: string, body: string)
    requires open == "rgb(" || open == "rgba("
    ensures ParseColor(hex, open + body + ")") == ParseRgbColor(open + body + ")")
  {
    var s := open + body + ")";
    assert s[0] == 'r' && s[1] == 'g' && s[2] == 'b';
    assert s[..3] == "rgb";
    assert !StartsWith(s, "#");
  }

  /** An `rgb(r,g,b)` literal parses to the opaque colour packed from its
      three components, whatever their range. */
  lemma ParseRgbLiteral(hex: string -> Option<bv32>, r: int, g: int, b: int)
    requires IsInt(r) && IsInt(g) && IsInt(b)
    ensures ParseColor(hex, RgbLiteral(r, g, b)) == Ok(Argb(255, r, g, b))
  {
    var lit := RgbLiteral(r, g, b);
    RgbLiteralFields(r, g, b);
    ParseRgbFields(RgbFields(lit), r, g, b, 255);
    RgbDispatch(hex, "rgb(", FormatInt(r) + "," + FormatInt(g) + "," + FormatInt(b));
  }

  /** An `rgba(r,g,b,a)` literal whose alpha field is a plain decimal `v`
      parses to the colour with alpha `(int) (v * 255)`. */
  lemma ParseRgbaLiteral(hex: string -> Option<bv32>, r: int, g: int, b: int, alpha: string)
    requires IsInt(r) && IsInt(g) && IsInt(b)
    requires alpha != "" && PlainField(alpha) && ParseDecimal(alpha).Some?
    ensures ParseColor(hex, RgbaLiteral(r, g, b, alpha))
         == Ok(Argb(FloatToInt(ParseDecimal(alpha).value * 255.0), r, g, b))
  {
    var lit := RgbaLiteral(r, g, b, alpha);
    var a := FloatToInt(ParseDecimal(alpha).value * 255.0);
    RgbaLiteralFields(r, g, b, alpha);
    assert ParseAlphaField(alpha) == Ok(a);
    ParseRgbFields(RgbFields(lit), r, g, b, a);
    RgbDispatch(hex, "rgba(", FormatInt(r) + "," + FormatInt(g) + "," + FormatInt(b) + "," + alpha);
  }

  /** An `rgb(...)` literal with white space (or any other stripped text)
      after its commas. */
  function PaddedRgbLiteral(r: int, g: int, b: int, pad: string): string {
    "rgb(" + (FormatInt(r) + "," + pad + FormatInt(g) + "," + pad + FormatInt(b)) + ")"
  }

  /** Text that survives stripping, followed by stripped text and more,
      keeps only the first text and what the rest leaves. */
  lemma StripPadded(kept: string, pad: string, rest: string)
    requires Kept(kept) && Blank(pad)
    ensures StripRgbSyntax(kept + pad + rest) == kept + StripRgbSyntax(rest)
  {
    StripConcat(kept + pad, rest);
    StripConcat(kept, pad);
    StripKeeps(kept);
    StripDrops(pad);
    assert kept + "" == kept;
  }

  lemma KeptField(s: string)
    requires PlainField(s)
    ensures Kept(s + ",")
  {
    assert forall i :: 0 <= i < |s| ==> (s + ",")[i] == s[i];
  }

  /** Three comma-separated fields with stripped text after each comma
      lose only that text. */
  lemma StripPaddedBody(fr: string, fg: string, fb: string, pad: string)
    requires PlainField(fr) && PlainField(fg) && PlainField(fb) && Blank(pad)
    ensures StripRgbSyntax(fr + "," + pad + fg + "," + pad + fb) == fr + "," + fg + "," + fb
  {
    var a, b := fr + ",", fg + ",";
    assert a + pad + (b + pad + fb) == fr + "," + pad + fg + "," + pad + fb;
    assert a + (b + fb) == fr + "," + fg + "," + fb;
    KeptField(fr);
    KeptField(fg);
    StripPadded(b, pad, fb);
    StripKeeps(fb);
    StripPadded(a, pad, b + pad + fb);
  }

  /** White space after the commas of an `rgb(...)` literal is stripped
      before the split, so the padded literal parses as the plain one. */
  lemma ParsePaddedRgbLiteral(hex: string -> Option<bv32>, r: int, g: int, b: int, pad: string)
    requires IsInt(r) && IsInt(g) && IsInt(b)
    requires Blank(pad)
    ensures ParseColor(hex, PaddedRgbLiteral(r, g, b, pad)) == Ok(Argb(255, r, g, b))
  {
    var fr, fg, fb := FormatInt(r), FormatInt(g), FormatInt(b);
    FormatIntPlain(r);
    FormatIntPlain(g);
    FormatIntPlain(b);
    var padded := fr + "," + pad + fg + "," + pad + fb;
    StripPaddedBody(fr, fg, fb, pad);
    StripParens("rgb(", padded);
    SplitThree(fr, fg, fb, ',');
    ParseRgbFields(RgbFields(PaddedRgbLiteral(r, g, b, pad)), r, g, b, 255);
    RgbDispatch(hex, "rgb(", padded);
  }

  /** `rgba(r,g,b,1)` is the same colour as `rgb(r,g,b)`. */
  lemma OpaqueRgbaLiteral(hex: string -> Option<bv32>, r: int, g: int, b: int)
    requires IsInt(r) && IsInt(g) && IsInt(b)
    ensures ParseColor(hex, RgbaLiteral(r, g, b, "1")) == ParseColor(hex, RgbLiteral(r, g, b))
  {
    assert AllDigits("1") && DigitsValue("1") == 1 by {
      assert "1"[..0] == "";
    }
    ParseDecimalOfDigits("1");
    assert PlainField("1");
    ParseRgbaLiteral(hex, r, g, b, "1");
    ParseRgbLiteral(hex, r, g, b);
  }

  /** With in-range components, `rgb(r,g,b)` is opaque and carries its
      components unchanged. */
  lemma RgbLiteralChannels(hex: string -> Option<bv32>, r: int, g: int, b: int)
    requires 0 <= r < 256 && 0 <= g < 256 && 0 <= b < 256
    ensures ParseColor(hex, RgbLiteral(r, g, b)).Ok?
    ensures var c := ParseColor(hex, RgbLiteral(r, g, b)).value;
      Alpha(c) == 0xFF && Red(c) == r as bv8 && Green(c) == g as bv8 && Blue(c) == b as bv8
  {
    ParseRgbLiteral(hex, r, g, b);
    ArgbChannels(255, r, g, b);
  }

  /** The colour an `rgba(r,g,b,v)` literal parses to (`ParseRgbaLiteral`),
      with in-range components and `v` in [0, 1]: its alpha byte is `v * 255`
      truncated (not rounded), its other bytes the components unchanged. */
  lemma ScaledAlphaChannels(v: real, r: int, g: int, b: int)
    requires 0 <= r < 256 && 0 <= g < 256 && 0 <= b < 256
    requires 0.0 <= v <= 1.0
    ensures var c := Argb(FloatToInt(v * 255.0), r, g, b);
      && Alpha(c) == (v * 255.0).Floor as bv8
      && Red(c) == r as bv8 && Green(c) == g as bv8 && Blue(c) == b as bv8
  {
    AlphaFieldRange(v);
    ArgbChannels(FloatToInt(v * 255.0), r, g, b);
  }

  /** An alpha in [0, 1] times 255, cast to `int`, is its floor, a byte value. */
  lemma AlphaFieldRange(v: real)
    requires 0.0 <= v <= 1.0
    ensures FloatToInt(v * 255.0) == (v * 255.0).Floor
    ensures 0 <= (v * 255.0).Floor <= 255
  {
    var x := v * 255.0;
    assert 0.0 <= x <= 255.0;
    assert x.Floor as real <= x;
  }

  lemma ArgbOfRed256()
    ensures Argb(255, 256, 0, 0) == OPAQUE_BLACK
  {
    assert Bits(255) == 0xFF && Bits(256) == 0x100 && Bits(0) == 0;
  }

  /** Out-of-range components are not masked: a red of 256 spills into the
      alpha byte, and `rgb(256,0,0)` comes out as opaque black. */
  lemma RedOverflowSpillsIntoAlpha(hex: string -> Option<bv32>)
    ensures ParseColor(hex, RgbLiteral(256, 0, 0)) == Ok(OPAQUE_BLACK)
  {
    ParseRgbLiteral(hex, 256, 0, 0);
    ArgbOfRed256();
  }
}
