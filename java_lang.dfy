/** The parts of the Java runtime that the Android view relies on: 32-bit `int`
    arithmetic, the `(int)` narrowing of a floating-point value, `Math.ceil`,
    `String.split` with a one-character separator, `Integer.parseInt` and the
    plain decimal forms accepted by `Float.parseFloat`. */
module JavaLang {

  datatype Option<+T> = None | Some(value: T)

  datatype Result<+T, +E> = Ok(value: T) | Err(error: E) {
    predicate IsFailure() {
      Err?
    }

    function PropagateFailure<U>(): Result<U, E>
      requires Err?
    {
      Err(error)
    }

    function Extract(): T
      requires Ok?
    {
      value
    }
  }

  /** How a call without a result ended: normally, or by throwing. */
  datatype Outcome<+E> = Pass | Fail(error: E)

  // ---------------------------------------------------------------------------
  // 32-bit integers

  const INT_MIN: int := -0x8000_0000
  const INT_MAX: int := 0x7fff_ffff
  const TWO_32: int := 0x1_0000_0000

  predicate IsInt(x: int) {
    INT_MIN <= x <= INT_MAX
  }

  /** The bit pattern of the low 32 bits of `x` (two's complement). */
  function Bits(x: int): bv32 {
    (x % TWO_32) as bv32
  }

  /** A number in 0..255 has the same 32-bit pattern as its byte. */
  lemma ByteBits(x: int)
    requires 0 <= x < 256
    ensures Bits(x) == (x as bv8) as bv32
  {
    BitsOfSmall(x);
    WidenByte(x);
  }

  lemma BitsOfSmall(x: int)
    requires 0 <= x < 256
    ensures Bits(x) == x as bv32
  {
    assert x % TWO_32 == x;
  }

  lemma WidenByte(x: int)
    requires 0 <= x < 256
    ensures (x as bv8) as bv32 == x as bv32
  {
  }

  /** `int` addition, which wraps around on overflow. */
  function AddInt(x: int, y: int): (s: int)
    ensures IsInt(s)
    ensures (s - (x + y)) % TWO_32 == 0
    ensures IsInt(x + y) ==> s == x + y
  {
    var t := (x + y) % TWO_32;
    if t <= INT_MAX then t else t - TWO_32
  }

  // ---------------------------------------------------------------------------
  // floating point to integer

  /** Rounding toward zero. */
  function Truncate(x: real): (n: int)
    ensures 0.0 <= x ==> n as real <= x < n as real + 1.0
    ensures x < 0.0 ==> n as real - 1.0 < x <= n as real
  {
    if 0.0 <= x then x.Floor else -((-x).Floor)
  }

  /** `Math.ceil`, whose result is integral. */
  function Ceiling(x: real): (n: int)
    ensures n as real - 1.0 < x <= n as real
  {
    -((-x).Floor)
  }

  /** The `(int)` cast of a finite `float` or `double`: truncate toward zero,
      then saturate at the ends of the `int` range. */
  function FloatToInt(x: real): (n: int)
    ensures IsInt(n)
    ensures IsInt(Truncate(x)) ==> n == Truncate(x)
    ensures INT_MAX < Truncate(x) ==> n == INT_MAX
    ensures Truncate(x) < INT_MIN ==> n == INT_MIN
  {
    var t := Truncate(x);
    if t < INT_MIN then INT_MIN else if INT_MAX < t then INT_MAX else t
  }

  // ---------------------------------------------------------------------------
  // String.split with a one-character separator

  /** Every field of `s` between separators, empty ones included. */
  function Fields(s: string, sep: char): (fs: seq<string>)
    ensures |fs| >= 1
    ensures forall i :: 0 <= i < |fs| ==> sep !in fs[i]
    decreases |s|
  {
    if s == [] then [""]
    else if s[0] == sep then [""] + Fields(s[1..], sep)
    else
      var rest := Fields(s[1..], sep);
      [[s[0]] + rest[0]] + rest[1..]
  }

  /** The fields joined back together with the separator between them. */
  function Join(fs: seq<string>, sep: char): string
    decreases |fs|
  {
    if fs == [] then ""
    else if |fs| == 1 then fs[0]
    else fs[0] + [sep] + Join(fs[1..], sep)
  }

  /** Splitting and joining give back the original string. */
  lemma {:induction false} JoinFields(s: string, sep: char)
    ensures Join(Fields(s, sep), sep) == s
    decreases |s|
  {
    if s == [] {
    } else if s[0] == sep {
      JoinFields(s[1..], sep);
      var rest := Fields(s[1..], sep);
      assert Fields(s, sep) == [""] + rest;
      assert ([""] + rest)[1..] == rest;
    } else {
      JoinFields(s[1..], sep);
      var rest := Fields(s[1..], sep);
      var fs := Fields(s, sep);
      assert fs == [[s[0]] + rest[0]] + rest[1..];
      if |rest| == 1 {
        assert Join(fs, sep) == [s[0]] + rest[0] == [s[0]] + Join(rest, sep);
      } else {
        assert fs[1..] == rest[1..];
        assert Join(fs, sep) == [s[0]] + rest[0] + [sep] + Join(rest[1..], sep);
        assert Join(rest, sep) == rest[0] + [sep] + Join(rest[1..], sep);
      }
      assert s == [s[0]] + s[1..];
    }
  }

  /** A field followed by the separator splits off as the first field. */
  lemma {:induction false} FieldsOfPrefixed(a: string, sep: char, rest: string)
    requires sep !in a
    ensures Fields(a + [sep] + rest, sep) == [a] + Fields(rest, sep)
    decreases |a|
  {
    if a == [] {
      assert a + [sep] + rest == [sep] + rest;
      assert ([sep] + rest)[1..] == rest;
    } else {
      var s := a + [sep] + rest;
      assert s[0] == a[0] && s[1..] == a[1..] + [sep] + rest;
      FieldsOfPrefixed(a[1..], sep, rest);
      assert [a[0]] + a[1..] == a;
    }
  }

  /** A string without the separator is a single field. */
  lemma {:induction false} FieldsOfPlain(a: string, sep: char)
    requires sep !in a
    ensures Fields(a, sep) == [a]
    decreases |a|
  {
    if a != [] {
      FieldsOfPlain(a[1..], sep);
      assert [a[0]] + a[1..] == a;
    }
  }

  /** The fields with the trailing empty ones removed. */
  function DropTrailingEmpty(fs: seq<string>): (r: seq<string>)
    ensures |r| <= |fs| && r == fs[..|r|]
    ensures r == [] || r[|r| - 1] != ""
    ensures forall i :: |r| <= i < |fs| ==> fs[i] == ""
    decreases |fs|
  {
    if fs == [] then []
    else if fs[|fs| - 1] == "" then DropTrailingEmpty(fs[..|fs| - 1])
    else fs
  }

  /** `s.split(sep)` for a separator that is not a regular-expression
      metacharacter: a string without the separator is returned whole (even the
      empty string); otherwise its fields, without the trailing empty ones. */
  function Split(s: string, sep: char): (parts: seq<string>)
    ensures sep !in s ==> parts == [s]
    ensures sep in s ==> parts == DropTrailingEmpty(Fields(s, sep))
    ensures forall i :: 0 <= i < |parts| ==> sep !in parts[i]
  {
    if sep !in s then [s] else DropTrailingEmpty(Fields(s, sep))
  }

  /** Three non-empty fields joined by the separator split back into themselves. */
  lemma SplitThree(a: string, b: string, c: string, sep: char)
    requires sep !in a && sep !in b && sep !in c && c != ""
    ensures Split(a + [sep] + b + [sep] + c, sep) == [a, b, c]
  {
    var s2 := b + [sep] + c;
    var s := a + [sep] + s2;
    assert a + [sep] + b + [sep] + c == s;
    FieldsOfPlain(c, sep);
    FieldsOfPrefixed(b, sep, c);
    assert Fields(s2, sep) == [b, c];
    FieldsOfPrefixed(a, sep, s2);
    assert Fields(s, sep) == [a, b, c];
    assert s[|a|] == sep;
  }

  /** Four fields, the last one non-empty, split back into themselves. */
  lemma SplitFour(a: string, b: string, c: string, d: string, sep: char)
    requires sep !in a && sep !in b && sep !in c && sep !in d && d != ""
    ensures Split(a + [sep] + b + [sep] + c + [sep] + d, sep) == [a, b, c, d]
  {
    var s3 := c + [sep] + d;
    var s2 := b + [sep] + s3;
    var s := a + [sep] + s2;
    assert a + [sep] + b + [sep] + c + [sep] + d == s;
    FieldsOfPlain(d, sep);
    FieldsOfPrefixed(c, sep, d);
    assert Fields(s3, sep) == [c, d];
    FieldsOfPrefixed(b, sep, s3);
    assert Fields(s2, sep) == [b, c, d];
    FieldsOfPrefixed(a, sep, s2);
    assert Fields(s, sep) == [a, b, c, d];
    assert s[|a|] == sep;
  }

  // ---------------------------------------------------------------------------
  // Integer.parseInt and Integer.toString (decimal, ASCII digits)

  predicate IsDigit(c: char) {
    '0' <= c <= '9'
  }

  predicate AllDigits(s: string) {
    forall i :: 0 <= i < |s| ==> IsDigit(s[i])
  }

  function DigitChar(d: nat): (c: char)
    requires d < 10
    ensures IsDigit(c)
  {
    ('0' as int + d) as char
  }

  /** The number a run of decimal digits denotes. */
  function DigitsValue(s: string): nat
    requires AllDigits(s)
    decreases |s|
  {
    if s == [] then 0
    else DigitsValue(s[..|s| - 1]) * 10 + (s[|s| - 1] as int - '0' as int)
  }

  /** The decimal digits of `n`, without leading zeros. */
  function DigitsOf(n: nat): (s: string)
    ensures |s| >= 1 && AllDigits(s)
    decreases n
  {
    if n < 10 then [DigitChar(n)] else DigitsOf(n / 10) + [DigitChar(n % 10)]
  }

  lemma {:induction false} DigitsRoundTrip(n: nat)
    ensures DigitsValue(DigitsOf(n)) == n
    decreases n
  {
    if 10 <= n {
      DigitsRoundTrip(n / 10);
      var s := DigitsOf(n);
      assert s[..|s| - 1] == DigitsOf(n / 10);
    }
  }

  /** `Integer.toString`. */
  function FormatInt(x: int): (s: string)
    ensures forall i :: 0 <= i < |s| ==> IsDigit(s[i]) || s[i] == '-'
    ensures s != ""
  {
    if x < 0 then "-" + DigitsOf(-x) else DigitsOf(x)
  }

  /** `Integer.parseInt(s)`: an optional sign and at least one digit, whose
      value fits an `int`; anything else throws `NumberFormatException`
      (here `None`). */
  function ParseInt(s: string): (r: Option<int>)
    ensures r.Some? ==> IsInt(r.value)
    ensures r.Some? ==> s != "" && (AllDigits(s) || (s[0] in "+-" && AllDigits(s[1..])))
    ensures s != "" && AllDigits(s) ==>
      (r.Some? <==> DigitsValue(s) <= INT_MAX) && (r.Some? ==> r.value == DigitsValue(s))
    ensures |s| >= 2 && s[0] == '+' && AllDigits(s[1..]) ==>
      (r.Some? <==> DigitsValue(s[1..]) <= INT_MAX) && (r.Some? ==> r.value == DigitsValue(s[1..]))
    ensures |s| >= 2 && s[0] == '-' && AllDigits(s[1..]) ==>
      (r.Some? <==> DigitsValue(s[1..]) <= -INT_MIN) && (r.Some? ==> r.value == -(DigitsValue(s[1..]) as int))
  {
    if s == [] then None
    else
      var digits := if s[0] == '-' || s[0] == '+' then s[1..] else s;
      if digits == [] || !AllDigits(digits) then None
      else
        var n: int := DigitsValue(digits);
        var v := if s[0] == '-' then -n else n;
        if IsInt(v) then Some(v) else None
  }

  /** What `Integer.toString` prints, `Integer.parseInt` reads back. */
  lemma ParseFormatInt(x: int)
    requires IsInt(x)
    ensures ParseInt(FormatInt(x)) == Some(x)
  {
    if x < 0 {
      DigitsRoundTrip(-x);
      assert FormatInt(x)[1..] == DigitsOf(-x);
    } else {
      DigitsRoundTrip(x);
    }
  }

  // ---------------------------------------------------------------------------
  // Float.parseFloat, plain decimal literals only

  function Pow10(n: nat): (p: nat)
    ensures p >= 1
  {
    if n == 0 then 1 else 10 * Pow10(n - 1)
  }

  /** The value of an unsigned decimal literal `whole.frac` (either part may be empty). */
  function DecimalValue(whole: string, frac: string): (v: real)
    requires AllDigits(whole) && AllDigits(frac)
    ensures 0.0 <= v
  {
    DigitsValue(whole) as real + DigitsValue(frac) as real / Pow10(|frac|) as real
  }

  /** `s` without its leading sign character, if it has one. */
  function Unsigned(s: string): (u: string)
    ensures s != [] && s[0] in "+-" ==> u == s[1..]
    ensures s == [] || s[0] !in "+-" ==> u == s
  {
    if s != [] && (s[0] == '-' || s[0] == '+') then s[1..] else s
  }

  /** `v` negated when `s` starts with a minus sign. */
  function Signed(s: string, v: real): real {
    if s != [] && s[0] == '-' then -v else v
  }

  /** An unsigned plain decimal literal: digits with at most one decimal
      point, and at least one digit (so neither "" nor "."). */
  predicate PlainDecimal(u: string) {
    && u != "" && u != "."
    && (forall i :: 0 <= i < |u| ==> IsDigit(u[i]) || u[i] == '.')
    && (forall i, j :: 0 <= i < j < |u| && u[i] == '.' ==> u[j] != '.')
  }

  /** The value of an unsigned plain decimal literal, `None` for anything else. */
  function UnsignedDecimal(u: string): (r: Option<real>)
    ensures r.Some? <==> PlainDecimal(u)
    ensures r.Some? ==> 0.0 <= r.value
    ensures r.Some? && AllDigits(u) ==> r.value == DigitsValue(u) as real
    ensures forall k :: r.Some? && 0 <= k < |u| && u[k] == '.' ==>
      && AllDigits(u[..k]) && AllDigits(u[k + 1..])
      && r.value == DecimalValue(u[..k], u[k + 1..])
  {
    DecimalFields(u);
    var parts := Fields(u, '.');
    var whole := parts[0];
    var frac := if |parts| == 2 then parts[1] else "";
    if 2 < |parts| || !AllDigits(whole) || !AllDigits(frac) || |whole| + |frac| == 0 then None
    else Some(DecimalValue(whole, frac))
  }

  /** `Float.parseFloat(s)` on plain decimals: an optional sign, then digits
      with at most one decimal point and at least one digit. The value is the
      exact rational the literal denotes, negated after a minus sign. */
  function ParseDecimal(s: string): (r: Option<real>)
    ensures r.Some? <==> s != "" && PlainDecimal(Unsigned(s))
    ensures r.Some? && AllDigits(Unsigned(s)) ==> r.value == Signed(s, DigitsValue(Unsigned(s)) as real)
    ensures forall k :: r.Some? && 0 <= k < |Unsigned(s)| && Unsigned(s)[k] == '.' ==>
      && AllDigits(Unsigned(s)[..k]) && AllDigits(Unsigned(s)[k + 1..])
      && r.value == Signed(s, DecimalValue(Unsigned(s)[..k], Unsigned(s)[k + 1..]))
    ensures r.Some? ==> (s[0] != '-' ==> 0.0 <= r.value) && (s[0] == '-' ==> r.value <= 0.0)
  {
    if s == [] then None
    else
      match UnsignedDecimal(Unsigned(s))
      case None => None
      case Some(v) => Some(Signed(s, v))
  }

  /** The first position of `c` in `s`. */
  function FirstIndex(s: string, c: char): (k: nat)
    requires c in s
    ensures k < |s| && s[k] == c && c !in s[..k]
  {
    if s[0] == c then 0
    else
      var k := FirstIndex(s[1..], c);
      assert s[1..][..k] == s[1..k + 1];
      1 + k
  }

  /** A string holding the separator has at least two fields. */
  lemma FieldsOfSeparated(s: string, sep: char)
    requires sep in s
    ensures |Fields(s, sep)| >= 2
  {
    var k := FirstIndex(s, sep);
    assert s == s[..k] + [sep] + s[k + 1..];
    FieldsOfPrefixed(s[..k], sep, s[k + 1..]);
  }

  /** The fields of a string around '.' are the whole part and the fraction
      of a plain decimal exactly when it is one. */
  lemma DecimalFields(u: string)
    ensures var parts := Fields(u, '.');
      var frac := if |parts| == 2 then parts[1] else "";
      (|parts| <= 2 && AllDigits(parts[0]) && AllDigits(frac) && |parts[0]| + |frac| > 0) <==> PlainDecimal(u)
    ensures AllDigits(u) ==> Fields(u, '.') == [u]
    ensures forall k :: 0 <= k < |u| && u[k] == '.' && PlainDecimal(u) ==> Fields(u, '.') == [u[..k], u[k + 1..]]
  {
    if '.' !in u {
      FieldsOfPlain(u, '.');
      if u != "" && AllDigits(u) {
        assert u != "." by { assert IsDigit(u[0]); }
      }
    } else {
      var k := FirstIndex(u, '.');
      var a, b := u[..k], u[k + 1..];
      assert u == a + ['.'] + b;
      FieldsOfPrefixed(a, '.', b);
      assert !AllDigits(u) by { assert !IsDigit(u[k]); }
      if '.' in b {
        FieldsOfSeparated(b, '.');
        var j := FirstIndex(b, '.');
        assert u[k + 1 + j] == '.';
        assert !PlainDecimal(u);
      } else {
        FieldsOfPlain(b, '.');
        assert Fields(u, '.') == [a, b];
        OnePoint(u, k);
      }
    }
  }

  /** A string with a single point is a plain decimal exactly when the digits
      around the point are digits and not both empty. */
  lemma OnePoint(u: string, k: nat)
    requires k < |u| && u[k] == '.' && '.' !in u[..k] && '.' !in u[k + 1..]
    ensures forall i :: 0 <= i < |u| && u[i] == '.' ==> i == k
    ensures PlainDecimal(u) <==> AllDigits(u[..k]) && AllDigits(u[k + 1..]) && |u| > 1
  {
    var a, b := u[..k], u[k + 1..];
    assert forall i :: 0 <= i < |u| && u[i] == '.' ==> i == k by {
      assert forall i :: 0 <= i < k ==> u[i] == a[i];
      assert forall i :: k < i < |u| ==> u[i] == b[i - k - 1];
    }
    if AllDigits(a) && AllDigits(b) && |u| > 1 {
      forall i | 0 <= i < |u|
        ensures IsDigit(u[i]) || u[i] == '.'
      {
        if i < k {
          assert u[i] == a[i];
        } else if k < i {
          assert u[i] == b[i - k - 1];
        }
      }
    }
    if PlainDecimal(u) {
      forall i | 0 <= i < |a|
        ensures IsDigit(a[i])
      {
        assert a[i] == u[i];
      }
      forall i | 0 <= i < |b|
        ensures IsDigit(b[i])
      {
        assert b[i] == u[k + 1 + i];
      }
    }
  }

  /** A bare point, a bare sign and an exponent are rejected. */
  lemma ParseDecimalRejects()
    ensures ParseDecimal(".") == None && ParseDecimal("-") == None && ParseDecimal("1e") == None
  {
    assert !PlainDecimal(".");
    assert Unsigned("-") == "";
    assert !PlainDecimal("1e") by { assert !IsDigit("1e"[1]) && "1e"[1] != '.'; }
  }

  /** A missing whole part or a missing fraction is accepted. */
  lemma ParseDecimalAcceptsPoint()
    ensures ParseDecimal(".5") == Some(0.5) && ParseDecimal("1.") == Some(1.0)
  {
    assert ".5"[..0] == "" && ".5"[1..] == "5";
    assert PlainDecimal(".5") && ".5"[0] == '.';
    assert "1."[..1] == "1" && "1."[2..] == "";
    assert PlainDecimal("1.") && "1."[1] == '.';
  }

  /** Either sign is accepted; a minus negates the value. */
  lemma ParseDecimalAcceptsSign()
    ensures ParseDecimal("-5") == Some(-5.0) && ParseDecimal("+5") == Some(5.0)
  {
    assert Unsigned("-5") == "5" && Unsigned("+5") == "5";
    assert PlainDecimal("5") && AllDigits("5");
  }

  /** A run of digits parses as the integer it denotes. */
  lemma ParseDecimalOfDigits(digits: string)
    requires digits != "" && AllDigits(digits)
    ensures ParseDecimal(digits) == Some(DigitsValue(digits) as real)
  {
    assert '.' !in digits by {
      forall i | 0 <= i < |digits| ensures digits[i] != '.' { assert IsDigit(digits[i]); }
    }
    FieldsOfPlain(digits, '.');
  }

  /** `whole.frac` parses as the whole part plus the fraction the digits
      after the point denote. */
  lemma ParseDecimalFraction(whole: string, frac: string)
    requires whole != "" && AllDigits(whole) && AllDigits(frac)
    ensures ParseDecimal(whole + "." + frac) == Some(DecimalValue(whole, frac))
  {
    assert '.' !in whole by {
      forall i | 0 <= i < |whole| ensures whole[i] != '.' { assert IsDigit(whole[i]); }
    }
    assert '.' !in frac by {
      forall i | 0 <= i < |frac| ensures frac[i] != '.' { assert IsDigit(frac[i]); }
    }
    var s := whole + "." + frac;
    FieldsOfPrefixed(whole, '.', frac);
    FieldsOfPlain(frac, '.');
    assert Fields(s, '.') == [whole, frac];
    assert s[0] == whole[0] && IsDigit(s[0]);
    var parts := Fields(s, '.');
    assert parts[0] == whole && parts[1] == frac && |parts| == 2;
  }
}
