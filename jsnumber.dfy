/** JavaScript numbers as the application uses them: `Number(string)`,
    `String(number)`, `Number.isFinite`, the comparisons `<` and `>=`, and
    subtraction. A finite number is kept as an exact decimal
    `m / 10^scale` in lowest terms, so two finite numbers are equal exactly
    when their values are. Reading a numeral overflows to an infinity as a
    double does; rounding to the nearest double is not modelled. */
module JsNumber {
  import opened Common

  datatype JsNum = NaN | PosInf | NegInf | Finite(m: int, scale: nat)

  function Pow10(n: nat): (r: nat)
    ensures r >= 1
  {
    if n == 0 then 1 else 10 * Pow10(n - 1)
  }

  /** Lowest terms: no trailing zero digit behind the decimal point. */
  predicate Canonical(x: JsNum) {
    x.Finite? && x.scale > 0 ==> x.m % 10 != 0
  }

  /** The value of a finite number. */
  function Value(x: JsNum): real
    requires x.Finite?
  {
    x.m as real / Pow10(x.scale) as real
  }

  lemma ShiftDown(k: int, s: nat)
    requires s > 0
    ensures (10 * k) as real / Pow10(s) as real == k as real / Pow10(s - 1) as real
  {
    var p := Pow10(s - 1) as real;
    assert Pow10(s) as real == 10.0 * p;
    assert (10 * k) as real == 10.0 * (k as real);
  }

  /** `m / 10^scale` in lowest terms. */
  function Normalize(m: int, scale: nat): (r: JsNum)
    ensures r.Finite? && Canonical(r)
    ensures Value(r) == m as real / Pow10(scale) as real
    decreases scale
  {
    if scale > 0 && m % 10 == 0 then
      ShiftDown(m / 10, scale);
      Normalize(m / 10, scale - 1)
    else Finite(m, scale)
  }

  /** `m * 10^e` for any integer exponent. */
  function Decimal(m: int, e: int): (r: JsNum)
    ensures r.Finite? && Canonical(r)
  {
    if e >= 0 then Normalize(m * Pow10(e), 0) else Normalize(m, -e)
  }

  function Abs(i: int): nat {
    if i < 0 then -i else i
  }

  /** The least magnitude a numeral rounds to an infinity from: 2^1024 − 2^970,
      halfway between the largest double (2^1024 − 2^971) and 2^1024, where
      the tie goes to the even neighbour, the infinity. In hexadecimal it is
      54 one bits followed by 970 zero bits. */
  const OverflowThreshold: nat := 0xFFFF_FFFF_FFFF_FC00_0000_0000_0000_0000_0000_0000_0000_0000_0000_0000_0000_0000_0000_0000_0000_0000_0000_0000_0000_0000_0000_0000_0000_0000_0000_0000_0000_0000_0000_0000_0000_0000_0000_0000_0000_0000_0000_0000_0000_0000_0000_0000_0000_0000_0000_0000_0000_0000_0000_0000_0000_0000_0000_0000_0000_0000_0000_0000_0000_0000

  lemma BoundedQuotient(m: int, s: nat)
    requires -(OverflowThreshold * Pow10(s)) < m < OverflowThreshold * Pow10(s)
    ensures -(OverflowThreshold as real) < m as real / Pow10(s) as real < OverflowThreshold as real
  {
    var p := Pow10(s) as real;
    assert m as real < OverflowThreshold as real * p;
    assert -(OverflowThreshold as real * p) < m as real;
  }

  /** The number an exact decimal `m / 10^scale` reads as: an infinity of its
      sign from the threshold on, otherwise the decimal in lowest terms. */
  function ReadDecimal(m: int, scale: nat): (r: JsNum)
    ensures Canonical(r) && !r.NaN?
    ensures r.Finite? <==> Abs(m) < OverflowThreshold * Pow10(scale)
    ensures r.Finite? ==> Value(r) == m as real / Pow10(scale) as real
    ensures !r.Finite? ==> r == if m > 0 then PosInf else NegInf
  {
    if Abs(m) >= OverflowThreshold * Pow10(scale) then (if m > 0 then PosInf else NegInf)
    else Normalize(m, scale)
  }

  function Negate(x: JsNum): JsNum {
    match x
    case NaN => NaN
    case PosInf => NegInf
    case NegInf => PosInf
    case Finite(m, s) => Finite(-m, s)
  }

  /** The characters `Number()` trims: white space and line terminators. */
  predicate IsWhiteSpace(c: char) {
    c == '\t' || c == '\n' || c == '\U{B}' || c == '\U{C}' || c == '\r' || c == ' '
    || c == '\U{A0}' || c == '\U{1680}' || ('\U{2000}' <= c <= '\U{200A}')
    || c == '\U{2028}' || c == '\U{2029}' || c == '\U{202F}' || c == '\U{205F}'
    || c == '\U{3000}' || c == '\U{FEFF}'
  }

  /** The first position at or after `i` that is not white space. */
  function SkipBlanks(s: string, i: nat): (j: nat)
    requires i <= |s|
    ensures i <= j <= |s|
    decreases |s| - i
  {
    if i < |s| && IsWhiteSpace(s[i]) then SkipBlanks(s, i + 1) else i
  }

  /** The end of `s[lo..j]` once trailing white space is dropped. */
  function SkipBlanksBack(s: string, j: nat, lo: nat): (k: nat)
    requires lo <= j <= |s|
    ensures lo <= k <= j
  {
    if j > lo && IsWhiteSpace(s[j - 1]) then SkipBlanksBack(s, j - 1, lo) else j
  }

  /** `s` without leading and trailing white space. */
  function Trim(s: string): string {
    var a := SkipBlanks(s, 0);
    s[a..SkipBlanksBack(s, |s|, a)]
  }

  /** The length of the longest prefix of decimal digits. */
  function DigitPrefix(s: string): (n: nat)
    ensures n <= |s| && AllDigits(s[..n])
    ensures n < |s| ==> !IsDigit(s[n])
  {
    if s != [] && IsDigit(s[0]) then
      var n := 1 + DigitPrefix(s[1..]);
      assert s[..n] == [s[0]] + s[1..][..n - 1];
      n
    else 0
  }

  /** The value of a string of decimal digits; 0 when it is empty. */
  function DigitsNat(s: string): nat
    requires AllDigits(s)
  {
    if s == [] then 0 else DigitsValue(s)
  }

  /** `[eE][+-]?digits`, or nothing at all, read as an exponent. */
  function ParseExponent(s: string): Option<int> {
    if s == [] then Some(0)
    else if (s[0] == 'e' || s[0] == 'E') && |s| >= 2 then
      var t := s[1..];
      if t[0] == '+' || t[0] == '-' then
        var d := t[1..];
        if |d| >= 1 && AllDigits(d) then
          var v: int := DigitsValue(d);
          Some(if t[0] == '-' then -v else v)
        else None
      else if AllDigits(t) then Some(DigitsValue(t))
      else None
    else None
  }

  /** StrUnsignedDecimalLiteral: `Infinity`, or digits with an optional
      fraction (at least one digit in all) and an optional exponent. */
  function ParseUnsigned(s: string): Option<JsNum> {
    if s == "Infinity" then Some(PosInf)
    else
      var i := DigitPrefix(s);
      var intPart := s[..i];
      var rest := s[i..];
      var frac := if rest != [] && rest[0] == '.' then rest[1..][..DigitPrefix(rest[1..])] else [];
      var after := if rest != [] && rest[0] == '.' then rest[1 + |frac|..] else rest;
      if |intPart| + |frac| == 0 then None
      else
        match ParseExponent(after)
        case None => None
        case Some(e) => Some(Decimal(DigitsNat(intPart + frac), e - |frac|))
  }

  /** StrDecimalLiteral: an optional sign, then an unsigned literal. */
  function ParseSigned(s: string): Option<JsNum> {
    if s != [] && s[0] == '+' then ParseUnsigned(s[1..])
    else if s != [] && s[0] == '-' then
      match ParseUnsigned(s[1..])
      case None => None
      case Some(x) => Some(Negate(x))
    else ParseUnsigned(s)
  }

  function RadixOf(c: char): nat {
    if c == 'x' || c == 'X' then 16
    else if c == 'o' || c == 'O' then 8
    else if c == 'b' || c == 'B' then 2
    else 0
  }

  /** The value of one digit in base 16, or 16 when it is not a hex digit. */
  function HexValue(c: char): nat {
    if '0' <= c <= '9' then c as int - '0' as int
    else if 'a' <= c <= 'f' then c as int - 'a' as int + 10
    else if 'A' <= c <= 'F' then c as int - 'A' as int + 10
    else 16
  }

  predicate AllRadixDigits(s: string, radix: nat) {
    forall k :: 0 <= k < |s| ==> HexValue(s[k]) < radix
  }

  function RadixValue(s: string, radix: nat): nat {
    if s == [] then 0 else RadixValue(s[..|s| - 1], radix) * radix + HexValue(s[|s| - 1])
  }

  /** NonDecimalIntegerLiteral: `0x`, `0o` or `0b` and at least one digit
      of that base, never signed. */
  function ParseNonDecimal(s: string): (r: Option<JsNum>)
    ensures r.Some? ==> r.value.Finite? && r.value.scale == 0
  {
    if |s| >= 3 && s[0] == '0' && RadixOf(s[1]) > 0 && AllRadixDigits(s[2..], RadixOf(s[1])) then
      Some(Finite(RadixValue(s[2..], RadixOf(s[1])), 0))
    else None
  }

  /** `Number(s)` for a string: trimmed, the empty string is 0, a numeric
      literal is its value (an infinity of its sign once its magnitude
      reaches the overflow threshold), and anything else is NaN. */
  function StringToNumber(s: string): (r: JsNum)
    ensures Canonical(r)
  {
    var t := Trim(s);
    if t == [] then Finite(0, 0)
    else match ParseNonDecimal(t)
      case Some(x) => ReadDecimal(x.m, 0)
      case None =>
        match ParseSigned(t)
        case Some(x) => if x.Finite? then ReadDecimal(x.m, x.scale) else x
        case None => NaN
  }

  /** A finite reading lies strictly between ±(2^1024 − 2^970): larger
      numerals read as infinities. */
  lemma StringToNumberBounded(s: string)
    ensures StringToNumber(s).Finite? ==>
      -(OverflowThreshold as real) < Value(StringToNumber(s)) < OverflowThreshold as real
  {
    var t := Trim(s);
    if t != [] {
      match ParseNonDecimal(t)
      case Some(x) =>
        if Abs(x.m) < OverflowThreshold * Pow10(0) {
          BoundedQuotient(x.m, 0);
        }
      case None =>
        match ParseSigned(t)
        case Some(x) =>
          if x.Finite? && Abs(x.m) < OverflowThreshold * Pow10(x.scale) {
            BoundedQuotient(x.m, x.scale);
          }
        case None =>
    }
  }

  function PadZeros(t: string, w: nat): (r: string)
    ensures |r| == if |t| < w then w else |t|
  {
    if |t| < w then seq(w - |t|, _ => '0') + t else t
  }

  /** The quotient and remainder used by `NumberToString`, stated apart so
      that the division facts do not enter that function's larger context. */
  lemma DivisionOfNat(a: nat, b: nat)
    requires b > 0
    ensures a / b >= 0 && 0 <= a % b < b
  {
  }

  /** `String(x)` for a number, in plain decimal notation. */
  function NumberToString(x: JsNum): string {
    match x
    case NaN => "NaN"
    case PosInf => "Infinity"
    case NegInf => "-Infinity"
    case Finite(m, s) =>
      if s == 0 then IntToString(m)
      else
        var p := Pow10(s);
        DivisionOfNat(Abs(m), p);
        var whole: nat := Abs(m) / p;
        var fraction: nat := Abs(m) % p;
        (if m < 0 then "-" else "") + NatToString(whole) + "." + PadZeros(NatToString(fraction), s)
  }

  /** `Number.isFinite(x)`. */
  predicate IsFinite(x: JsNum) {
    x.Finite?
  }

  /** `a < b`: false whenever either side is NaN. */
  predicate Less(a: JsNum, b: JsNum) {
    match (a, b)
    case (NaN, _) => false
    case (_, NaN) => false
    case (Finite(_, _), Finite(_, _)) => Value(a) < Value(b)
    case (NegInf, _) => !b.NegInf?
    case (_, PosInf) => !a.PosInf?
    case (_, _) => false
  }

  /** `a >= b`: false whenever either side is NaN, otherwise `!(a < b)`. */
  predicate GreaterEq(a: JsNum, b: JsNum) {
    !a.NaN? && !b.NaN? && !Less(a, b)
  }

  /** `m1 / 10^s1 - m2 / 10^s2` exactly. */
  function SubFinite(m1: int, s1: nat, m2: int, s2: nat): (r: JsNum)
    ensures r.Finite?
  {
    var s := if s1 >= s2 then s1 else s2;
    Normalize(m1 * Pow10(s - s1) - m2 * Pow10(s - s2), s)
  }

  /** `a - b`. */
  function Sub(a: JsNum, b: JsNum): JsNum {
    match (a, b)
    case (NaN, _) => NaN
    case (_, NaN) => NaN
    case (PosInf, PosInf) => NaN
    case (NegInf, NegInf) => NaN
    case (PosInf, _) => PosInf
    case (NegInf, _) => NegInf
    case (_, PosInf) => NegInf
    case (_, NegInf) => PosInf
    case (Finite(m1, s1), Finite(m2, s2)) => SubFinite(m1, s1, m2, s2)
  }

  function FromInt(i: int): JsNum {
    Finite(i, 0)
  }

  /** A number made from an integer has that integer as its value. */
  lemma ValueOfInt(i: int)
    ensures Value(FromInt(i)) == i as real
  {
    assert Pow10(0) == 1;
  }

  lemma {:induction false} DigitPrefixOfDigits(s: string)
    requires AllDigits(s)
    ensures DigitPrefix(s) == |s|
  {
    if s != [] {
      DigitPrefixOfDigits(s[1..]);
    }
  }

  lemma TrimOfDigits(s: string)
    requires |s| >= 1 && AllDigits(s)
    ensures Trim(s) == s
  {
    assert IsDigit(s[0]) && IsDigit(s[|s| - 1]);
    assert s[0..|s|] == s;
  }

  lemma ParseUnsignedOfDigits(s: string)
    requires |s| >= 1 && AllDigits(s)
    ensures ParseUnsigned(s) == Some(Finite(DigitsValue(s), 0))
  {
    assert s != "Infinity" by { assert IsDigit(s[0]); }
    DigitPrefixOfDigits(s);
    assert s[..DigitPrefix(s)] == s && s[DigitPrefix(s)..] == [];
    assert ParseExponent([]) == Some(0);
    assert s + [] == s;
    assert Decimal(DigitsValue(s), 0) == Finite(DigitsValue(s), 0) by { assert Pow10(0) == 1; }
  }

  lemma NotNonDecimal(s: string)
    requires |s| >= 2 && IsDigit(s[1])
    ensures ParseNonDecimal(s) == None
  {
    assert RadixOf(s[1]) == 0;
  }

  /** A plain numeral reads as its decimal value. */
  lemma StringToNumberOfDigits(s: string)
    requires |s| >= 1 && AllDigits(s)
    ensures StringToNumber(s) == if DigitsValue(s) < OverflowThreshold then Finite(DigitsValue(s), 0) else PosInf
  {
    TrimOfDigits(s);
    if |s| >= 2 {
      NotNonDecimal(s);
    }
    assert ParseSigned(s) == ParseUnsigned(s) by { assert IsDigit(s[0]); }
    ParseUnsignedOfDigits(s);
  }

  /** `Number(String(n))` gives back `n` for every non-negative integer:
      what `String(Date.now())` stores reads back as the same clock value. */
  lemma StringToNumberOfNat(n: nat)
    ensures StringToNumber(NatToString(n)) == if n < OverflowThreshold then Finite(n, 0) else PosInf
  {
    StringToNumberOfDigits(NatToString(n));
    DigitsOfNatToString(n);
  }

  lemma {:induction false} SkipAllBlanks(s: string, i: nat)
    requires i <= |s|
    requires forall k :: i <= k < |s| ==> IsWhiteSpace(s[k])
    ensures SkipBlanks(s, i) == |s|
    decreases |s| - i
  {
    if i < |s| {
      SkipAllBlanks(s, i + 1);
    }
  }

  /** A string of nothing but white space (the empty string included) is 0. */
  lemma BlankIsZero(s: string)
    requires forall k :: 0 <= k < |s| ==> IsWhiteSpace(s[k])
    ensures StringToNumber(s) == Finite(0, 0)
  {
    SkipAllBlanks(s, 0);
  }

  /** `Number("1.5")`: a value with a fraction. */
  lemma OneAndAHalf()
    ensures StringToNumber("1.5") == Finite(15, 1)
  {
    assert Trim("1.5") == "1.5";
    assert ParseNonDecimal("1.5") == None;
    assert DigitPrefix("1.5") == 1;
    var rest := "1.5"[1..];
    assert rest == ".5" && rest[1..] == "5";
    assert DigitPrefix("5") == 1;
    assert "1.5"[..1] + "5" == "15";
    assert DigitsValue("15") == 15;
    assert ParseUnsigned("1.5") == Some(Decimal(15, -1));
    assert Normalize(15, 1) == Finite(15, 1);
  }

  /** `Number("abc")` and `Number(".")` are NaN. */
  lemma NotNumbers()
    ensures StringToNumber("abc") == NaN
    ensures StringToNumber(".") == NaN
  {
    assert Trim("abc") == "abc";
    assert ParseNonDecimal("abc") == None;
    assert DigitPrefix("abc") == 0;
    assert Trim(".") == ".";
    assert ParseNonDecimal(".") == None;
    assert DigitPrefix(".") == 0;
    assert DigitPrefix("") == 0;
  }

  /** `Number("Infinity")` and `Number("-Infinity")` are the infinities. */
  lemma Infinities()
    ensures StringToNumber("Infinity") == PosInf
    ensures StringToNumber("-Infinity") == NegInf
  {
    assert Trim("Infinity") == "Infinity";
    assert Trim("-Infinity") == "-Infinity";
    assert "-Infinity"[1..] == "Infinity";
  }

  lemma Pow10Add(a: nat, b: nat)
    ensures Pow10(a + b) == Pow10(a) * Pow10(b)
  {
    if a > 0 {
      Pow10Add(a - 1, b);
    }
  }

  lemma ScaleUp(m: int, p: nat, q: nat)
    requires p >= 1 && q >= 1
    ensures (m * p) as real / (p * q) as real == m as real / q as real
  {
    assert (m * p) as real == m as real * p as real;
    assert (p * q) as real == p as real * q as real;
  }

  /** Division distributes over a difference; used only by `SubIsExact`,
      stated apart so that the real division stays out of its context. */
  lemma DivDistributes(x: real, y: real, d: real)
    requires d > 0.0
    ensures (x - y) / d == x / d - y / d
  {
  }

  /** Subtraction of finite numbers is exact. */
  lemma SubIsExact(a: JsNum, b: JsNum)
    requires a.Finite? && b.Finite?
    ensures Sub(a, b).Finite?
    ensures Value(Sub(a, b)) == Value(a) - Value(b)
  {
    var s := if a.scale >= b.scale then a.scale else b.scale;
    var pa := Pow10(s - a.scale);
    var pb := Pow10(s - b.scale);
    Pow10Add(s - a.scale, a.scale);
    Pow10Add(s - b.scale, b.scale);
    assert Pow10(s) == pa * Pow10(a.scale) == pb * Pow10(b.scale);
    ScaleUp(a.m, pa, Pow10(a.scale));
    ScaleUp(b.m, pb, Pow10(b.scale));
    var x := (a.m * pa) as real;
    var y := (b.m * pb) as real;
    var d := Pow10(s) as real;
    assert (a.m * pa - b.m * pb) as real == x - y;
    DivDistributes(x, y, d);
    assert Sub(a, b) == Normalize(a.m * pa - b.m * pb, s);
  }

  /** Between finite numbers `<` and `>=` are the order of their values;
      NaN is never less, greater or equal to anything. */
  lemma CompareFinite(a: JsNum, b: JsNum)
    ensures a.Finite? && b.Finite? ==> (Less(a, b) <==> Value(a) < Value(b))
    ensures a.Finite? && b.Finite? ==> (GreaterEq(a, b) <==> Value(a) >= Value(b))
    ensures a.NaN? || b.NaN? ==> !Less(a, b) && !GreaterEq(a, b)
    ensures a.PosInf? && !b.NaN? ==> GreaterEq(a, b)
    ensures a.NegInf? && b.Finite? ==> !GreaterEq(a, b)
  {
  }

  /** `>=` is transitive on numbers. */
  lemma GreaterEqTransitive(a: JsNum, b: JsNum, c: JsNum)
    requires GreaterEq(a, b) && GreaterEq(b, c)
    ensures GreaterEq(a, c)
  {
  }
}
