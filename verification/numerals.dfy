/** How the components turn numbers into text and back: `Number.prototype.toString`
    on integers and on prices held as whole cents, and `parseInt` as the
    inventory form applies it to the stock field. */
module Numerals {
  import opened Wrappers
  import Text

  predicate IsDecimalDigit(c: char) {
    '0' <= c <= '9'
  }

  function DigitChar(d: nat): (c: char)
    requires d < 10
    ensures IsDecimalDigit(c)
    ensures DigitOf(c) == d
  {
    (48 + d) as char
  }

  /** Decimal digits of `n`, most significant first, with no leading zero. */
  function NatToString(n: nat): (r: string)
    ensures |r| >= 1
    ensures forall i | 0 <= i < |r| :: IsDecimalDigit(r[i])
    ensures |r| > 1 ==> r[0] != '0'
    ensures n < 10 <==> |r| == 1
  {
    if n < 10 then [DigitChar(n)] else NatToString(n / 10) + [DigitChar(n % 10)]
  }

  /** `n.toString()` for an integer `n`: a minus sign for negatives, then the
      decimal digits of the magnitude. */
  function IntToString(n: int): (r: string)
    ensures |r| >= 1
    ensures r[0] == '-' <==> n < 0
    ensures forall i | 0 <= i < |r| :: IsDecimalDigit(r[i]) || (i == 0 && r[i] == '-')
  {
    if n < 0 then "-" + NatToString(-n) else NatToString(n)
  }

  /** The digit value of `c` in radix up to 36 (`0`-`9`, then letters of
      either case); 36 for a character that is a digit in no radix. */
  function DigitOf(c: char): (d: nat)
    ensures d <= 36
    ensures IsDecimalDigit(c) <==> d < 10
  {
    if '0' <= c <= '9' then (c as int - 48) as nat
    else if 'a' <= c <= 'z' then (c as int - 97 + 10) as nat
    else if 'A' <= c <= 'Z' then (c as int - 65 + 10) as nat
    else 36
  }

  predicate AllDigitsIn(s: string, radix: nat) {
    forall i | 0 <= i < |s| :: DigitOf(s[i]) < radix
  }

  /** The longest prefix of `s` made of digits of `radix`. */
  function LeadingDigits(s: string, radix: nat): (r: string)
    ensures |r| <= |s| && r == s[..|r|]
    ensures AllDigitsIn(r, radix)
    ensures |r| < |s| ==> DigitOf(s[|r|]) >= radix
  {
    if |s| > 0 && DigitOf(s[0]) < radix then [s[0]] + LeadingDigits(s[1..], radix) else ""
  }

  /** The number a digit string denotes in `radix`, one of the two radixes
      `parseInt` picks without a radix argument. */
  function ValueOf(ds: string, radix: nat): nat
    requires radix == 10 || radix == 16
    requires AllDigitsIn(ds, radix)
  {
    if |ds| == 0 then 0
    else
      var high := ValueOf(ds[..|ds| - 1], radix);
      (if radix == 16 then high * 16 else high * 10) + DigitOf(ds[|ds| - 1])
  }

  /** The digits `parseInt` reads after the sign: a `0x`/`0X` prefix switches
      to radix 16, and the longest run of digits after that is the value. No
      digit at all is NaN, here `None`. */
  function ParseMagnitude(u: string): (r: Option<nat>)
    ensures r.Some? ==> |u| > 0 && IsDecimalDigit(u[0])
    ensures |u| > 0 && IsDecimalDigit(u[0]) && !(|u| >= 2 && u[0] == '0' && (u[1] == 'x' || u[1] == 'X')) ==>
      r.Some?
  {
    var hex := |u| >= 2 && u[0] == '0' && (u[1] == 'x' || u[1] == 'X');
    var radix := if hex then 16 else 10;
    var ds := LeadingDigits(if hex then u[2..] else u, radix);
    if |ds| == 0 then None else Some(ValueOf(ds, radix))
  }

  /** Applies a leading sign to what follows it, as `parseInt` and
      `parseFloat` both do after skipping leading whitespace. */
  function Signed(t: string, magnitude: string -> Option<nat>): (r: Option<int>)
    ensures r.Some? && r.value < 0 ==> |t| > 0 && t[0] == '-'
  {
    if |t| > 0 && t[0] == '-' then
      match magnitude(t[1..])
      case None => None
      case Some(v) => Some(-(v as int))
    else if |t| > 0 && t[0] == '+' then
      match magnitude(t[1..])
      case None => None
      case Some(v) => Some(v as int)
    else
      match magnitude(t)
      case None => None
      case Some(v) => Some(v as int)
  }

  /** `parseInt(s)` with no radix argument: leading whitespace is skipped,
      one sign is read, then the magnitude. */
  function ParseInt(s: string): (r: Option<int>)
    ensures (forall i | 0 <= i < |s| :: !IsDecimalDigit(s[i])) ==> r.None?
  {
    var t := Text.TrimStart(s);
    assert forall i | 0 <= i < |t| :: t[i] == s[|s| - |t| + i];
    Signed(t, ParseMagnitude)
  }

  lemma {:induction false} NatToStringValue(n: nat)
    ensures AllDigitsIn(NatToString(n), 10)
    ensures ValueOf(NatToString(n), 10) == n
  {
    var r := NatToString(n);
    if n >= 10 {
      NatToStringValue(n / 10);
      assert r[..|r| - 1] == NatToString(n / 10);
    }
  }

  /** A run of decimal digits followed by nothing or by a non-digit is read in full. */
  lemma LeadingDigitsOfRun(ds: string, rest: string)
    requires AllDigitsIn(ds, 10)
    requires |rest| > 0 ==> !IsDecimalDigit(rest[0])
    ensures LeadingDigits(ds + rest, 10) == ds
  {
    assert (ds + rest)[..|ds|] == ds;
  }

  lemma ParseMagnitudeOfNatToString(m: nat)
    ensures ParseMagnitude(NatToString(m)) == Some(m)
  {
    var digits := NatToString(m);
    if |digits| >= 2 {
      assert IsDecimalDigit(digits[1]);
    }
    NatToStringValue(m);
    LeadingDigitsOfRun(digits, "");
    assert digits + "" == digits;
  }

  /** An integer written with `toString` is read back by `parseInt` unchanged. */
  lemma ParseIntOfIntToString(n: int)
    ensures ParseInt(IntToString(n)) == Some(n)
  {
    if n < 0 {
      ParseIntOfNegative(IntToString(n), -n);
    } else {
      ParseIntOfNonNegative(IntToString(n), n);
    }
  }

  lemma ParseIntOfNegative(s: string, m: nat)
    requires s == "-" + NatToString(m)
    ensures ParseInt(s) == Some(-(m as int))
  {
    Text.TrimStartKeeps(s);
    SignedMinus(NatToString(m), ParseMagnitude);
    ParseMagnitudeOfNatToString(m);
  }

  lemma ParseIntOfNonNegative(s: string, m: nat)
    requires s == NatToString(m)
    ensures ParseInt(s) == Some(m as int)
  {
    Text.TrimStartKeeps(s);
    SignedDigits(s, ParseMagnitude);
    ParseMagnitudeOfNatToString(m);
  }

  /** The fractional part of a price in cents as `toString` prints it: nothing
      for a whole amount, and no trailing zero otherwise. */
  function CentsFraction(f: nat): (r: string)
    requires f < 100
    ensures r == "" <==> f == 0
    ensures |r| > 0 ==> r[0] == '.' && r[|r| - 1] != '0'
    ensures forall i | 1 <= i < |r| :: IsDecimalDigit(r[i])
  {
    if f == 0 then ""
    else if f % 10 == 0 then "." + [DigitChar(f / 10)]
    else "." + [DigitChar(f / 10), DigitChar(f % 10)]
  }

  /** A non-negative price of `m` cents without its sign: the whole part,
      then the fraction. It starts with a digit. */
  function CentsMagnitude(m: nat): (r: string)
    ensures |r| >= 1 && IsDecimalDigit(r[0])
    ensures forall i | 0 <= i < |r| :: IsDecimalDigit(r[i]) || r[i] == '.'
  {
    NatToString(m / 100) + CentsFraction(m % 100)
  }

  /** `(c / 100).toString()` for a price of `c` cents: the shortest decimal
      form, e.g. 1250 cents prints as `12.5` and 1200 as `12`. */
  function CentsToString(c: int): (r: string)
    ensures |r| >= 1
    ensures r[0] == '-' <==> c < 0
    ensures forall i | 0 <= i < |r| :: IsDecimalDigit(r[i]) || r[i] == '.' || (i == 0 && r[i] == '-')
  {
    var m: nat := if c < 0 then -c else c;
    (if c < 0 then "-" else "") + CentsMagnitude(m)
  }

  /** The cents written after the whole part: nothing, or a point and one
      or two digits. Anything else is `None`. */
  function FractionCents(rest: string): Option<nat> {
    if |rest| == 0 then Some(0)
    else if rest[0] != '.' || |rest| == 1 || |rest| > 3 || !AllDigitsIn(rest[1..], 10) then None
    else if |rest| == 2 then Some(DigitOf(rest[1]) * 10)
    else Some(DigitOf(rest[1]) * 10 + DigitOf(rest[2]))
  }

  /** What `parseFloat` reads after the sign, for the prices the model
      represents: decimal digits and at most two fractional digits after a
      point, as cents. Text of any other shape is `None`. */
  function PriceMagnitude(u: string): (r: Option<nat>)
    ensures r.Some? ==> |u| > 0 && IsDecimalDigit(u[0])
  {
    var ds := LeadingDigits(u, 10);
    assert |ds| > 0 ==> ds[0] == u[0];
    if |ds| == 0 then None
    else match FractionCents(u[|ds|..])
      case None => None
      case Some(f) => Some(ValueOf(ds, 10) * 100 + f)
  }

  /** `parseFloat(s)` on a price: leading whitespace, one sign, then the
      magnitude in cents. */
  function ParsePriceCents(s: string): (r: Option<int>)
    ensures (forall i | 0 <= i < |s| :: !IsDecimalDigit(s[i])) ==> r.None?
    ensures r.Some? && r.value < 0 ==> var t := Text.TrimStart(s); |t| > 0 && t[0] == '-'
  {
    var t := Text.TrimStart(s);
    assert forall i | 0 <= i < |t| :: t[i] == s[|s| - |t| + i];
    Signed(t, PriceMagnitude)
  }

  lemma FractionCentsOfCentsFraction(f: nat)
    requires f < 100
    ensures FractionCents(CentsFraction(f)) == Some(f)
  {
    var frac := CentsFraction(f);
    if f == 0 {
    } else if f % 10 == 0 {
      assert frac == "." + [DigitChar(f / 10)];
      assert AllDigitsIn(frac[1..], 10);
    } else {
      assert frac == "." + [DigitChar(f / 10), DigitChar(f % 10)];
      assert AllDigitsIn(frac[1..], 10);
    }
  }

  lemma CentsSplit(m: nat)
    ensures (m / 100) * 100 + m % 100 == m
  {
  }

  lemma {:induction false} PriceMagnitudeOfCents(m: nat)
    ensures PriceMagnitude(CentsMagnitude(m)) == Some(m)
  {
    var whole := NatToString(m / 100);
    var frac := CentsFraction(m % 100);
    var u := whole + frac;
    var w, f := m / 100, m % 100;
    NatToStringValue(w);
    LeadingDigitsOfRun(whole, frac);
    assert u[|whole|..] == frac;
    FractionCentsOfCentsFraction(f);
    CentsSplit(m);
    assert w * 100 + f == m;
    assert PriceMagnitude(u) == Some(ValueOf(whole, 10) * 100 + f);
  }

  lemma SignedMinus(u: string, magnitude: string -> Option<nat>)
    ensures Signed("-" + u, magnitude) ==
      match magnitude(u)
      case None => None
      case Some(v) => Some(-(v as int))
  {
    assert ("-" + u)[1..] == u;
  }

  lemma SignedDigits(u: string, magnitude: string -> Option<nat>)
    requires |u| > 0 && IsDecimalDigit(u[0])
    ensures Signed(u, magnitude) ==
      match magnitude(u)
      case None => None
      case Some(v) => Some(v as int)
  {
  }

  lemma ParsePriceOfNegative(s: string, m: nat)
    requires s == "-" + CentsMagnitude(m)
    ensures ParsePriceCents(s) == Some(-(m as int))
  {
    var u := CentsMagnitude(m);
    Text.TrimStartKeeps(s);
    PriceMagnitudeOfCents(m);
    SignedMinus(u, PriceMagnitude);
  }

  lemma ParsePriceOfNonNegative(s: string, m: nat)
    requires s == CentsMagnitude(m)
    ensures ParsePriceCents(s) == Some(m as int)
  {
    var u := CentsMagnitude(m);
    Text.TrimStartKeeps(s);
    PriceMagnitudeOfCents(m);
    SignedDigits(u, PriceMagnitude);
  }

  /** A price written with `toString` is read back by `parseFloat` unchanged. */
  lemma {:induction false} ParsePriceOfCentsToString(c: int)
    ensures ParsePriceCents(CentsToString(c)) == Some(c)
  {
    if c < 0 {
      ParsePriceOfNegative(CentsToString(c), -c);
    } else {
      ParsePriceOfNonNegative(CentsToString(c), c);
    }
  }
}
