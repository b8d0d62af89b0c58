/**
 Decimal amounts: reading, exact formatting, and the arithmetic on fees. An amount is read as a fraction by the library,
 in any notation it knows; results are plain decimals, units / 10^scale, the way their text writes them.
 */
module Decimals {
  import opened Common

  datatype Decimal = Decimal(units: int, scale: nat)

  function Pow10(k: nat): (r: nat)
    ensures r >= 1
  {
    if k == 0 then 1 else 10 * Pow10(k - 1)
  }

  function Abs(n: int): nat {
    if n < 0 then -n else n
  }

  predicate AllDigits(s: string) {
    forall i :: 0 <= i < |s| ==> IsDigit(s[i])
  }

  /** The number a string of digits denotes, leading zeros included. */
  function TextNat(s: string): nat
    requires AllDigits(s)
  {
    if s == "" then 0 else 10 * TextNat(s[..|s| - 1]) + (s[|s| - 1] as int - '0' as int)
  }

  function DigitChar(d: nat): (c: char)
    requires d < 10
    ensures IsDigit(c) && c as int - '0' as int == d
  {
    '0' + d as char
  }

  function NatText(n: nat): (s: string)
    ensures s != "" && AllDigits(s) && TextNat(s) == n
  {
    if n < 10 then [DigitChar(n)]
    else
      var s := NatText(n / 10) + [DigitChar(n % 10)];
      assert s[..|s| - 1] == NatText(n / 10);
      s
  }

  /** n written with exactly k digits. */
  function Padded(n: nat, k: nat): (s: string)
    requires n < Pow10(k)
    ensures |s| == k && AllDigits(s) && TextNat(s) == n
  {
    if k == 0 then ""
    else
      var s := Padded(n / 10, k - 1) + [DigitChar(n % 10)];
      assert s[..|s| - 1] == Padded(n / 10, k - 1);
      s
  }

  /** One more digit on both sides. */
  lemma ShiftedSum(whole: nat, x: nat, power: nat, y: nat, digit: int)
    requires whole == x * power + y
    ensures 10 * whole + digit == x * (10 * power) + (10 * y + digit)
  {
  }

  lemma {:induction false} TextNatConcat(a: string, b: string)
    requires AllDigits(a) && AllDigits(b)
    ensures AllDigits(a + b) && TextNat(a + b) == TextNat(a) * Pow10(|b|) + TextNat(b)
  {
    if b == "" {
      assert a + b == a;
    } else {
      var n := |b| - 1;
      assert (a + b)[..|a + b| - 1] == a + b[..n];
      TextNatConcat(a, b[..n]);
      ShiftedSum(TextNat(a + b[..n]), TextNat(a), Pow10(n), TextNat(b[..n]), b[n] as int - '0' as int);
    }
  }

  /** unicode.IsSpace. */
  predicate IsSpace(c: char) {
    || '\t' <= c <= '\r' || c == ' ' || c == '\U{85}' || c == '\U{A0}' || c == '\U{1680}'
    || '\U{2000}' <= c <= '\U{200A}' || c in "\U{2028}\U{2029}\U{202F}\U{205F}\U{3000}"
  }

  function TrimSpace(s: string): (r: string)
    ensures |r| <= |s|
    ensures s != "" && !IsSpace(s[0]) && !IsSpace(s[|s| - 1]) ==> r == s
  {
    if s == "" then ""
    else if IsSpace(s[0]) then TrimSpace(s[1..])
    else if IsSpace(s[|s| - 1]) then TrimSpace(s[..|s| - 1])
    else s
  }

  /** The first position of c in s at or after i, or |s|. */
  function IndexOf(s: string, c: char, i: nat := 0): (r: nat)
    requires i <= |s|
    ensures i <= r <= |s| && (r < |s| ==> s[r] == c)
    ensures forall j :: i <= j < r ==> s[j] != c
    decreases |s| - i
  {
    if i == |s| || s[i] == c then i else IndexOf(s, c, i + 1)
  }

  /** The decimal written as these digits before and after the point, if they are digits. */
  function ParseParts(negative: bool, whole: string, fraction: string): Option<Decimal> {
    if whole + fraction != "" && AllDigits(whole + fraction) then
      var n: int := TextNat(whole + fraction);
      Some(Decimal(if negative then -n else n, |fraction|))
    else None
  }

  /** Sign, digits before the point, and digits after it. */
  function SplitText(t: string): (bool, string, string)
    requires t != ""
  {
    var body := if t[0] == '-' || t[0] == '+' then t[1..] else t;
    var dot := IndexOf(body, '.');
    (t[0] == '-', body[..dot], if dot < |body| then body[dot + 1..] else "")
  }

  /** parseDecimal on plain decimals: optional sign, digits, optional fraction; blank text is zero. */
  function Parse(s: string): Option<Decimal> {
    var t := TrimSpace(s);
    if t == "" then Some(Decimal(0, 0))
    else
      var (negative, whole, fraction) := SplitText(t);
      ParseParts(negative, whole, fraction)
  }

  /** The part of a before the last k digits, and those digits. */
  function SplitDigits(a: nat, k: nat): (r: (nat, nat))
    ensures r.1 < Pow10(k) && a == r.0 * Pow10(k) + r.1
  {
    if k == 0 then (a, 0)
    else
      var (w, f) := SplitDigits(a / 10, k - 1);
      assert w * Pow10(k) == 10 * (w * Pow10(k - 1));
      (w, 10 * f + a % 10)
  }

  /** big.Rat.FloatString for a value that has exactly this many decimal places. */
  function Format(d: Decimal): (s: string)
    ensures s != ""
  {
    var (whole, fraction) := SplitDigits(Abs(d.units), d.scale);
    Signed(d.units < 0, NatText(whole) + Tail(Padded(fraction, d.scale)))
  }

  /** Formatting loses nothing: what was written reads back as the same units at the same scale. */
  lemma {:induction false} FormatParses(d: Decimal)
    ensures Parse(Format(d)) == Some(d)
  {
    var (w, f) := SplitDigits(Abs(d.units), d.scale);
    var fraction := Padded(f, d.scale);
    var body := NatText(w) + Tail(fraction);
    DigitEnds(NatText(w), fraction, body);
    NotSpaces(Signed(d.units < 0, body));
    assert TrimSpace(Format(d)) == Format(d) == Signed(d.units < 0, body);
    TextSplits(d.units < 0, NatText(w), fraction, body);
    TextNatConcat(NatText(w), fraction);
  }

  lemma NotSpaces(s: string)
    requires s != "" && (IsDigit(s[0]) || s[0] == '-') && IsDigit(s[|s| - 1])
    ensures TrimSpace(s) == s
  {
  }

  /** The point and the fraction, or nothing. */
  function Tail(fraction: string): string {
    if fraction == "" then "" else "." + fraction
  }

  function Signed(negative: bool, body: string): string {
    if negative then "-" + body else body
  }

  lemma {:induction false} TextSplits(negative: bool, whole: string, fraction: string, body: string)
    requires whole != "" && AllDigits(whole) && body == whole + Tail(fraction)
    ensures SplitText(Signed(negative, body)) == (negative, whole, fraction)
  {
    BodyParses(whole, fraction, body);
    assert body[0] == whole[0] && IsDigit(body[0]);
    assert ("-" + body)[1..] == body;
  }

  lemma {:induction false} DigitEnds(whole: string, fraction: string, body: string)
    requires whole != "" && AllDigits(whole) && AllDigits(fraction) && body == whole + Tail(fraction)
    ensures body != "" && IsDigit(body[0]) && IsDigit(body[|body| - 1])
  {
  }

  lemma {:induction false} BodyParses(whole: string, fraction: string, body: string)
    requires AllDigits(whole) && body == whole + Tail(fraction)
    ensures var dot := IndexOf(body, '.');
      body[..dot] == whole && (if dot < |body| then body[dot + 1..] else "") == fraction
  {
    DotIsAt(whole, body);
    assert body[..|whole|] == whole;
    if fraction != "" {
      assert body == whole + "." + fraction;
      assert body[|whole| + 1..] == fraction;
    }
  }

  lemma {:induction false} DotIsAt(whole: string, body: string)
    requires AllDigits(whole) && whole <= body
    requires |body| > |whole| ==> body[|whole|] == '.'
    ensures IndexOf(body, '.') == |whole|
  {
    var i := IndexOf(body, '.');
    assert i < |whole| ==> IsDigit(body[i]);
    if |whole| < |body| {
      assert body[|whole|] == '.';
    }
  }

  /** c is the integer nearest to n / d, and the one farther from zero when two are equally near. */
  predicate RoundsHalfAway(c: int, n: int, d: int) {
    Nearest(Abs(n - c * d), d, Abs(c * d), Abs(n))
  }

  /** Off by at most half a step, and by exactly half only outwards. */
  predicate Nearest(off: int, step: int, rounded: int, exact: int) {
    2 * off <= step && (2 * off == step ==> rounded > exact)
  }

  /** The rounding of DiscountedAmount: truncated division, then one step away from zero. */
  function RoundToInteger(n: int, d: int): (c: int)
    requires d > 0
    ensures RoundsHalfAway(c, n, d)
  {
    var q, m := Abs(n) / d, Abs(n) % d;
    RoundingStep(Abs(n), d);
    var c := if 2 * m >= d then q + 1 else q;
    RoundingMirrors(c, Abs(n), d);
    if n < 0 then -c else c
  }

  lemma RoundingStep(a: nat, d: int)
    requires d > 0
    ensures RoundsHalfAway(if 2 * (a % d) >= d then a / d + 1 else a / d, a, d)
  {
    var q := a / d;
    assert a == q * d + a % d;
    assert (q + 1) * d == q * d + d;
  }

  lemma RoundingMirrors(c: int, n: int, d: int)
    requires RoundsHalfAway(c, n, d)
    ensures RoundsHalfAway(-c, -n, d)
  {
    assert (-c) * d == -(c * d);
  }

  /** Half-away rounding has a single answer. */
  lemma RoundingIsUnique(c: int, c': int, n: int, d: int)
    requires d > 0 && RoundsHalfAway(c, n, d) && RoundsHalfAway(c', n, d)
    ensures c == c'
  {
    if c != c' {
      ProductsApart(c, c', d);
      SameSide(c, c', d);
      NearestAreClose(c * d, c' * d, n, d);
      assert false;
    }
  }

  /** Two candidates both nearest to n, ties going outwards, are less than a step apart. */
  lemma NearestAreClose(x: int, y: int, n: int, d: int)
    requires d > 0 && (Abs(x - y) == d ==> (x >= 0 && y >= 0) || (x <= 0 && y <= 0))
    requires 2 * Abs(n - x) <= d && (2 * Abs(n - x) == d ==> Abs(x) > Abs(n))
    requires 2 * Abs(n - y) <= d && (2 * Abs(n - y) == d ==> Abs(y) > Abs(n))
    ensures Abs(x - y) < d
  {
  }

  /** Neighbouring multiples are on the same side of zero. */
  lemma SameSide(c: int, c': int, d: int)
    requires d > 0 && c != c'
    ensures Abs(c * d - c' * d) == d ==> (c * d >= 0 && c' * d >= 0) || (c * d <= 0 && c' * d <= 0)
  {
    ProductsApart(c, c', d);
    SignOfProduct(c, d);
    SignOfProduct(c', d);
    if c - c' >= 2 || c' - c >= 2 {
      FartherApart(c, c', d);
    }
  }

  lemma SignOfProduct(c: int, d: int)
    requires d > 0
    ensures (c >= 0 ==> c * d >= 0) && (c <= 0 ==> c * d <= 0)
  {
  }

  lemma FartherApart(c: int, c': int, d: int)
    requires d > 0 && (c - c' >= 2 || c' - c >= 2)
    ensures Abs(c * d - c' * d) > d
  {
    var k := c - c';
    assert c * d - c' * d == k * d;
    if k >= 2 {
      SignOfProduct(k - 2, d);
      assert k * d == 2 * d + (k - 2) * d;
    } else {
      SignOfProduct(-k - 2, d);
      assert -(k * d) == 2 * d + (-k - 2) * d;
    }
  }

  lemma ProductsApart(c: int, c': int, d: int)
    requires d > 0 && c != c'
    ensures Abs(c * d - c' * d) >= d
    ensures Abs(c * d - c' * d) == d || Abs(c * d - c' * d) >= 2 * d
  {
    var k := c - c';
    assert c * d - c' * d == k * d;
    if k >= 2 {
      assert k * d == 2 * d + (k - 2) * d;
      assert (k - 2) * d >= 0;
    } else if k <= -2 {
      assert -(k * d) == 2 * d + (-k - 2) * d;
      assert (-k - 2) * d >= 0;
    }
  }

  // ---- Amounts in any notation ----

  datatype Rational = Rational(num: int, den: int)

  type Fraction = r: Rational | r.den > 0 witness Rational(0, 1)

  /** big.Rat.SetString: the fraction a text denotes, if it denotes one. */
  type SetString = string -> Option<Fraction>

  predicate SameRatio(f: Fraction, d: Decimal) {
    f.num * Pow10(d.scale) == d.units * f.den
  }

  /** A plain decimal is read as its value. */
  ghost predicate ReadsPlain(setString: SetString) {
    forall t :: t != "" && TrimSpace(t) == t && Parse(t).Some? ==>
      setString(t).Some? && SameRatio(setString(t).value, Parse(t).value)
  }

  /** What a text denotes, and how many characters follow its point. */
  datatype Amount = Amount(value: Fraction, scale: nat)

  function PlacesOf(t: string): nat {
    var dot := IndexOf(t, '.');
    if dot < |t| then |t| - dot - 1 else 0
  }

  /** parseDecimal: blank text is zero. */
  function ReadAmount(setString: SetString, s: string): Option<Amount> {
    var t := TrimSpace(s);
    if t == "" then Some(Amount(Rational(0, 1), 0))
    else
      match setString(t)
      case None => None
      case Some(f) => Some(Amount(f, PlacesOf(t)))
  }

  lemma {:induction false} TrimTwice(s: string)
    ensures TrimSpace(TrimSpace(s)) == TrimSpace(s)
  {
    if s == "" {
    } else if IsSpace(s[0]) {
      TrimTwice(s[1..]);
    } else if IsSpace(s[|s| - 1]) {
      TrimTwice(s[..|s| - 1]);
    }
  }

  lemma PlacesOfSplit(t: string)
    requires t != ""
    ensures |SplitText(t).2| == PlacesOf(t)
  {
    if t[0] == '-' || t[0] == '+' {
      var body := t[1..];
      var dot := IndexOf(body, '.');
      assert forall j :: 0 <= j < |body| ==> body[j] == t[j + 1];
      DotIs(t, dot + 1);
    }
  }

  lemma DotIs(t: string, i: nat)
    requires i <= |t| && (i < |t| ==> t[i] == '.') && forall j :: 0 <= j < i ==> t[j] != '.'
    ensures IndexOf(t, '.') == i
  {
    var r := IndexOf(t, '.');
    assert r < |t| ==> t[r] == '.';
  }

  /** A plain decimal keeps its scale and its value. */
  lemma ReadPlain(setString: SetString, s: string)
    requires ReadsPlain(setString) && Parse(s).Some?
    ensures ReadAmount(setString, s).Some? && ReadAmount(setString, s).value.scale == Parse(s).value.scale
    ensures SameRatio(ReadAmount(setString, s).value.value, Parse(s).value)
  {
    var t := TrimSpace(s);
    TrimTwice(s);
    if t != "" {
      PlacesOfSplit(t);
      assert Parse(t) == Parse(s);
    }
  }

  /** big.Rat.FloatString: rounded to this many places, halves away from zero. */
  function FloatString(f: Fraction, scale: nat): (s: string)
    ensures Parse(s) == Some(Decimal(RoundToInteger(f.num * Pow10(scale), f.den), scale))
  {
    var d := Decimal(RoundToInteger(f.num * Pow10(scale), f.den), scale);
    FormatParses(d);
    Format(d)
  }

  /** MultiplyAmount: quantity times the amount, with as many places as the amount has. */
  function MultiplyAmount(setString: SetString, amount: string, quantity: int): (r: Option<string>)
    ensures r.Some? <==> quantity >= 1 && ReadAmount(setString, amount).Some?
    ensures r.Some? ==>
      var a := ReadAmount(setString, amount).value;
      Parse(r.value) == Some(Decimal(RoundToInteger(a.value.num * quantity * Pow10(a.scale), a.value.den), a.scale))
  {
    if quantity < 1 then None
    else
      match ReadAmount(setString, amount)
      case None => None
      case Some(a) => Some(FloatString(Rational(a.value.num * quantity, a.value.den), a.scale))
  }

  /** A number with no more places than asked for is written exactly. */
  lemma RoundsExactly(n: int, d: int, c: int)
    requires d > 0 && n == c * d
    ensures RoundToInteger(n, d) == c
  {
    RoundingIsUnique(RoundToInteger(n, d), c, n, d);
  }

  /** k * d lies no closer to zero than d, unless it is zero. */
  lemma MultipleSize(k: int, d: int)
    requires d > 0
    ensures k * d >= d || k * d == 0 || k * d <= -d
  {
    if k >= 1 {
      assert (k - 1) * d >= 0;
    } else if k <= -1 {
      assert (-1 - k) * d >= 0;
    }
  }

  lemma NoMultiple(q: int, m: int, d: int, c: int)
    requires 0 < m < d
    ensures q * d + m != c * d
  {
    MultipleSize(c - q, d);
    assert (c - q) * d == c * d - q * d;
  }

  /** Rounding changes nothing exactly when nothing is left over. */
  lemma RoundsToItself(n: int, d: int)
    requires d > 0
    ensures n == RoundToInteger(n, d) * d <==> n % d == 0
  {
    var q, m := n / d, n % d;
    assert n == q * d + m;
    if m == 0 {
      RoundsExactly(n, d, q);
    } else {
      NoMultiple(q, m, d, RoundToInteger(n, d));
    }
  }

  /**
   The product is exact if and only if it needs no more places than follow the point in the text. An exponent or a
   fraction shows fewer places than it has, and the amount is then rounded to those.
   */
  lemma ProductExactly(setString: SetString, amount: string, quantity: int)
    requires MultiplyAmount(setString, amount, quantity).Some?
    ensures var a, r := ReadAmount(setString, amount).value, Parse(MultiplyAmount(setString, amount, quantity).value);
      && r.Some?
      && (SameRatio(Rational(a.value.num * quantity, a.value.den), r.value) <==>
          a.value.num * quantity * Pow10(a.scale) % a.value.den == 0)
  {
    var a := ReadAmount(setString, amount).value;
    RoundsToItself(a.value.num * quantity * Pow10(a.scale), a.value.den);
  }

  /** One half written with an exponent shows no places: charged once, it is charged as one. */
  lemma ExponentIsRounded(setString: SetString)
    requires setString("5e-1") == Some(Rational(1, 2))
    ensures MultiplyAmount(setString, "5e-1", 1).Some?
    ensures Parse(MultiplyAmount(setString, "5e-1", 1).value) == Some(Decimal(1, 0))
  {
    var text := "5e-1";
    assert TrimSpace(text) == text;
    assert IndexOf(text, '.') == |text|;
    assert ReadAmount(setString, text) == Some(Amount(Rational(1, 2), 0));
    assert RoundsHalfAway(1, 1, 2);
    RoundingIsUnique(RoundToInteger(1, 2), 1, 1, 2);
  }

  /** On plain decimals the product is exact. */
  lemma MultiplyExact(setString: SetString, amount: string, quantity: int)
    requires ReadsPlain(setString) && Parse(amount).Some? && quantity >= 1
    ensures MultiplyAmount(setString, amount, quantity).Some?
    ensures Parse(MultiplyAmount(setString, amount, quantity).value)
            == Some(Decimal(Parse(amount).value.units * quantity, Parse(amount).value.scale))
  {
    ReadPlain(setString, amount);
    var a, d := ReadAmount(setString, amount).value, Parse(amount).value;
    ProductRatio(a.value.num, a.value.den, d.units, Pow10(d.scale), quantity);
    RoundsExactly(a.value.num * quantity * Pow10(a.scale), a.value.den, d.units * quantity);
  }

  lemma ProductRatio(num: int, den: int, units: int, power: int, quantity: int)
    requires num * power == units * den
    ensures num * quantity * power == units * quantity * den
  {
    calc {
      num * quantity * power;
      quantity * (num * power);
      quantity * (units * den);
      units * quantity * den;
    }
  }

  /** DiscountedAmount: the amount less a percentage, in whole cents. */
  function DiscountedAmount(setString: SetString, amount: string, percentage: int): (r: Option<string>)
    ensures r.Some? <==> ReadAmount(setString, amount).Some? && 0 <= percentage <= 100
    ensures r.Some? ==>
      var f := ReadAmount(setString, amount).value.value;
      Parse(r.value) == Some(Decimal(RoundToInteger(f.num * (100 - percentage), f.den), 2))
  {
    match ReadAmount(setString, amount)
    case None => None
    case Some(a) =>
      if 0 <= percentage <= 100 then
        var cents := RoundToInteger(a.value.num * (100 - percentage), a.value.den);
        FormatParses(Decimal(cents, 2));
        Some(Format(Decimal(cents, 2)))
      else None
  }

  /** Rounding depends on the ratio alone. */
  lemma SameRounding(n: int, d: int, n': int, d': int)
    requires d > 0 && d' > 0 && n * d' == n' * d
    ensures RoundToInteger(n, d) == RoundToInteger(n', d')
  {
    var c := RoundToInteger(n, d);
    RoundsScaled(c, n, d, d');
    RoundsScaled(c, n', d', d);
    assert n * d' == n' * d && d * d' == d' * d;
    RoundingIsUnique(c, RoundToInteger(n', d'), n', d');
  }

  /** A rounding stays one, or becomes one, when both sides are scaled. */
  lemma RoundsScaled(c: int, n: int, d: int, k: int)
    requires d > 0 && k > 0
    ensures RoundsHalfAway(c, n * k, d * k) <==> RoundsHalfAway(c, n, d)
  {
    var x := c * d;
    Associates(c, d, k);
    AbsScaled(n, x, k);
    AbsScaled(x, 0, k);
    AbsScaled(n, 0, k);
    NearestScaled(Abs(n - x), d, Abs(x), Abs(n), k);
  }

  lemma Associates(a: int, b: int, c: int)
    ensures a * (b * c) == (a * b) * c
  {
  }

  lemma NearestScaled(off: int, step: int, rounded: int, exact: int, k: int)
    requires k > 0
    ensures Nearest(off * k, step * k, rounded * k, exact * k) <==> Nearest(off, step, rounded, exact)
  {
    assert 2 * (off * k) == (2 * off) * k;
    ScaledOrder(2 * off, step, k);
    ScaledOrder(rounded, exact, k);
  }

  lemma AbsScaled(a: int, b: int, k: int)
    requires k > 0
    ensures Abs(a * k - b * k) == Abs(a - b) * k
  {
    assert a * k - b * k == (a - b) * k;
    SignOfProduct(a - b, k);
  }

  lemma ScaledOrder(x: int, y: int, k: int)
    requires k > 0
    ensures (x * k <= y * k <==> x <= y) && (x * k == y * k <==> x == y) && (x * k < y * k <==> x < y)
  {
    SignOfProduct(x - y, k);
    assert x * k - y * k == (x - y) * k;
    if x > y {
      SignOfProduct(x - y - 1, k);
      assert (x - y) * k == (x - y - 1) * k + k;
    } else if x < y {
      SignOfProduct(y - x - 1, k);
      assert (y - x) * k == (y - x - 1) * k + k;
    }
  }

  /** On a plain decimal the cents are the discounted amount, rounded. */
  lemma DiscountedPlain(setString: SetString, amount: string, percentage: int)
    requires ReadsPlain(setString) && Parse(amount).Some? && 0 <= percentage <= 100
    ensures DiscountedAmount(setString, amount, percentage).Some?
    ensures var d := Parse(amount).value;
      Parse(DiscountedAmount(setString, amount, percentage).value)
      == Some(Decimal(RoundToInteger(d.units * (100 - percentage), Pow10(d.scale)), 2))
  {
    ReadPlain(setString, amount);
    var f, d := ReadAmount(setString, amount).value.value, Parse(amount).value;
    ProductRatio(f.num, f.den, d.units, Pow10(d.scale), 100 - percentage);
    SameRounding(f.num * (100 - percentage), f.den, d.units * (100 - percentage), Pow10(d.scale));
  }

  /** The value of a decimal, as a real number. */
  ghost function Value(d: Decimal): real {
    d.units as real / Pow10(d.scale) as real
  }

  /** d rewritten with more decimal places. */
  function AtScale(d: Decimal, scale: nat): (r: Decimal)
    requires d.scale <= scale
    ensures r.scale == scale && Value(r) == Value(d)
    decreases scale - d.scale
  {
    if d.scale == scale then d
    else
      var wider := Decimal(d.units * 10, d.scale + 1);
      assert Value(wider) == Value(d) by {
        assert Pow10(d.scale + 1) == 10 * Pow10(d.scale);
        TenfoldQuotient(d.units as real, Pow10(d.scale) as real);
      }
      AtScale(wider, scale)
  }

  lemma TenfoldQuotient(x: real, p: real)
    requires p > 0.0
    ensures (x * 10.0) / (p * 10.0) == x / p
  {
  }

  /** The sum of the first n values. */
  ghost function SumOfValues(values: seq<Decimal>, n: nat): real
    requires n <= |values|
  {
    if n == 0 then 0.0 else SumOfValues(values, n - 1) + Value(values[n - 1])
  }

  // ---- Sums ----

  ghost function FractionValue(f: Fraction): real {
    f.num as real / f.den as real
  }

  ghost function SumOfAmounts(amounts: seq<Amount>, n: nat): real
    requires n <= |amounts|
  {
    if n == 0 then 0.0 else SumOfAmounts(amounts, n - 1) + FractionValue(amounts[n - 1].value)
  }

  lemma {:induction false} SumOfFront(amounts: seq<Amount>, a: Amount, n: nat)
    requires n <= |amounts|
    ensures SumOfAmounts(amounts + [a], n) == SumOfAmounts(amounts, n)
  {
    if n > 0 {
      SumOfFront(amounts, a, n - 1);
    }
  }

  /** big.Rat.Add. */
  function AddFractions(x: Fraction, y: Fraction): (r: Fraction)
    ensures FractionValue(r) == FractionValue(x) + FractionValue(y)
  {
    SumOfQuotients(x.num, x.den, y.num, y.den);
    Rational(x.num * y.den + y.num * x.den, x.den * y.den)
  }

  lemma SumOfQuotients(a: int, b: int, c: int, d: int)
    requires b > 0 && d > 0
    ensures b * d > 0
    ensures (a * d + c * b) as real / (b * d) as real == a as real / b as real + c as real / d as real
  {
    var x, y, u, v := a as real, b as real, c as real, d as real;
    assert (a * d + c * b) as real == x * v + u * y && (b * d) as real == y * v;
    QuotientsAdd(x, y, u, v);
  }

  lemma QuotientsAdd(x: real, y: real, u: real, v: real)
    requires y > 0.0 && v > 0.0
    ensures y * v > 0.0 && (x * v + u * y) / (y * v) == x / y + u / v
  {
    CancelRight(x, y, v);
    CancelRight(u, v, y);
    assert (x * v + u * y) / (y * v) == (x * v) / (y * v) + (u * y) / (y * v);
    assert u * y / (v * y) == u * y / (y * v);
  }

  lemma CancelRight(x: real, y: real, k: real)
    requires y > 0.0 && k > 0.0
    ensures y * k > 0.0 && (x * k) / (y * k) == x / y
  {
    var q := x / y;
    assert q * y == x;
    assert q * (y * k) == x * k;
  }

  ghost predicate ReadsAll(setString: SetString, texts: seq<string>, amounts: seq<Amount>) {
    && |amounts| <= |texts|
    && forall i :: 0 <= i < |amounts| ==> ReadAmount(setString, texts[i]) == Some(amounts[i])
  }

  /** No amount has more places, and one has as many (or none has any). */
  ghost predicate IsLargestScale(scale: nat, amounts: seq<Amount>) {
    && (forall i :: 0 <= i < |amounts| ==> amounts[i].scale <= scale)
    && (scale > 0 ==> exists i :: 0 <= i < |amounts| && amounts[i].scale == scale)
  }

  lemma LargestScaleStep(scale: nat, amounts: seq<Amount>, a: Amount)
    requires IsLargestScale(scale, amounts)
    ensures IsLargestScale(Max(scale, a.scale), amounts + [a])
  {
    var longer := amounts + [a];
    assert longer[|amounts|] == a;
    if scale > 0 {
      var i :| 0 <= i < |amounts| && amounts[i].scale == scale;
      assert longer[i].scale == scale;
    }
  }

  /** AddDecimals: the exact sum of what the texts denote, written with the places of the most precise of them. */
  method AddDecimals(setString: SetString, texts: seq<string>)
    returns (r: Option<string>, ghost amounts: seq<Amount>, ghost sum: Fraction, ghost scale: nat)
    ensures r.None? ==> exists i :: 0 <= i < |texts| && ReadAmount(setString, texts[i]).None?
    ensures r.Some? ==> |amounts| == |texts| && ReadsAll(setString, texts, amounts) && IsLargestScale(scale, amounts)
    ensures r.Some? ==> FractionValue(sum) == SumOfAmounts(amounts, |amounts|)
    ensures r.Some? ==> Parse(r.value) == Some(Decimal(RoundToInteger(sum.num * Pow10(scale), sum.den), scale))
  {
    var total: Fraction, places: nat := Rational(0, 1), 0;
    amounts, sum, scale := [], total, places;
    for i := 0 to |texts|
      invariant |amounts| == i && ReadsAll(setString, texts, amounts) && IsLargestScale(places, amounts)
      invariant FractionValue(total) == SumOfAmounts(amounts, i)
    {
      var read := ReadAmount(setString, texts[i]);
      if read.None? {
        return None, amounts, sum, scale;
      }
      LargestScaleStep(places, amounts, read.value);
      SumOfFront(amounts, read.value, i);
      total := AddFractions(total, read.value.value);
      places := Max(places, read.value.scale);
      amounts := amounts + [read.value];
    }
    sum, scale := total, places;
    r := Some(FloatString(total, places));
  }

  // ---- Sums of plain decimals are exact ----

  /** The units of the first n values, all written with this many places. */
  ghost function TotalUnits(values: seq<Decimal>, scale: nat, n: nat): int
    requires n <= |values| && forall i :: 0 <= i < |values| ==> values[i].scale <= scale
  {
    if n == 0 then 0 else TotalUnits(values, scale, n - 1) + AtScale(values[n - 1], scale).units
  }

  lemma {:induction false} TotalIsSum(values: seq<Decimal>, scale: nat, n: nat)
    requires n <= |values| && forall i :: 0 <= i < |values| ==> values[i].scale <= scale
    ensures TotalUnits(values, scale, n) as real / Pow10(scale) as real == SumOfValues(values, n)
  {
    if n > 0 {
      TotalIsSum(values, scale, n - 1);
      SameDenominator(TotalUnits(values, scale, n - 1), AtScale(values[n - 1], scale).units, Pow10(scale));
    }
  }

  lemma SameDenominator(a: int, b: int, p: int)
    requires p > 0
    ensures (a + b) as real / p as real == a as real / p as real + b as real / p as real
  {
  }

  lemma RatioIsValue(f: Fraction, d: Decimal)
    requires SameRatio(f, d)
    ensures FractionValue(f) == Value(d)
  {
    var p := Pow10(d.scale);
    assert f.num as real * p as real == d.units as real * f.den as real;
    EqualQuotients(f.num as real, f.den as real, d.units as real, p as real);
  }

  lemma EqualQuotients(x: real, y: real, u: real, v: real)
    requires y > 0.0 && v > 0.0
    ensures x * v == u * y <==> x / y == u / v
  {
    var q, r := x / y, u / v;
    assert q * y == x && r * v == u;
    assert x * v == q * (y * v) && u * y == r * (y * v);
    assert q == r || q * (y * v) != r * (y * v);
  }

  lemma {:induction false} SameSums(setString: SetString, texts: seq<string>, amounts: seq<Amount>,
                                    values: seq<Decimal>, n: nat)
    requires ReadsPlain(setString) && ReadsAll(setString, texts, amounts) && |amounts| == |values| == |texts|
    requires n <= |values|
    requires forall i :: 0 <= i < |values| ==> Parse(texts[i]) == Some(values[i])
    ensures SumOfAmounts(amounts, n) == SumOfValues(values, n)
  {
    if n > 0 {
      SameSums(setString, texts, amounts, values, n - 1);
      ReadPlain(setString, texts[n - 1]);
      RatioIsValue(amounts[n - 1].value, values[n - 1]);
    }
  }

  /** What AddDecimals writes for plain decimals is their exact sum. */
  lemma PlainSumExact(setString: SetString, texts: seq<string>, amounts: seq<Amount>, values: seq<Decimal>,
                      sum: Fraction, scale: nat)
    requires ReadsPlain(setString) && ReadsAll(setString, texts, amounts) && |amounts| == |values| == |texts|
    requires forall i :: 0 <= i < |values| ==> Parse(texts[i]) == Some(values[i])
    requires IsLargestScale(scale, amounts) && FractionValue(sum) == SumOfAmounts(amounts, |amounts|)
    ensures Value(Decimal(RoundToInteger(sum.num * Pow10(scale), sum.den), scale)) == SumOfValues(values, |values|)
  {
    forall i | 0 <= i < |values| ensures values[i].scale <= scale {
      ReadPlain(setString, texts[i]);
    }
    SameSums(setString, texts, amounts, values, |values|);
    TotalIsSum(values, scale, |values|);
    ExactQuotient(sum.num, sum.den, TotalUnits(values, scale, |values|), Pow10(scale));
  }

  lemma ExactQuotient(num: int, den: int, u: int, p: int)
    requires den > 0 && p > 0 && num as real / den as real == u as real / p as real
    ensures RoundToInteger(num * p, den) == u
  {
    EqualQuotients(num as real, den as real, u as real, p as real);
    assert (num * p) as real == (u * den) as real;
    RoundsExactly(num * p, den, u);
  }
}
