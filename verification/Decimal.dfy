/** Exact fixed-point parsing of decimal strings: what text is a numeral, what number it denotes,
    and the 128-bit loop that scales it to a 64-bit integer. */
module Decimal {
  import opened MarketTypes
  import opened Text
  import opened Csv

  const INT64_MAX: int := 0x7FFF_FFFF_FFFF_FFFF
  const INT128_BOUND: int := 0x8000_0000_0000_0000_0000_0000_0000_0000

  type Int128 = x: int | -INT128_BOUND <= x < INT128_BOUND

  predicate IsInt64(v: int) {
    -INT64_MAX - 1 <= v <= INT64_MAX
  }

  // ---- Numerals ----

  predicate Digits(s: string) {
    forall i :: 0 <= i < |s| ==> IsDigit(s[i])
  }

  /** An optional minus, digits, and an optional dot with digits after it. */
  datatype Numeral = Numeral(neg: bool, whole: string, dot: bool, frac: string)
  {
    predicate WellFormed() {
      Digits(whole) && Digits(frac) && |whole| + |frac| > 0 && (!dot ==> frac == "")
    }

    function Text(): string {
      (if neg then "-" else "") + whole + (if dot then "." + frac else "")
    }

    /** The digits without sign and dot. */
    function Magnitude(): nat
      requires WellFormed()
    {
      NatOf(whole + frac)
    }
  }

  function NatOf(s: string): nat
    requires Digits(s)
  {
    if s == "" then 0 else 10 * NatOf(s[..|s| - 1]) + DigitOf(s[|s| - 1])
  }

  function Pow10(k: nat): (p: nat)
    ensures p > 0
  {
    if k == 0 then 1 else 10 * Pow10(k - 1)
  }

  /** `s` is a numeral whose value times 10^scale is exactly the 64-bit integer `v`. */
  ghost predicate Denotes(s: string, scale: nat, v: int) {
    exists n: Numeral :: n.WellFormed() && n.Text() == s && Equals(n, scale, v)
  }

  ghost predicate Equals(n: Numeral, scale: nat, v: int)
    requires n.WellFormed()
  {
    && IsInt64(v)
    && v * Pow10(|n.frac|) == (if n.neg then -1 else 1) * n.Magnitude() * Pow10(scale)
  }

  // ---- Splitting a text ----

  function SignLength(s: string): nat {
    if s != "" && s[0] == '-' then 1 else 0
  }

  function Split(s: string): Numeral {
    var b := SignLength(s);
    var k := FindFrom(s, b, '.');
    Numeral(b == 1, s[b..k], k < |s|, if k < |s| then s[k + 1..] else "")
  }

  lemma SplitReads(s: string)
    ensures Split(s).Text() == s
  {
    var b := SignLength(s);
    var k := FindFrom(s, b, '.');
    ThreeParts(s, b, k);
    assert s[..b] == if b == 1 then "-" else "";
    if k < |s| {
      HeadOfSuffix(s, k);
    }
  }

  /** A numeral is read back from its text, so no text has two readings. */
  lemma TextSplits(n: Numeral)
    requires n.WellFormed()
    ensures Split(n.Text()) == n
  {
    var s, b := n.Text(), if n.neg then 1 else 0;
    var k := b + |n.whole|;
    assert forall j :: b <= j < k ==> s[j] == n.whole[j - b];
    assert n.dot ==> s[k] == '.' && s[k + 1..] == n.frac;
    assert !n.neg && n.whole != "" ==> s[0] == n.whole[0];
    assert SignLength(s) == b;
    FoundAt(s, b, '.', k);
    assert s[b..k] == n.whole;
  }

  // ---- What a numeral looks like ----

  /** Only digits, apart from a minus in front and at most one dot; and at least one digit. */
  ghost predicate LooksNumeric(s: string) {
    && (forall i :: 0 <= i < |s| ==> '0' <= s[i] <= '9' || s[i] == '.' || (i == 0 && s[i] == '-'))
    && (forall i, j :: 0 <= i < j < |s| ==> !(s[i] == '.' && s[j] == '.'))
    && exists i :: 0 <= i < |s| && '0' <= s[i] <= '9'
  }

  lemma TextAt(n: Numeral, i: nat)
    requires n.WellFormed() && i < |n.Text()|
    ensures var s, b := n.Text(), if n.neg then 1 else 0;
      s[i] ==
        if i < b then '-'
        else if i < b + |n.whole| then n.whole[i - b]
        else if i == b + |n.whole| then '.'
        else n.frac[i - b - |n.whole| - 1]
  {
  }

  lemma TextLooksNumeric(n: Numeral)
    requires n.WellFormed()
    ensures LooksNumeric(n.Text())
  {
    var s, b := n.Text(), if n.neg then 1 else 0;
    forall i | 0 <= i < |s|
      ensures IsDigit(s[i]) || (s[i] == '.' && i == b + |n.whole|) || (i == 0 && s[i] == '-')
    {
      TextAt(n, i);
    }
    if n.whole != "" {
      TextAt(n, b);
    } else {
      TextAt(n, b + 1);
    }
  }

  /** A text is a numeral exactly when it looks like one. */
  lemma NumeralIff(s: string)
    ensures Split(s).WellFormed() <==> LooksNumeric(s)
  {
    SplitReads(s);
    if Split(s).WellFormed() {
      TextLooksNumeric(Split(s));
    }
    if LooksNumeric(s) {
      SplitIsWellFormed(s);
    }
  }

  lemma SplitIsWellFormed(s: string)
    requires LooksNumeric(s)
    ensures Split(s).WellFormed()
  {
    var b := SignLength(s);
    var k := FindFrom(s, b, '.');
    assert forall i :: 0 <= i < |Split(s).whole| ==> Split(s).whole[i] == s[b + i];
    if k < |s| {
      assert forall i :: 0 <= i < |Split(s).frac| ==> Split(s).frac[i] == s[k + 1 + i];
    }
    var d :| 0 <= d < |s| && '0' <= s[d] <= '9';
    assert b <= d && d != k;
  }

  // ---- Arithmetic ----

  lemma {:induction false} PowAdd(a: nat, b: nat)
    ensures Pow10(a + b) == Pow10(a) * Pow10(b)
  {
    if a != 0 {
      PowAdd(a - 1, b);
      assert 10 * (Pow10(a - 1) * Pow10(b)) == (10 * Pow10(a - 1)) * Pow10(b);
    }
  }

  lemma {:induction false} NatOfConcat(a: string, b: string)
    requires Digits(a) && Digits(b)
    ensures Digits(a + b)
    ensures NatOf(a + b) == NatOf(a) * Pow10(|b|) + NatOf(b)
    decreases |b|
  {
    if b == "" {
      assert a + b == a;
    } else {
      var front, d := b[..|b| - 1], DigitOf(b[|b| - 1]);
      NatOfConcat(a, front);
      assert (a + b)[..|a + b| - 1] == a + front;
      ShiftIn(NatOf(a), Pow10(|front|), NatOf(front), d);
    }
  }

  lemma ShiftIn(x: nat, p: nat, y: nat, d: nat)
    ensures 10 * (x * p + y) + d == x * (10 * p) + (10 * y + d)
  {
  }

  lemma {:induction false} NatOfBound(s: string)
    requires Digits(s)
    ensures NatOf(s) < Pow10(|s|)
  {
    if s != "" {
      NatOfBound(s[..|s| - 1]);
    }
  }

  lemma {:induction false} ZeroMeansZeros(s: string)
    requires Digits(s)
    ensures NatOf(s) == 0 <==> forall i :: 0 <= i < |s| ==> s[i] == '0'
  {
    if s != "" {
      var front := s[..|s| - 1];
      ZeroMeansZeros(front);
      assert forall i :: 0 <= i < |front| ==> front[i] == s[i];
      assert DigitOf(s[|s| - 1]) == 0 <==> s[|s| - 1] == '0';
    }
  }

  // ---- Scaling a numeral ----

  function Kept(n: Numeral, scale: nat): string {
    n.frac[..Min(scale, |n.frac|)]
  }

  function Excess(n: Numeral, scale: nat): string {
    n.frac[Min(scale, |n.frac|)..]
  }

  function ScaledMagnitude(n: Numeral, scale: nat): nat
    requires n.WellFormed()
  {
    NatOf(n.whole) * Pow10(scale) + NatOf(Kept(n, scale)) * Pow10(scale - |Kept(n, scale)|)
  }

  function Limit(neg: bool): int {
    if neg then INT64_MAX + 1 else INT64_MAX
  }

  predicate AllZero(s: string) {
    forall i :: 0 <= i < |s| ==> s[i] == '0'
  }

  /** What the parser computes: no non-zero digit past the scale, and a magnitude within range. */
  function Scaled(n: Numeral, scale: nat): Option<int> {
    if !n.WellFormed() || !AllZero(Excess(n, scale)) || ScaledMagnitude(n, scale) > Limit(n.neg) then None
    else Some(if n.neg then 0 - ScaledMagnitude(n, scale) else ScaledMagnitude(n, scale))
  }

  ghost predicate Decomposes(n: Numeral, scale: nat)
    requires n.WellFormed()
  {
    var rem := NatOf(Excess(n, scale)) * Pow10(scale);
    && n.Magnitude() * Pow10(scale) == ScaledMagnitude(n, scale) * Pow10(|n.frac|) + rem
    && rem < Pow10(|n.frac|)
  }

  lemma DecomposeShort(n: Numeral, scale: nat)
    requires n.WellFormed() && |n.frac| <= scale
    ensures Decomposes(n, scale)
  {
    var w, f, p, d := NatOf(n.whole), NatOf(n.frac), Pow10(|n.frac|), Pow10(scale - |n.frac|);
    NatOfConcat(n.whole, n.frac);
    assert Kept(n, scale) == n.frac && Excess(n, scale) == "";
    PowAdd(scale - |n.frac|, |n.frac|);
    assert n.Magnitude() == w * p + f;
    assert ScaledMagnitude(n, scale) == w * Pow10(scale) + f * d;
    ShortFraction(w, f, p, d, Pow10(scale));
  }

  lemma DecomposeLong(n: Numeral, scale: nat)
    requires n.WellFormed() && |n.frac| > scale
    ensures Decomposes(n, scale)
  {
    var a, b := Kept(n, scale), Excess(n, scale);
    var w, x, y, p := NatOf(n.whole), NatOf(a), NatOf(b), Pow10(|n.frac|);
    NatOfConcat(n.whole, n.frac);
    assert n.frac == a + b;
    NatOfConcat(a, b);
    NatOfBound(b);
    PowAdd(scale, |b|);
    assert n.Magnitude() == w * p + (x * Pow10(|b|) + y);
    assert ScaledMagnitude(n, scale) == w * Pow10(scale) + x * 1;
    LongFraction(w, x, y, Pow10(scale), Pow10(|b|), p);
  }

  lemma Decompose(n: Numeral, scale: nat)
    requires n.WellFormed()
    ensures Decomposes(n, scale)
  {
    if |n.frac| <= scale {
      DecomposeShort(n, scale);
    } else {
      DecomposeLong(n, scale);
    }
  }

  lemma MulAssoc(a: nat, b: nat, c: nat)
    ensures a * b * c == a * (b * c) == a * c * b
  {
  }

  lemma MulDistributes(a: nat, b: nat, c: nat)
    ensures (a + b) * c == a * c + b * c
  {
  }

  lemma ShortFraction(w: nat, f: nat, p: nat, d: nat, s: nat)
    requires s == d * p
    ensures (w * p + f) * s == (w * s + f * d) * p
  {
    MulDistributes(w * p, f, s);
    MulDistributes(w * s, f * d, p);
    MulAssoc(w, p, s);
    MulAssoc(f, d, p);
  }

  lemma LongFraction(w: nat, a: nat, b: nat, s: nat, r: nat, p: nat)
    requires p == s * r && b < r && s > 0
    ensures (w * p + (a * r + b)) * s == (w * s + a * 1) * p + b * s
    ensures b * s < p
  {
    MulDistributes(w * p, a * r + b, s);
    MulDistributes(a * r, b, s);
    MulDistributes(w * s, a, p);
    MulAssoc(w, p, s);
    MulAssoc(a, r, s);
    MulAssoc(a, s, r);
    StrictlyLess(b, r, s);
  }

  lemma StrictlyLess(b: nat, r: nat, s: nat)
    requires b < r && s > 0
    ensures b * s < s * r
  {
    MulDistributes(r - b, b, s);
    TimesAtLeast(s, r - b);
  }

  /** Dividing out a positive factor leaves no remainder. */
  lemma Cancel(v: int, mag: nat, q: nat, rem: nat)
    requires 0 <= rem < q
    ensures v * q == mag * q + rem <==> v == mag && rem == 0
  {
    var d := v - mag;
    assert d * q == v * q - mag * q;
    assert d >= 1 ==> d * q >= q;
    assert d <= -1 ==> d * q <= 0 - q;
  }

  lemma ScaledIsExact(n: Numeral, scale: nat, v: int)
    requires n.WellFormed()
    ensures Scaled(n, scale) == Some(v) <==> Equals(n, scale, v)
  {
    var mag, q := ScaledMagnitude(n, scale), Pow10(|n.frac|);
    var rem := NatOf(Excess(n, scale)) * Pow10(scale);
    Decompose(n, scale);
    ZeroMeansZeros(Excess(n, scale));
    assert rem == 0 <==> AllZero(Excess(n, scale)) by { ProductIsZero(NatOf(Excess(n, scale)), Pow10(scale)); }
    var u := if n.neg then 0 - v else v;
    Cancel(u, mag, q, rem);
    SignedProduct(n.neg, v, q, n.Magnitude(), Pow10(scale));
  }

  lemma ProductIsZero(a: nat, b: nat)
    requires b > 0
    ensures a * b == 0 <==> a == 0
  {
  }

  lemma SignedProduct(neg: bool, v: int, q: nat, m: nat, s: nat)
    ensures v * q == (if neg then -1 else 1) * m * s <==> (if neg then 0 - v else v) * q == m * s
  {
    if neg {
      assert (0 - v) * q == 0 - v * q;
      assert -1 * m * s == 0 - m * s;
    }
  }

  /** A text scales to `v` exactly when it is a numeral that denotes it. */
  lemma ParseIsExact(s: string, scale: nat, v: int)
    ensures Scaled(Split(s), scale) == Some(v) <==> Denotes(s, scale, v)
  {
    SplitReads(s);
    if Scaled(Split(s), scale) == Some(v) {
      ScaledIsExact(Split(s), scale, v);
      assert Split(s).WellFormed() && Equals(Split(s), scale, v);
    }
    if Denotes(s, scale, v) {
      var n: Numeral :| n.WellFormed() && n.Text() == s && Equals(n, scale, v);
      TextSplits(n);
      ScaledIsExact(n, scale, v);
    }
  }

  // ---- The parser ----

  lemma {:induction false} PowMonotone(a: nat, b: nat)
    requires a <= b
    ensures Pow10(a) <= Pow10(b)
    decreases b - a
  {
    if a < b {
      PowMonotone(a + 1, b);
    }
  }

  lemma PowFits(k: nat)
    requires k <= 18
    ensures Pow10(k) <= 1_000_000_000_000_000_000
  {
    PowMonotone(k, 18);
    assert Pow10(2) == 100;
    PowAdd(2, 1);
    PowAdd(3, 3);
    PowAdd(6, 3);
    PowAdd(9, 9);
  }

  lemma NatOfSnoc(s: string, b: nat, i: nat)
    requires b <= i < |s| && Digits(s[b..i]) && IsDigit(s[i])
    ensures Digits(s[b..i + 1]) && NatOf(s[b..i + 1]) == 10 * NatOf(s[b..i]) + DigitOf(s[i])
  {
    assert s[b..i + 1] == s[b..i] + [s[i]];
    assert s[b..i + 1][..i - b] == s[b..i];
  }

  lemma NatOfPrefix(s: string, b: nat, i: nat, k: nat)
    requires b <= i <= k <= |s| && Digits(s[b..i])
    ensures Digits(s[b..k]) ==> NatOf(s[b..i]) <= NatOf(s[b..k])
  {
    if Digits(s[b..k]) {
      assert s[b..k] == s[b..i] + s[i..k];
      assert forall j :: i <= j < k ==> s[j] == s[b..k][j - b];
      NatOfConcat(s[b..i], s[i..k]);
      TimesAtLeast(NatOf(s[b..i]), Pow10(k - i));
    }
  }

  lemma TimesAtLeast(x: nat, p: nat)
    requires p > 0
    ensures x * p >= x
  {
  }

  /** The digits from `b` up to the dot or the end. */
  method ReadWhole(s: string, b: nat) returns (ok: bool, i: nat, whole: Int128)
    requires b <= |s|
    ensures ok ==> i == FindFrom(s, b, '.') && Digits(s[b..i]) && 0 <= whole == NatOf(s[b..i]) <= INT64_MAX + 1
    ensures !ok ==> !Digits(s[b..FindFrom(s, b, '.')]) || NatOf(s[b..FindFrom(s, b, '.')]) > INT64_MAX + 1
  {
    ghost var k := FindFrom(s, b, '.');
    i, whole := b, 0;
    while i < |s| && s[i] != '.'
      invariant b <= i <= k <= |s| && FindFrom(s, i, '.') == k
      invariant Digits(s[b..i]) && 0 <= whole == NatOf(s[b..i]) <= INT64_MAX + 1
    {
      if s[i] < '0' || s[i] > '9' {
        NotDigits(s, b, i, k);
        return false, i, whole;
      }
      NatOfSnoc(s, b, i);
      whole := whole * 10 + DigitOf(s[i]);
      i := i + 1;
      if whole > INT64_MAX + 1 {
        NatOfPrefix(s, b, i, k);
        return false, i, whole;
      }
    }
    ok := true;
  }

  lemma NotDigits(s: string, b: nat, i: nat, k: nat)
    requires b <= i < k <= |s| && !IsDigit(s[i])
    ensures !Digits(s[b..k])
  {
    assert s[b..k][i - b] == s[i];
  }

  /** The digits from `b` to the end: the first `scale` of them count, the others must be zero. */
  method ReadFraction(s: string, b: nat, scale: nat) returns (ok: bool, count: nat, frac: Int128)
    requires b <= |s| && scale <= 18
    ensures ok ==> Digits(s[b..]) && count == Min(scale, |s| - b)
    ensures ok ==> 0 <= frac == NatOf(s[b..b + count]) < Pow10(count) && AllZero(s[b + count..])
    ensures !ok ==> !Digits(s[b..]) || !AllZero(s[b + Min(scale, |s| - b)..])
  {
    var i := b;
    ok, count, frac := true, 0, 0;
    while i < |s|
      invariant b <= i <= |s| && count == Min(scale, i - b)
      invariant Reads(s, b, i, count, frac)
    {
      ok, count, frac := FractionStep(s, b, i, scale, count, frac);
      if !ok {
        return;
      }
      i := i + 1;
    }
    ok := true;
    assert s[b..i] == s[b..] && s[b + count..i] == s[b + count..];
  }

  method FractionStep(s: string, b: nat, i: nat, scale: nat, count: nat, frac: Int128)
    returns (ok: bool, count': nat, frac': Int128)
    requires b <= i < |s| && scale <= 18 && count == Min(scale, i - b) && Reads(s, b, i, count, frac)
    ensures ok ==> count' == Min(scale, i + 1 - b) && Reads(s, b, i + 1, count', frac')
    ensures !ok ==> !Digits(s[b..]) || !AllZero(s[b + Min(scale, |s| - b)..])
  {
    ok, count', frac' := true, count, frac;
    if s[i] < '0' || s[i] > '9' {
      NotAllDigits(s, b, i);
      ok := false;
    } else if count < scale {
      NextFractionDigit(s, b, i, frac);
      PowFits(count + 1);
      frac' := frac * 10 + DigitOf(s[i]);
      count' := count + 1;
    } else if s[i] != '0' {
      NotAllZero(s, b + scale, i);
      ok := false;
    } else {
      NextZero(s, b, i, count, frac);
    }
  }

  lemma NotAllDigits(s: string, b: nat, i: nat)
    requires b <= i < |s| && !IsDigit(s[i])
    ensures !Digits(s[b..])
  {
    assert s[b..][i - b] == s[i];
  }

  lemma NotAllZero(s: string, b: nat, i: nat)
    requires b <= i < |s| && s[i] != '0'
    ensures !AllZero(s[b..])
  {
    assert s[b..][i - b] == s[i];
  }

  ghost predicate Reads(s: string, b: nat, i: nat, count: nat, frac: int)
    requires b + count <= i <= |s|
  {
    && Digits(s[b..i]) && Digits(s[b..b + count])
    && 0 <= frac == NatOf(s[b..b + count]) < Pow10(count)
    && AllZero(s[b + count..i])
  }

  lemma NextFractionDigit(s: string, b: nat, i: nat, frac: int)
    requires b <= i < |s| && IsDigit(s[i]) && Reads(s, b, i, i - b, frac)
    ensures Reads(s, b, i + 1, i + 1 - b, frac * 10 + DigitOf(s[i]))
  {
    NatOfSnoc(s, b, i);
    NatOfBound(s[b..i + 1]);
  }

  lemma NextZero(s: string, b: nat, i: nat, count: nat, frac: int)
    requires b + count <= i < |s| && s[i] == '0' && Reads(s, b, i, count, frac)
    ensures Reads(s, b, i + 1, count, frac)
  {
    assert s[b..i + 1] == s[b..i] + [s[i]];
    assert s[b + count..i + 1] == s[b + count..i] + [s[i]];
  }

  method PowerOfTen(k: nat) returns (p: Int128)
    requires k <= 18
    ensures p == Pow10(k)
  {
    p := 1;
    for i := 0 to k
      invariant p == Pow10(i)
    {
      PowFits(i + 1);
      p := p * 10;
    }
  }

  lemma QuotientOfPowers(scale: nat, count: nat)
    requires count <= scale
    ensures Pow10(scale) / Pow10(count) == Pow10(scale - count)
  {
    PowAdd(scale - count, count);
    var q, p := Pow10(scale - count), Pow10(count);
    assert (q * p) / p == q by { DivideProduct(q, p); }
  }

  lemma DivideProduct(q: nat, p: nat)
    requires p > 0
    ensures (q * p) / p == q
  {
    var d := (q * p) / p - q;
    assert d * p == 0 - (q * p) % p;
    assert d >= 1 ==> d * p >= p;
    assert d <= -1 ==> d * p <= 0 - p;
  }

  lemma ProductsFit(whole: nat, frac: nat, scale: nat, count: nat)
    requires whole <= INT64_MAX + 1 && count <= scale <= 18 && frac < Pow10(count)
    ensures 0 <= whole * Pow10(scale) < INT128_BOUND / 2
    ensures 0 <= frac * Pow10(scale - count) < INT128_BOUND / 2
  {
    PowFits(scale);
    ProductFits(whole, Pow10(scale));
    PowAdd(count, scale - count);
    FractionFits(frac, Pow10(count), Pow10(scale - count), Pow10(scale));
  }

  lemma FractionFits(frac: nat, p: nat, q: nat, s: nat)
    requires frac < p && s == p * q && s <= 1_000_000_000_000_000_000
    ensures 0 <= frac * q < INT128_BOUND / 2
  {
    Monotone(frac, p, q);
  }

  lemma ProductFits(a: nat, b: nat)
    requires a <= INT64_MAX + 1 && b <= 1_000_000_000_000_000_000
    ensures a * b < INT128_BOUND / 2
  {
    Monotone(a, INT64_MAX + 1, b);
    assert (INT64_MAX + 1) * b <= (INT64_MAX + 1) * 1_000_000_000_000_000_000;
  }

  lemma Monotone(a: nat, b: nat, c: nat)
    requires a <= b
    ensures a * c <= b * c
  {
  }

  method Times(a: Int128, b: Int128) returns (c: Int128)
    requires 0 <= a * b < INT128_BOUND
    ensures c == a * b
  {
    c := a * b;
  }

  method QuotientOf(s: Int128, f: Int128, scale: nat, count: nat) returns (q: Int128)
    requires count <= scale <= 18 && s == Pow10(scale) && f == Pow10(count)
    ensures q == Pow10(scale - count)
  {
    QuotientOfPowers(scale, count);
    PowFits(scale - count);
    q := s / f;
  }

  /** No 128-bit intermediate overflows. */
  method Combine(whole: Int128, frac: Int128, scale: nat, count: nat) returns (m: Int128)
    requires 0 <= whole <= INT64_MAX + 1 && count <= scale <= 18 && 0 <= frac < Pow10(count)
    ensures m == whole * Pow10(scale) + frac * Pow10(scale - count)
  {
    var s := PowerOfTen(scale);
    var f := PowerOfTen(count);
    var q := QuotientOf(s, f, scale, count);
    ProductsFit(whole, frac, scale, count);
    var a := Times(whole, s);
    var b := Times(frac, q);
    m := a + b;
  }

  method ParseScaled(s: string, scale: int) returns (r: Option<int>)
    ensures !(0 <= scale <= 18) ==> r == None
    ensures 0 <= scale <= 18 ==> r == Scaled(Split(s), scale)
    ensures 0 <= scale <= 18 ==> forall v :: r == Some(v) <==> Denotes(s, scale, v)
    ensures r.Some? ==> LooksNumeric(s)
  {
    NumeralIff(s);
    if 0 <= scale <= 18 {
      forall v ensures Scaled(Split(s), scale) == Some(v) <==> Denotes(s, scale, v) {
        ParseIsExact(s, scale, v);
      }
    }
    r := ScaleText(s, scale);
  }

  method ScaleText(s: string, scale: int) returns (r: Option<int>)
    ensures !(0 <= scale <= 18) ==> r == None
    ensures 0 <= scale <= 18 ==> r == Scaled(Split(s), scale)
  {
    if |s| == 0 || scale < 0 || scale > 18 {
      return None;
    }
    var neg := s[0] == '-';
    var b := if neg then 1 else 0;
    if b == |s| {
      return None;
    }
    var ok, k, whole := ReadWhole(s, b);
    if !ok {
      if Split(s).WellFormed() {
        WholeTooBig(Split(s), scale);
      }
      return None;
    }
    if k == |s| {
      r := Finish(Split(s), neg, whole, 0, scale, 0);
    } else {
      r := ScaleDotted(Split(s), s, k, neg, k > b, whole, scale);
    }
  }

  /** The rest of the work when there is a dot at `k`; `any` says whether digits came before it. */
  method ScaleDotted(ghost n: Numeral, s: string, k: nat, neg: bool, any: bool, whole: Int128, scale: nat)
    returns (r: Option<int>)
    requires k < |s| && n.dot && n.frac == s[k + 1..] && scale <= 18
    requires n.neg == neg && any == (n.whole != "")
    requires Digits(n.whole) && 0 <= whole == NatOf(n.whole) <= INT64_MAX + 1
    ensures r == Scaled(n, scale)
  {
    DottedParts(n, s, k, scale);
    var good, count, frac := ReadFraction(s, k + 1, scale);
    if !good {
      return None;
    }
    var some := any || k + 1 < |s|;
    if !some {
      return None;
    }
    r := Finish(n, neg, whole, frac, scale, count);
  }

  lemma DottedParts(n: Numeral, s: string, k: nat, scale: nat)
    requires k < |s| && n.frac == s[k + 1..]
    ensures var c := Min(scale, |s| - k - 1);
      Kept(n, scale) == s[k + 1..k + 1 + c] && Excess(n, scale) == s[k + 1 + c..]
  {
    SuffixParts(s, k + 1, Min(scale, |s| - k - 1));
  }

  method Finish(ghost n: Numeral, neg: bool, whole: Int128, frac: Int128, scale: nat, count: nat)
    returns (r: Option<int>)
    requires n.WellFormed() && n.neg == neg && scale <= 18
    requires 0 <= whole == NatOf(n.whole) <= INT64_MAX + 1
    requires count == |Kept(n, scale)| && 0 <= frac == NatOf(Kept(n, scale)) < Pow10(count)
    requires AllZero(Excess(n, scale))
    ensures r == Scaled(n, scale)
  {
    var m := Combine(whole, frac, scale, count);
    if m > Limit(neg) {
      return None;
    }
    return Some(if neg then 0 - m else m);
  }

  lemma WholeTooBig(n: Numeral, scale: nat)
    requires n.WellFormed() && NatOf(n.whole) > INT64_MAX + 1
    ensures ScaledMagnitude(n, scale) > Limit(n.neg)
  {
    TimesAtLeast(NatOf(n.whole), Pow10(scale));
  }
}
