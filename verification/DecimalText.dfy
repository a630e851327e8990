/** Printing and parsing decimals undo each other, exactly as far as the precision of
    the printer reaches. */
module DecimalText {
  import opened Base
  import opened Decimals

  // ---- one representative per value --------------------------------------------------------------

  function Reduced(d: Decimal): Decimal {
    if d.coefficient == 0 then Decimal(false, 0, 0) else Strip(d.negative, d.coefficient, d.exponent)
  }

  lemma {:induction false} StripTen(negative: bool, x: nat, e: int)
    requires 0 < x
    ensures Strip(negative, 10 * x, e) == Strip(negative, x, e + 1)
  {
    TenTimes(x);
  }

  lemma {:induction false} StripScaled(negative: bool, c: nat, e: int, j: nat)
    requires 0 < c
    ensures Strip(negative, c * Pow10(j), e) == Strip(negative, c, e + j)
    decreases j
  {
    if 0 < j {
      StripScaled(negative, c, e + 1, j - 1);
      MulPositive(c, Pow10(j - 1));
      StripTen(negative, c * Pow10(j - 1), e);
      TenMoves(c, Pow10(j - 1));
    } else {
      assert c * Pow10(0) == c;
    }
  }

  lemma {:induction false} TenMoves(c: nat, p: nat)
    ensures c * (10 * p) == 10 * (c * p)
  {
  }

  lemma {:induction false} TenTimes(x: nat)
    ensures (10 * x) % 10 == 0 && (10 * x) / 10 == x
  {
  }

  lemma {:induction false} MulPositive(a: nat, b: nat)
    requires 0 < a && 0 < b
    ensures 0 < a * b
  {
  }

  lemma {:induction false} StripShape(negative: bool, c: nat, e: int) returns (k: nat)
    requires 0 < c
    ensures var s := Strip(negative, c, e);
      && s.negative == negative && s.exponent == e + k && c == s.coefficient * Pow10(k)
      && s.coefficient % 10 != 0 && 0 < s.coefficient <= c
    decreases c
  {
    if c % 10 == 0 {
      var m := StripShape(negative, c / 10, e + 1);
      k := m + 1;
      var s := Strip(negative, c, e);
      assert c == 10 * (s.coefficient * Pow10(m)) == s.coefficient * (10 * Pow10(m));
    } else {
      k := 0;
    }
  }

  lemma {:induction false} SignsAgree(a: Decimal, b: Decimal, p: nat)
    requires 1 <= p && Signed(a) == Signed(b) * p
    ensures a.coefficient == b.coefficient * p
    ensures a.coefficient != 0 ==> a.negative == b.negative && b.coefficient != 0
  {
    if b.negative {
      assert Signed(b) * p == 0 - b.coefficient * p;
    }
    if b.coefficient != 0 { MulPositive(b.coefficient, p); }
  }

  lemma {:induction false} SameMeansReduced(a: Decimal, b: Decimal)
    requires SameValue(a, b)
    ensures Reduced(a) == Reduced(b)
  {
    if a.exponent <= b.exponent {
      var j := b.exponent - a.exponent;
      SignsAgree(a, b, Pow10(j));
      if a.coefficient != 0 { StripScaled(a.negative, b.coefficient, a.exponent, j); }
      else if b.coefficient != 0 { MulPositive(b.coefficient, Pow10(j)); }
    } else {
      var j := a.exponent - b.exponent;
      SignsAgree(b, a, Pow10(j));
      if b.coefficient != 0 { StripScaled(b.negative, a.coefficient, b.exponent, j); }
      else if a.coefficient != 0 { MulPositive(a.coefficient, Pow10(j)); }
    }
  }

  lemma {:induction false} ScaledIsSame(negative: bool, c: nat, m: int, e: int, j: nat)
    requires e + j == m
    ensures SameValue(Decimal(negative, c * Pow10(j), e), Decimal(negative, c, m))
  {
    assert 0 - c * Pow10(j) == (0 - c) * Pow10(j);
    if j == 0 { assert c * Pow10(j) == c; }
  }

  lemma {:induction false} SameSymmetric(a: Decimal, b: Decimal)
    requires SameValue(a, b)
    ensures SameValue(b, a)
  {
    if a.exponent == b.exponent { assert Pow10(0) == 1; }
  }

  lemma {:induction false} ReducedMeansSame(a: Decimal, b: Decimal)
    requires Reduced(a) == Reduced(b)
    ensures SameValue(a, b)
  {
    if a.coefficient == 0 || b.coefficient == 0 {
      if a.coefficient != 0 { var _ := StripShape(a.negative, a.coefficient, a.exponent); }
      if b.coefficient != 0 { var _ := StripShape(b.negative, b.coefficient, b.exponent); }
      assert Signed(a) == 0 && Signed(b) == 0;
    } else {
      var i := StripShape(a.negative, a.coefficient, a.exponent);
      var j := StripShape(b.negative, b.coefficient, b.exponent);
      var s := Reduced(a);
      if i >= j {
        PowAdds(i - j, j);
        Regroup(s.coefficient, Pow10(j), Pow10(i - j));
        ScaledIsSame(a.negative, b.coefficient, b.exponent, a.exponent, i - j);
      } else {
        PowAdds(j - i, i);
        Regroup(s.coefficient, Pow10(i), Pow10(j - i));
        ScaledIsSame(a.negative, a.coefficient, a.exponent, b.exponent, j - i);
        SameSymmetric(b, a);
      }
    }
  }

  lemma {:induction false} Regroup(c: nat, p: nat, q: nat)
    ensures c * (q * p) == (c * p) * q
  {
  }

  /** Two decimals are the same number exactly when stripping zeros makes them equal. */
  lemma {:induction false} SameIffReduced(a: Decimal, b: Decimal)
    ensures SameValue(a, b) <==> Reduced(a) == Reduced(b)
  {
    if SameValue(a, b) { SameMeansReduced(a, b); }
    if Reduced(a) == Reduced(b) { ReducedMeansSame(a, b); }
  }

  // ---- rounding depends on the number only -----------------------------------------------------------

  lemma {:induction false} DigitsTimesTen(x: nat)
    requires 0 < x
    ensures |DigitsOf(10 * x)| == |DigitsOf(x)| + 1
  {
    TenTimes(x);
  }

  lemma {:induction false} DigitsScaled(c: nat, j: nat)
    requires 0 < c
    ensures |DigitsOf(c * Pow10(j))| == |DigitsOf(c)| + j
  {
    if 0 < j {
      DigitsScaled(c, j - 1);
      MulPositive(c, Pow10(j - 1));
      DigitsTimesTen(c * Pow10(j - 1));
      TenMoves(c, Pow10(j - 1));
    } else {
      assert c * Pow10(0) == c;
    }
  }

  lemma {:induction false} DivScaled(c: nat, p: nat, m: nat)
    requires 1 <= p && 1 <= m
    ensures 1 <= p * m && (c * m) / (p * m) == c / p && (c * m) % (p * m) == (c % p) * m
  {
    var q, r := c / p, c % p;
    MulPositive(p, m);
    assert c == q * p + r;
    assert c * m == q * (p * m) + r * m;
    assert r * m < p * m;
    QuotientIs(c * m, p * m, q, r * m);
  }

  lemma {:induction false} MultipleIsLarge(x: int, d: nat)
    requires x != 0
    ensures d <= x * d || x * d <= 0 - d
  {
    if 0 < x {
      assert 0 <= (x - 1) * d;
    } else {
      assert 0 <= (0 - x - 1) * d;
    }
  }

  lemma {:induction false} QuotientIs(n: nat, d: nat, q: nat, r: nat)
    requires n == q * d + r && r < d
    ensures n / d == q && n % d == r
  {
    var a := n / d;
    assert n == a * d + n % d;
    assert (q - a) * d == n % d - r;
    if a != q { MultipleIsLarge(q - a, d); }
  }

  lemma {:induction false} CompareScaled(r: nat, p: nat, m: nat)
    requires 1 <= m
    ensures p < 2 * r <==> p * m < 2 * (r * m)
    ensures p == 2 * r <==> p * m == 2 * (r * m)
  {
    assert 2 * (r * m) == (2 * r) * m;
    if p < 2 * r { assert (p + 1) * m <= (2 * r) * m; }
    if 2 * r < p { assert (2 * r + 1) * m <= p * m; }
  }

  lemma {:induction false} RoundScaled(c: nat, p: nat, m: nat)
    requires 1 <= p && 1 <= m
    ensures 1 <= p * m && RoundHalfEven(c * m, p * m) == RoundHalfEven(c, p)
  {
    DivScaled(c, p, m);
    CompareScaled(c % p, p, m);
  }

  lemma {:induction false} RoundExact(x: nat, p: nat)
    requires 1 <= p
    ensures RoundHalfEven(x * p, p) == x
  {
    QuotientIs(x * p, p, x, 0);
  }

  lemma {:induction false} ScaledByBoth(c: nat, i: nat, m: nat)
    ensures c * Pow10(i + m) == (c * Pow10(i)) * Pow10(m)
  {
    PowAdds(i, m);
    Regroup(c, Pow10(i), Pow10(m));
  }

  /** Zeros that rounding would drop anyway are dropped exactly. */
  lemma {:induction false} RoundDropsZeros(negative: bool, c: nat, e: int, j: nat, m: nat)
    requires 0 < c && m <= j
    ensures Strip(negative, RoundHalfEven(c * Pow10(j), Pow10(m)), e + m) == Strip(negative, c, e + j)
  {
    ScaledByBoth(c, j - m, m);
    RoundExact(c * Pow10(j - m), Pow10(m));
    StripScaled(negative, c, e + m, j - m);
  }

  lemma {:induction false} LongRoundsAlike(c: nat, k: nat, j: nat)
    ensures RoundHalfEven(c * Pow10(j), Pow10(k + j)) == RoundHalfEven(c, Pow10(k))
  {
    PowAdds(k, j);
    RoundScaled(c, Pow10(k), Pow10(j));
  }

  lemma {:induction false} ExcessScaled(c: nat, j: nat)
    requires 0 < c
    ensures if PRECISION <= |DigitsOf(c)| then Excess(c * Pow10(j)) == Excess(c) + j
      else Excess(c) == 0 && Excess(c * Pow10(j)) <= j
  {
    DigitsScaled(c, j);
  }

  lemma {:induction false} NormalizeScaled(negative: bool, c: nat, e: int, j: nat, x: nat)
    requires 0 < c && x == c * Pow10(j)
    ensures Normalize(Decimal(negative, x, e)) == Normalize(Decimal(negative, c, e + j))
  {
    ExcessScaled(c, j);
    var k, m := Excess(c), Excess(x);
    if PRECISION <= |DigitsOf(c)| {
      LongRoundsAlike(c, k, j);
    } else {
      RoundExactOne(c);
      RoundDropsZeros(negative, c, e, j, m);
    }
  }

  lemma {:induction false} RoundExactOne(c: nat)
    ensures RoundHalfEven(c, Pow10(0)) == c
  {
    RoundExact(c, 1);
  }

  lemma {:induction false} NormalizeOfReduced(d: Decimal)
    requires 0 < d.coefficient
    ensures Normalize(d) == Normalize(Reduced(d))
  {
    var k := StripShape(d.negative, d.coefficient, d.exponent);
    var s := Reduced(d);
    NormalizeScaled(s.negative, s.coefficient, d.exponent, k, d.coefficient);
  }

  lemma {:induction false} ZeroPrintsZero(d: Decimal)
    requires d.coefficient == 0
    ensures Canonical(d) == "0"
  {
    RoundExact(0, Pow10(Excess(0)));
    assert 0 * Pow10(Excess(0)) == 0;
  }

  /** The text depends on the number alone, not on how it is written. */
  lemma {:induction false} EqualValuesPrintAlike(a: Decimal, b: Decimal)
    requires SameValue(a, b)
    ensures Canonical(a) == Canonical(b)
  {
    SameMeansReduced(a, b);
    if a.coefficient == 0 {
      if b.coefficient != 0 { var _ := StripShape(b.negative, b.coefficient, b.exponent); }
      ZeroPrintsZero(a);
      ZeroPrintsZero(b);
    } else {
      var _ := StripShape(a.negative, a.coefficient, a.exponent);
      NormalizeOfReduced(a);
      NormalizeOfReduced(b);
    }
  }

  // ---- what fits is printed exactly --------------------------------------------------------------------

  /** At most 28 significant digits, trailing zeros aside. */
  predicate Fits(d: Decimal) {
    |DigitsOf(Reduced(d).coefficient)| <= PRECISION
  }

  lemma {:induction false} FittingIsKept(d: Decimal)
    requires Fits(d) && 0 < d.coefficient
    ensures Normalize(d) == Reduced(d)
  {
    NormalizeOfReduced(d);
    var s := Reduced(d);
    var _ := StripShape(d.negative, d.coefficient, d.exponent);
    RoundExact(s.coefficient, 1);
  }

  lemma {:induction false} QuotientBounds(c: nat, p: nat, w: nat)
    requires 1 <= p <= c < w * p
    ensures 0 < c / p < w
  {
    var q := c / p;
    assert c == q * p + c % p;
    if w <= q { ProductGrows(w, q, p); }
  }

  lemma {:induction false} ProductGrows(a: nat, b: nat, p: nat)
    requires a <= b
    ensures a * p <= b * p
  {
  }

  lemma {:induction false} RoundedWithin(c: nat, k: nat, w: nat)
    requires 0 < c < Pow10(w + k) && (0 < k ==> Pow10(k) <= c)
    ensures 0 < RoundHalfEven(c, Pow10(k)) <= Pow10(w)
  {
    if k == 0 {
      RoundExactOne(c);
    } else {
      PowAdds(w, k);
      QuotientBounds(c, Pow10(k), Pow10(w));
    }
  }

  /** Rounding leaves at most 10 to the 28th, and a nonzero number stays nonzero. */
  lemma {:induction false} RoundedIsSmall(c: nat)
    requires 0 < c
    ensures 0 < RoundHalfEven(c, Pow10(Excess(c))) <= Pow10(PRECISION)
  {
    DigitCountBounds(c);
    var k, n, w := Excess(c), |DigitsOf(c)|, PRECISION;
    PowGrows(n, w + k);
    if 0 < k { PowGrows(k, n - 1); }
    RoundedWithin(c, k, w);
  }

  lemma {:induction false} StrippedIsStripped(negative: bool, q: nat, e: int)
    requires 0 < q
    ensures var n := Strip(negative, q, e);
      0 < n.coefficient <= q && n.negative == negative && Reduced(n) == n
  {
    var _ := StripShape(negative, q, e);
  }

  lemma {:induction false} StrippedHasFewDigits(negative: bool, q: nat, e: int, w: nat)
    requires 0 < q <= Pow10(w) && 0 < w
    ensures |DigitsOf(Strip(negative, q, e).coefficient)| <= w
  {
    StrippedIsStripped(negative, q, e);
    var c := Strip(negative, q, e).coefficient;
    if q == Pow10(w) {
      StripScaled(negative, 1, e, w);
      assert 1 * Pow10(w) == q;
    } else {
      DigitCountBounds(c);
      if w < |DigitsOf(c)| { PowGrows(w, |DigitsOf(c)| - 1); }
    }
  }

  lemma {:induction false} FewDigitsFit(n: Decimal)
    requires Reduced(n) == n && |DigitsOf(n.coefficient)| <= PRECISION
    ensures Fits(n)
  {
  }

  lemma {:induction false} StrippedFits(negative: bool, q: nat, e: int)
    requires 0 < q <= Pow10(PRECISION)
    ensures var n := Strip(negative, q, e); 0 < n.coefficient && Fits(n) && Reduced(n) == n
  {
    StrippedIsStripped(negative, q, e);
    StrippedHasFewDigits(negative, q, e, PRECISION);
    FewDigitsFit(Strip(negative, q, e));
  }

  lemma {:induction false} NormalizedFits(d: Decimal)
    requires 0 < d.coefficient
    ensures 0 < Normalize(d).coefficient && Fits(Normalize(d)) && Reduced(Normalize(d)) == Normalize(d)
  {
    RoundedIsSmall(d.coefficient);
    var k := Excess(d.coefficient);
    StrippedFits(d.negative, RoundHalfEven(d.coefficient, Pow10(k)), d.exponent + k);
  }

  /** The rounding keeps the number exactly when it fits. */
  lemma {:induction false} KeptIffFits(d: Decimal)
    ensures SameValue(Normalize(d), d) <==> Fits(d)
  {
    SameIffReduced(Normalize(d), d);
    if d.coefficient == 0 {
      ZeroPrintsZero(d);
      assert Normalize(d).coefficient == 0;
    } else {
      NormalizedFits(d);
      if Fits(d) { FittingIsKept(d); }
    }
  }

  // ---- reading printed text ---------------------------------------------------------------------------

  lemma {:induction false} PlainMagnitude(s: string)
    requires AllDigits(s) && s != []
    ensures Magnitude(s) == Some((NatOf(s), 0))
  {
    assert IndexOf(s, {'e', 'E'}) == |s| && IndexOf(s, {'.'}) == |s|;
    assert s[..|s|] == s && s + [] == s;
    assert Mantissa(s) == Some((NatOf(s), 0));
  }

  lemma {:induction false} IndexIs(s: string, cs: set<char>, i: nat)
    requires i <= |s| && (i < |s| ==> s[i] in cs)
    requires forall k :: 0 <= k < i ==> s[k] !in cs
    ensures IndexOf(s, cs) == i
  {
  }

  lemma {:induction false} MantissaAt(whole: string, fraction: string, text: string, digits: string)
    requires AllDigits(whole) && AllDigits(fraction) && whole != [] && text == whole + "." + fraction
    requires digits == whole + fraction && AllDigits(digits)
    ensures Mantissa(text) == Some((NatOf(digits), |fraction|))
  {
    IndexIs(text, {'.'}, |whole|);
    assert text[..|whole|] == whole;
    assert text[|whole| + 1..] == fraction;
  }

  predicate Unmarked(s: string) {
    forall k :: 0 <= k < |s| ==> s[k] !in {'e', 'E'}
  }

  lemma {:induction false} JoinIsUnmarked(whole: string, fraction: string, text: string)
    requires AllDigits(whole) && AllDigits(fraction) && text == whole + "." + fraction
    ensures Unmarked(text)
  {
    forall k | 0 <= k < |text| ensures text[k] !in {'e', 'E'} {
      if k < |whole| {
        assert text[k] == whole[k];
      } else if |whole| < k {
        assert text[k] == fraction[k - |whole| - 1];
      }
    }
  }

  lemma {:induction false} SplitAndJoin(s: string, n: nat)
    requires n <= |s|
    ensures s[..n] + s[n..] == s
  {
  }

  lemma {:induction false} PointedMantissa(s: string, places: nat)
    requires AllDigits(s) && places < |s|
    ensures Mantissa(Pointed(s, places)) == Some((NatOf(s), places))
  {
    var n := |s| - places;
    SplitAndJoin(s, n);
    MantissaAt(s[..n], s[n..], Pointed(s, places), s);
  }

  lemma {:induction false} PointedIsUnmarked(s: string, places: nat)
    requires AllDigits(s) && places < |s|
    ensures Unmarked(Pointed(s, places))
  {
    var n := |s| - places;
    JoinIsUnmarked(s[..n], s[n..], Pointed(s, places));
  }

  lemma {:induction false} PointedMagnitude(s: string, places: nat)
    requires AllDigits(s) && places < |s|
    ensures Magnitude(Pointed(s, places)) == Some((NatOf(s), 0 - places))
  {
    PointedMantissa(s, places);
    PointedIsUnmarked(s, places);
    UnmarkedMagnitude(Pointed(s, places), NatOf(s), places);
  }

  lemma {:induction false} UnmarkedMagnitude(s: string, n: nat, places: nat)
    requires Unmarked(s) && Mantissa(s) == Some((n, places))
    ensures Magnitude(s) == Some((n, 0 - places))
  {
    IndexIs(s, {'e', 'E'}, |s|);
    TakeAll(s);
  }

  lemma {:induction false} PaddedReadsBack(c: nat, places: nat)
    ensures NatOf(Padded(c, places)) == c
  {
    var digits := DigitsOf(c);
    DigitsReadBack(c);
    ReadsZerosBefore(if |digits| <= places then places + 1 - |digits| else 0, digits);
  }

  lemma {:induction false} WholeReadsBack(negative: bool, c: nat, e: nat)
    ensures var s := Unsigned(c, e); var m := Magnitude(s);
      s != [] && IsDigit(s[0]) && m.Some? && SameValue(Decimal(negative, m.value.0, m.value.1), Decimal(negative, c, e))
  {
    PlainMagnitude(DigitsOf(c) + Zeros(e));
    DigitsReadBack(c);
    ReadsZerosAfter(DigitsOf(c), e);
    ScaledIsSame(negative, c, e, 0, e);
  }

  /** The unsigned text reads back as the same number. */
  lemma {:induction false} UnsignedReadsBack(negative: bool, c: nat, e: int)
    ensures var s := Unsigned(c, e); var m := Magnitude(s);
      s != [] && IsDigit(s[0]) && m.Some? && SameValue(Decimal(negative, m.value.0, m.value.1), Decimal(negative, c, e))
  {
    if 0 <= e {
      WholeReadsBack(negative, c, e);
    } else {
      PaddedReadsBack(c, -e);
      PointedMagnitude(Padded(c, -e), -e);
      SameReflexive(Decimal(negative, c, e));
    }
  }

  lemma {:induction false} SameReflexive(d: Decimal)
    ensures SameValue(d, d)
  {
    assert Pow10(0) == 1 && Signed(d) * 1 == Signed(d);
  }

  lemma {:induction false} ZeroReadsBack()
    ensures DecimalOf("0") == Some(Decimal(false, 0, 0))
  {
    PlainMagnitude("0");
    assert "0"[..0] == [] && NatOf("0"[..0]) == 0;
  }

  lemma {:induction false} SignedReadsBack(negative: bool, body: string)
    requires body != [] && IsDigit(body[0]) && Magnitude(body).Some?
    ensures var m := Magnitude(body).value;
      DecimalOf((if negative then "-" else "") + body) == Some(Decimal(negative, m.0, m.1))
  {
    var raw := (if negative then "-" else "") + body;
    if negative {
      assert raw[0] == '-' && raw[1..] == body;
    } else {
      assert raw == body;
    }
  }

  /** Every printed text is accepted, and reads back as the rounded number. */
  lemma {:induction false} PrintedTextIsAccepted(d: Decimal)
    ensures DecimalString(Canonical(d)).Some?
    ensures SameValue(DecimalString(Canonical(d)).value, Normalize(d))
  {
    var n := Normalize(d);
    if n.coefficient == 0 {
      ZeroReadsBack();
      ZeroPrintsZero(Decimal(false, 0, 0));
      SameIffReduced(Decimal(false, 0, 0), n);
    } else {
      var body := Unsigned(n.coefficient, n.exponent);
      UnsignedReadsBack(n.negative, n.coefficient, n.exponent);
      SignedReadsBack(n.negative, body);
      var v := Decimal(n.negative, Magnitude(body).value.0, Magnitude(body).value.1);
      EqualValuesPrintAlike(v, n);
      PrintingTwice(d);
    }
  }

  lemma {:induction false} PrintingTwice(d: Decimal)
    ensures Canonical(Normalize(d)) == Canonical(d)
  {
    if d.coefficient == 0 {
      ZeroPrintsZero(d);
      assert Normalize(d).coefficient == 0;
      ZeroPrintsZero(Normalize(d));
    } else {
      NormalizedFits(d);
      FittingIsKept(Normalize(d));
    }
  }

  lemma {:induction false} SameTransitive(a: Decimal, b: Decimal, c: Decimal)
    requires SameValue(a, b)
    ensures SameValue(a, c) <==> SameValue(b, c)
  {
    SameIffReduced(a, b);
    SameIffReduced(a, c);
    SameIffReduced(b, c);
  }

  /** Printing then parsing gives the number back exactly when it has at most 28
      significant digits. */
  lemma {:induction false} RoundTripIffFits(d: Decimal)
    ensures DecimalString(Canonical(d)).Some?
    ensures SameValue(DecimalString(Canonical(d)).value, d) <==> Fits(d)
  {
    PrintedTextIsAccepted(d);
    SameTransitive(DecimalString(Canonical(d)).value, Normalize(d), d);
    KeptIffFits(d);
  }

  /** Among numbers that fit, texts are equal exactly when the numbers are. */
  lemma {:induction false} EqualTextsIffEqualValues(a: Decimal, b: Decimal)
    requires Fits(a) && Fits(b)
    ensures Canonical(a) == Canonical(b) <==> SameValue(a, b)
  {
    if SameValue(a, b) {
      EqualValuesPrintAlike(a, b);
    } else if Canonical(a) == Canonical(b) {
      RoundTripIffFits(a);
      RoundTripIffFits(b);
      SameTransitive(DecimalString(Canonical(a)).value, a, b);
    }
  }

  /** The parser accepts the canonical texts and nothing else, and what it returns prints
      as the text it was read from. */
  lemma {:induction false} AcceptsExactlyCanonicalText(raw: string)
    ensures DecimalString(raw).Some? <==> exists d :: Canonical(d) == raw
    ensures DecimalString(raw).Some? ==> Canonical(DecimalString(raw).value) == raw
  {
    if d :| Canonical(d) == raw { PrintedTextIsAccepted(d); }
  }
}
