/** Canonical decimal text: the printer, which rounds to the 28 digits of the default
    context, and the parser, which accepts canonical text only. */
module Decimals {
  import opened Base

  const PRECISION: nat := 28

  datatype Decimal = Decimal(negative: bool, coefficient: nat, exponent: int)

  function Pow10(k: nat): (p: nat)
    ensures 1 <= p
  {
    if k == 0 then 1 else 10 * Pow10(k - 1)
  }

  function Signed(d: Decimal): int {
    if d.negative then 0 - d.coefficient else d.coefficient
  }

  /** Equality of decimals is equality of numbers, brought to the smaller exponent. */
  predicate SameValue(a: Decimal, b: Decimal) {
    if a.exponent <= b.exponent
    then Signed(a) == Signed(b) * Pow10(b.exponent - a.exponent)
    else Signed(b) == Signed(a) * Pow10(a.exponent - b.exponent)
  }

  // ---- digits --------------------------------------------------------------------------------

  predicate IsDigit(c: char) {
    '0' <= c <= '9'
  }

  predicate AllDigits(s: string) {
    forall i :: 0 <= i < |s| ==> IsDigit(s[i])
  }

  function DigitChar(d: nat): (c: char)
    requires d < 10
    ensures IsDigit(c)
  {
    ('0' as int + d) as char
  }

  function DigitsOf(n: nat): (s: string)
    ensures AllDigits(s) && s != []
  {
    if n < 10 then [DigitChar(n)] else DigitsOf(n / 10) + [DigitChar(n % 10)]
  }

  function NatOf(s: string): nat
    requires AllDigits(s)
  {
    if s == [] then 0 else NatOf(s[..|s| - 1]) * 10 + (s[|s| - 1] as int - '0' as int)
  }

  function Zeros(k: nat): (s: string)
    ensures AllDigits(s) && |s| == k
  {
    if k == 0 then [] else Zeros(k - 1) + ['0']
  }

  // ---- the printer -----------------------------------------------------------------------------

  /** Divide out trailing zeros; zero becomes the plain zero. */
  function Strip(negative: bool, c: nat, e: int): Decimal {
    if c == 0 then Decimal(negative, 0, 0)
    else if c % 10 == 0 then Strip(negative, c / 10, e + 1)
    else Decimal(negative, c, e)
  }

  /** The quotient by p, ties to the even neighbour. */
  function RoundHalfEven(c: nat, p: nat): nat
    requires 1 <= p
  {
    var q, r := c / p, c % p;
    if p < 2 * r || (p == 2 * r && q % 2 == 1) then q + 1 else q
  }

  function Excess(c: nat): nat {
    var n := |DigitsOf(c)|;
    if PRECISION < n then n - PRECISION else 0
  }

  function Normalize(d: Decimal): Decimal {
    var k := Excess(d.coefficient);
    Strip(d.negative, RoundHalfEven(d.coefficient, Pow10(k)), d.exponent + k)
  }

  /** The digits with enough zeros in front to put one before the point. */
  function Padded(c: nat, places: nat): (s: string)
    ensures AllDigits(s) && places < |s|
  {
    var digits := DigitsOf(c);
    Zeros(if |digits| <= places then places + 1 - |digits| else 0) + digits
  }

  function Pointed(s: string, places: nat): string
    requires places <= |s|
  {
    s[..|s| - places] + "." + s[|s| - places..]
  }

  function Unsigned(c: nat, e: int): string {
    if 0 <= e then DigitsOf(c) + Zeros(e) else Pointed(Padded(c, -e), -e)
  }

  function Canonical(d: Decimal): string {
    var n := Normalize(d);
    if n.coefficient == 0 then "0"
    else (if n.negative then "-" else "") + Unsigned(n.coefficient, n.exponent)
  }

  // ---- the parser --------------------------------------------------------------------------------

  /** The first position at or after i that holds one of these characters, or the end. */
  function IndexFrom(s: string, cs: set<char>, i: nat): (r: nat)
    requires i <= |s|
    ensures i <= r <= |s| && (r < |s| ==> s[r] in cs) && forall k :: i <= k < r ==> s[k] !in cs
    decreases |s| - i
  {
    if i == |s| || s[i] in cs then i else IndexFrom(s, cs, i + 1)
  }

  function IndexOf(s: string, cs: set<char>): (r: nat)
    ensures r <= |s| && (r < |s| ==> s[r] in cs) && forall k :: 0 <= k < r ==> s[k] !in cs
  {
    IndexFrom(s, cs, 0)
  }

  /** A whole number with an optional sign, as in an exponent. */
  function SignedNumber(s: string): Option<int> {
    var body := if HasSign(s) then s[1..] else s;
    if body == [] || !AllDigits(body) then None
    else
      var n: int := NatOf(body);
      if s[0] == '-' then Some(-n) else Some(n)
  }

  /** Digits with at most one point, and at least one digit. */
  function Mantissa(s: string): Option<(nat, nat)> {
    var dot := IndexOf(s, {'.'});
    var whole, fraction := s[..dot], if dot < |s| then s[dot + 1..] else [];
    if !AllDigits(whole) || !AllDigits(fraction) || whole + fraction == [] then None
    else Some((NatOf(whole + fraction), |fraction|))
  }

  function HasSign(raw: string): bool {
    raw != [] && (raw[0] == '+' || raw[0] == '-')
  }

  /** A mantissa with an optional exponent: coefficient and exponent. */
  function Magnitude(body: string): Option<(nat, int)> {
    var mark := IndexOf(body, {'e', 'E'});
    var m := Mantissa(body[..mark]);
    var e := if mark < |body| then SignedNumber(body[mark + 1..]) else Some(0);
    if m.None? || e.None? then None else Some((m.value.0, e.value - m.value.1))
  }

  /** The value of a finite decimal literal. */
  function DecimalOf(raw: string): Option<Decimal> {
    var m := Magnitude(if HasSign(raw) then raw[1..] else raw);
    if m.None? then None else Some(Decimal(raw != [] && raw[0] == '-', m.value.0, m.value.1))
  }

  function DecimalString(raw: string): Option<Decimal> {
    var value := DecimalOf(raw);
    if value.Some? && Canonical(value.value) == raw then value else None
  }

  // ---- powers and digits ---------------------------------------------------------------------------

  lemma {:induction false} PowAdds(a: nat, b: nat)
    ensures Pow10(a + b) == Pow10(a) * Pow10(b)
  {
    if a != 0 {
      PowAdds(a - 1, b);
      assert Pow10(a + b) == 10 * (Pow10(a - 1) * Pow10(b)) == (10 * Pow10(a - 1)) * Pow10(b);
    }
  }

  lemma {:induction false} DigitsReadBack(n: nat)
    ensures NatOf(DigitsOf(n)) == n
  {
    if 10 <= n {
      DigitsReadBack(n / 10);
      var s := DigitsOf(n);
      assert s[..|s| - 1] == DigitsOf(n / 10);
    } else {
      var s := DigitsOf(n);
      assert s[..0] == [];
    }
  }

  lemma {:induction false} DigitCountBounds(n: nat)
    ensures n < Pow10(|DigitsOf(n)|)
    ensures 0 < n ==> Pow10(|DigitsOf(n)| - 1) <= n
  {
    if 10 <= n { DigitCountBounds(n / 10); }
  }

  lemma {:induction false} PowGrows(a: nat, b: nat)
    requires a <= b
    ensures Pow10(a) <= Pow10(b)
  {
    if a < b { PowGrows(a, b - 1); }
  }

  lemma {:induction false} AppendedZero(s: string)
    requires AllDigits(s)
    ensures AllDigits(s + ['0']) && NatOf(s + ['0']) == NatOf(s) * 10
  {
    var t := s + ['0'];
    assert t[..|t| - 1] == s;
  }

  lemma {:induction false} TimesTen(n: nat, p: nat)
    ensures (n * p) * 10 == n * (10 * p)
  {
  }

  lemma {:induction false} ReadsZerosAfter(s: string, k: nat)
    requires AllDigits(s)
    ensures AllDigits(s + Zeros(k)) && NatOf(s + Zeros(k)) == NatOf(s) * Pow10(k)
  {
    if k == 0 {
      assert s + Zeros(0) == s && NatOf(s) * Pow10(0) == NatOf(s);
    } else {
      ReadsZerosAfter(s, k - 1);
      AppendedZero(s + Zeros(k - 1));
      assert s + Zeros(k) == (s + Zeros(k - 1)) + ['0'];
      TimesTen(NatOf(s), Pow10(k - 1));
    }
  }

  lemma {:induction false} ReadsZerosBefore(k: nat, s: string)
    requires AllDigits(s)
    ensures NatOf(Zeros(k) + s) == NatOf(s)
    decreases |s|, k
  {
    var t := Zeros(k) + s;
    if s == [] {
      assert t == [] + Zeros(k);
      ReadsZerosAfter([], k);
    } else {
      assert t[..|t| - 1] == Zeros(k) + s[..|s| - 1];
      ReadsZerosBefore(k, s[..|s| - 1]);
    }
  }
}
