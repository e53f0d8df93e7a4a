/**
 * Python's `Decimal` as far as the invoice generator uses it, and `money`:
 * quantize to cents with ROUND_HALF_UP and print with two fractional digits.
 */
module Decimals {
  import opened Optional

  /**
   * A finite decimal: the value is (-1 if `neg`) * `coef` / 10^`scale`.
   * The sign is kept apart from the coefficient so that a negative zero
   * (`Decimal('-0.00')`) is representable, as in Python.
   */
  datatype Decimal = Decimal(neg: bool, coef: nat, scale: nat)

  function Pow10(k: nat): (r: nat)
    ensures r >= 1
  {
    if k == 0 then 1 else 10 * Pow10(k - 1)
  }

  lemma {:induction false} Pow10Add(a: nat, b: nat)
    ensures Pow10(a + b) == Pow10(a) * Pow10(b)
    decreases a
  {
    if a > 0 {
      Pow10Add(a - 1, b);
      assert Pow10(a + b) == 10 * Pow10(a - 1 + b);
    }
  }

  /** The value scaled to an integer count of 10^-`scale` units, with its sign. */
  function Signed(x: Decimal): int {
    if x.neg then -(x.coef as int) else x.coef as int
  }

  /**
   * `c` is the magnitude `m` / 10^`s` rounded to hundredths half-up:
   * |100 * m / 10^s - c| <= 1/2, and an exact half goes to the larger `c`.
   */
  predicate RoundsHalfUp(m: nat, s: nat, c: nat) {
    (2 * c - 1) * Pow10(s) <= 200 * m < (2 * c + 1) * Pow10(s)
  }

  /** `m` followed by `k` zero digits. */
  function Shift(m: nat, k: nat): nat
    decreases k
  {
    if k == 0 then m else 10 * Shift(m, k - 1)
  }

  /** `m` without its last `k` digits. */
  function Drop(m: nat, k: nat): nat
    decreases k
  {
    if k == 0 then m else Drop(m, k - 1) / 10
  }

  /**
   * `x.quantize(Decimal('0.01'), rounding=ROUND_HALF_UP)`: the sign is kept
   * and the scale becomes 2. Digits below the cents are dropped, and the
   * cent count goes up by one when the first dropped digit is 5 or more.
   */
  function Quantize(x: Decimal): Decimal {
    if x.scale <= 2 then
      Decimal(x.neg, Shift(x.coef, 2 - x.scale), 2)
    else
      var t := Drop(x.coef, x.scale - 3);
      Decimal(x.neg, t / 10 + (if t % 10 >= 5 then 1 else 0), 2)
  }

  /** Multiplying by a non-negative number keeps an inequality. */
  lemma MulMono(a: int, b: int, p: nat)
    requires a <= b
    ensures a * p <= b * p
  {
    assert b * p - a * p == (b - a) * p;
  }

  lemma {:induction false} ShiftMul(m: nat, k: nat)
    ensures Shift(m, k) == m * Pow10(k)
    decreases k
  {
    if k > 0 {
      ShiftMul(m, k - 1);
      assert m * Pow10(k) == 10 * (m * Pow10(k - 1));
    }
  }

  /** If `t` counts whole units of `p` in `m`, then `t` / 10 counts whole units of 10 * `p`. */
  lemma DropDigit(m: nat, p: nat, t: nat)
    requires t * p <= m < (t + 1) * p
    ensures (t / 10) * (10 * p) <= m < (t / 10 + 1) * (10 * p)
  {
    var q, r := t / 10, t % 10;
    assert t == 10 * q + r && 0 <= r < 10;
    MulMono(10 * q, t, p);
    MulMono(t + 1, 10 * q + 10, p);
    assert q * (10 * p) == (10 * q) * p;
    assert (q + 1) * (10 * p) == (10 * q + 10) * p;
  }

  /** Dropping `k` digits is dividing by 10^`k`, rounding down. */
  lemma {:induction false} DropBounds(m: nat, k: nat)
    ensures Drop(m, k) * Pow10(k) <= m < (Drop(m, k) + 1) * Pow10(k)
    decreases k
  {
    if k > 0 {
      DropBounds(m, k - 1);
      DropDigit(m, Pow10(k - 1), Drop(m, k - 1));
    }
  }

  /**
   * The rounding step of `Quantize`: `t` is the magnitude `m` counted in
   * units of `p` (a tenth of a cent), and `c` rounds `t` / 10 half-up.
   */
  lemma DigitRoundsHalfUp(m: nat, p: nat, t: nat, c: nat)
    requires p >= 1 && t * p <= m < (t + 1) * p
    requires c == t / 10 + (if t % 10 >= 5 then 1 else 0)
    ensures (2 * c - 1) * (1000 * p) <= 200 * m < (2 * c + 1) * (1000 * p)
  {
    var q, r := t / 10, t % 10;
    assert t == 10 * q + r && 0 <= r < 10;
    assert (2 * c - 1) * (1000 * p) == 200 * ((10 * c - 5) * p);
    assert (2 * c + 1) * (1000 * p) == 200 * ((10 * c + 5) * p);
    assert 200 * m < 200 * ((t + 1) * p);
    if r >= 5 {
      MulMono(10 * c - 5, t, p);
      MulMono(t + 1, 10 * c + 5, p);
    } else {
      MulMono(10 * c - 5, t, p);
      MulMono(t + 1, 10 * c + 5, p);
    }
  }

  /** Below two decimal places no rounding happens: the cent count is exact. */
  lemma ShiftRoundsHalfUp(m: nat, s: nat)
    requires s <= 2
    ensures RoundsHalfUp(m, s, Shift(m, 2 - s))
  {
    var c: int, e: int, p: int := Shift(m, 2 - s), Pow10(2 - s), Pow10(s);
    Pow10Add(s, 2 - s);
    ShiftMul(m, 2 - s);
    assert p * e == 100;
    assert c * p == m * 100 by {
      assert c * p == m * (e * p);
    }
    assert (2 * c - 1) * p == 2 * (c * p) - p;
    assert (2 * c + 1) * p == 2 * (c * p) + p;
  }

  /** Quantizing rounds the magnitude to cents with ties away from zero, and keeps the sign. */
  lemma QuantizeRoundsHalfUp(x: Decimal)
    ensures var q := Quantize(x);
      q.scale == 2 && q.neg == x.neg && RoundsHalfUp(x.coef, x.scale, q.coef)
  {
    var m, s := x.coef, x.scale;
    if s <= 2 {
      ShiftRoundsHalfUp(m, s);
    } else {
      var p := Pow10(s - 3);
      Pow10Add(3, s - 3);
      DropBounds(m, s - 3);
      DigitRoundsHalfUp(m, p, Drop(m, s - 3), Quantize(x).coef);
    }
  }

  /** At most one cent count rounds a given magnitude half-up: the rounding is well defined. */
  lemma RoundsHalfUpUnique(m: nat, s: nat, c1: nat, c2: nat)
    requires RoundsHalfUp(m, s, c1) && RoundsHalfUp(m, s, c2)
    ensures c1 == c2
  {
    var p := Pow10(s);
    if c1 < c2 {
      MulMono(2 * c1 + 1, 2 * c2 - 1, p);
    } else if c2 < c1 {
      MulMono(2 * c2 + 1, 2 * c1 - 1, p);
    }
  }

  /** A decimal already at scale 2 is its own quantization. */
  lemma QuantizeScale2(x: Decimal)
    requires x.scale == 2
    ensures Quantize(x) == x
  {
  }

  /** `a * b`: signs combine by exclusive or, coefficients multiply, scales add. */
  function Mul(a: Decimal, b: Decimal): Decimal {
    Decimal(a.neg != b.neg, a.coef * b.coef, a.scale + b.scale)
  }

  /** The signed value of `x` counted in units of 10^-`s`. */
  function Rescaled(x: Decimal, s: nat): int
    requires x.scale <= s
  {
    var c: int := Shift(x.coef, s - x.scale);
    if x.neg then -c else c
  }

  /**
   * `a + b`: exact, at the larger scale. A zero sum is negative only when
   * both operands are negative (the rule Python's decimal module applies).
   */
  function Add(a: Decimal, b: Decimal): Decimal {
    var s := if a.scale >= b.scale then a.scale else b.scale;
    var v := Rescaled(a, s) + Rescaled(b, s);
    Decimal(if v == 0 then a.neg && b.neg else v < 0, if v < 0 then -v else v, s)
  }

  /** Adding two amounts in cents adds their signed cent counts exactly. */
  lemma AddCents(a: Decimal, b: Decimal)
    requires a.scale == 2 && b.scale == 2
    ensures Add(a, b).scale == 2
    ensures Signed(Add(a, b)) == Signed(a) + Signed(b)
    ensures Add(a, b).coef == 0 && Add(a, b).neg ==> a.neg && b.neg
  {
  }

  predicate IsDigit(c: char) {
    '0' <= c <= '9'
  }

  function DigitChar(d: nat): (c: char)
    requires d < 10
  {
    ('0' as int + d) as char
  }

  function DigitValue(c: char): nat
    requires IsDigit(c)
  {
    (c as int - '0' as int) as nat
  }

  predicate AllDigits(s: string) {
    forall i :: 0 <= i < |s| ==> IsDigit(s[i])
  }

  /** The number a string of decimal digits denotes. */
  function DigitsValue(s: string): nat
    requires AllDigits(s)
    decreases |s|
  {
    if s == [] then 0 else 10 * DigitsValue(s[..|s| - 1]) + DigitValue(s[|s| - 1])
  }

  /** The decimal digits of `n`, without leading zeros. */
  function NatToDigits(n: nat): (r: string)
    ensures |r| >= 1 && AllDigits(r)
    ensures r[0] == '0' ==> n == 0 && r == "0"
    ensures DigitsValue(r) == n
    decreases n
  {
    if n < 10 then [DigitChar(n)]
    else
      var p := NatToDigits(n / 10);
      var r := p + [DigitChar(n % 10)];
      assert r[..|r| - 1] == p;
      r
  }

  /**
   * `f"{q:.2f}"` of a decimal already at scale 2: a minus sign when the sign
   * bit is set, the whole units, a dot, and exactly two digits.
   */
  function Format2(q: Decimal): string
    requires q.scale == 2
  {
    (if q.neg then "-" else "") + NatToDigits(q.coef / 100) + "." + [DigitChar(q.coef / 10 % 10), DigitChar(q.coef % 10)]
  }

  /** `money(x)`. */
  function Money(x: Decimal): string {
    Format2(Quantize(x))
  }

  /**
   * Reads back a text of the shape `money` prints: an optional `-`, at
   * least one digit, a `.`, and exactly two digits; the result is at scale 2.
   */
  function ParseAmount(r: string): Option<Decimal> {
    var neg := |r| > 0 && r[0] == '-';
    var body := if neg then r[1..] else r;
    var n := |body|;
    if n >= 4 && body[n - 3] == '.' && AllDigits(body[..n - 3]) && IsDigit(body[n - 2]) && IsDigit(body[n - 1]) then
      Some(Decimal(neg, 100 * DigitsValue(body[..n - 3]) + 10 * DigitValue(body[n - 2]) + DigitValue(body[n - 1]), 2))
    else
      None
  }

  /** The characters `money` may print. */
  predicate IsAmountChar(c: char) {
    IsDigit(c) || c == '.' || c == '-'
  }

  lemma CentsDigits(c: nat)
    ensures 100 * (c / 100) + 10 * (c / 10 % 10) + c % 10 == c
  {
    assert c == 10 * (c / 10) + c % 10;
    assert c / 10 == 10 * (c / 10 / 10) + c / 10 % 10;
    assert c / 10 / 10 == c / 100;
  }

  /** The printed form of a scale-2 decimal reads back as that decimal. */
  lemma Format2Parses(q: Decimal)
    requires q.scale == 2
    ensures ParseAmount(Format2(q)) == Some(q)
  {
    var sign: string := if q.neg then "-" else "";
    var w := NatToDigits(q.coef / 100);
    var body := w + "." + [DigitChar(q.coef / 10 % 10), DigitChar(q.coef % 10)];
    var r := Format2(q);
    assert r == sign + body;
    var n := |body|;
    assert body[..n - 3] == w;
    assert body[n - 3] == '.';
    assert DigitValue(body[n - 2]) == q.coef / 10 % 10;
    assert DigitValue(body[n - 1]) == q.coef % 10;
    CentsDigits(q.coef);
    if q.neg {
      assert r[1..] == body;
    } else {
      assert r[0] == w[0] && IsDigit(w[0]);
      assert r == body;
    }
  }

  /**
   * The printed form of a scale-2 decimal: a minus sign exactly when the sign
   * bit is set, then digits, a dot, and exactly two digits.
   */
  lemma Format2Shape(q: Decimal)
    requires q.scale == 2
    ensures var r := Format2(q);
      && |r| >= 4
      && (r[0] == '-' <==> q.neg)
      && r[|r| - 3] == '.'
      && (forall i :: (if q.neg then 1 else 0) <= i < |r| && i != |r| - 3 ==> IsDigit(r[i]))
      && (forall i :: 0 <= i < |r| ==> IsAmountChar(r[i]))
  {
    var sign: string := if q.neg then "-" else "";
    var w := NatToDigits(q.coef / 100);
    var body := w + "." + [DigitChar(q.coef / 10 % 10), DigitChar(q.coef % 10)];
    var r := Format2(q);
    assert r == sign + body;
    if !q.neg {
      assert r[0] == w[0];
    }
    forall i | (if q.neg then 1 else 0) <= i < |r| && i != |r| - 3 ensures IsDigit(r[i]) {
      var k := i - |sign|;
      assert r[i] == body[k];
      if k < |w| { assert body[k] == w[k]; }
    }
  }

  /**
   * `money(x)` has a sign exactly when `x` is negative (negative zero
   * included), then digits, a dot and exactly two fractional digits, and it
   * reads back as `x` rounded half-up to cents.
   */
  lemma MoneySpec(x: Decimal)
    ensures var r := Money(x);
      && |r| >= 4
      && (r[0] == '-' <==> x.neg)
      && r[|r| - 3] == '.'
      && (forall i :: (if x.neg then 1 else 0) <= i < |r| && i != |r| - 3 ==> IsDigit(r[i]))
      && (forall i :: 0 <= i < |r| ==> IsAmountChar(r[i]))
      && exists q :: ParseAmount(r) == Some(q) && q.neg == x.neg && RoundsHalfUp(x.coef, x.scale, q.coef)
  {
    var q := Quantize(x);
    QuantizeRoundsHalfUp(x);
    Format2Shape(q);
    Format2Parses(q);
  }

  /** The half-up boundary: 10.005 prints as "10.01" and 10.015 as "10.02". */
  lemma MoneyHalfUpExamples()
    ensures Money(Decimal(false, 10005, 3)) == "10.01"
    ensures Money(Decimal(false, 10015, 3)) == "10.02"
    ensures Money(Decimal(true, 1, 3)) == "-0.00"
  {
    assert Quantize(Decimal(false, 10005, 3)) == Decimal(false, 1001, 2);
    assert Quantize(Decimal(false, 10015, 3)) == Decimal(false, 1002, 2);
    assert Quantize(Decimal(true, 1, 3)) == Decimal(true, 0, 2);
    assert NatToDigits(10) == "10" by {
      assert NatToDigits(1) == "1";
    }
  }
}
