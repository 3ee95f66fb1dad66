/**
 Decimal normal form (`BigDecimal::normalized` in chain/solana-sdk/src/scalar.rs): round to 34
 significant digits, the precision of IEEE-754 decimal128, and drop trailing zeros.

 The rounding itself is in the bigdecimal crate. Here `up` decides for each magnitude whether the
 kept digits are increased by one; every claim holds for every such rounding.
 */
module Decimals {

  const MAX_SIGNIFICANT_DIGITS: nat := 34

  /** The number `digits` times ten to the power of `-scale`. */
  datatype BigDecimal = BigDecimal(digits: int, scale: int)

  type Rounding = nat -> bool

  function Pow10(n: nat): (p: nat)
    ensures p > 0
  {
    if n == 0 then 1 else 10 * Pow10(n - 1)
  }

  function NumDigits(m: nat): (n: nat)
    ensures n >= 1
  {
    if m < 10 then 1 else 1 + NumDigits(m / 10)
  }

  function Abs(n: int): nat {
    if n < 0 then -n else n
  }

  /** `m` with the sign of `n`. */
  function WithSign(n: int, m: int): int {
    if n < 0 then -m else m
  }

  /** The magnitude without its last `j` digits. */
  function Drop(m: nat, j: nat): nat {
    if j == 0 then m else Drop(m / 10, j - 1)
  }

  /** The magnitude brought to exactly `prec` digits (or one more when rounding carries), and the change of scale. */
  function RoundMagnitude(m: nat, prec: nat, up: Rounding): (nat, int) {
    var n := NumDigits(m);
    if n > prec then
      var kept := Drop(m, n - prec);
      (if kept * Pow10(n - prec) != m && up(m) then kept + 1 else kept, prec - n)
    else (m * Pow10(prec - n), prec - n)
  }

  function WithPrec(d: BigDecimal, prec: nat, up: Rounding): BigDecimal {
    var (m, shift) := RoundMagnitude(Abs(d.digits), prec, up);
    BigDecimal(WithSign(d.digits, m), d.scale + shift)
  }

  /** The magnitude without its trailing zeros, and how many there were. */
  function Strip(m: nat): (r: (nat, nat))
    requires m > 0
    ensures 0 < r.0 <= m && r.0 % 10 != 0
  {
    if m % 10 != 0 then (m, 0) else var (x, k) := Strip(m / 10); (x, k + 1)
  }

  /** The normal form without any limit on the digits. */
  function Canonical(d: BigDecimal): BigDecimal {
    if d.digits == 0 then BigDecimal(0, 0)
    else var (x, k) := Strip(Abs(d.digits)); BigDecimal(WithSign(d.digits, x), d.scale - k)
  }

  function Normal(d: BigDecimal, up: Rounding): BigDecimal {
    if d.digits == 0 then BigDecimal(0, 0) else Canonical(WithPrec(d, MAX_SIGNIFICANT_DIGITS, up))
  }

  // ---------- The digit vector ----------

  /** Decimal digits, most significant first. */
  function ToDigits(m: nat): (ds: seq<nat>)
    ensures ds != [] && ds[|ds| - 1] == m % 10
  {
    if m < 10 then [m] else ToDigits(m / 10) + [m % 10]
  }

  function FromDigits(ds: seq<nat>): nat {
    if ds == [] then 0 else 10 * FromDigits(ds[..|ds| - 1]) + ds[|ds| - 1]
  }

  lemma {:induction false} DigitsRoundTrip(m: nat)
    ensures FromDigits(ToDigits(m)) == m
  {
    var ds := ToDigits(m);
    if m < 10 {
      assert ds[..0] == [];
    } else {
      DigitsRoundTrip(m / 10);
      assert ds[..|ds| - 1] == ToDigits(m / 10);
    }
  }

  method Normalized(d: BigDecimal, up: Rounding) returns (r: BigDecimal)
    ensures r == Normal(d, up)
  {
    if d.digits == 0 {
      return BigDecimal(0, 0);
    }
    var rounded := WithPrec(d, MAX_SIGNIFICANT_DIGITS, up);
    RoundedBounds(Abs(d.digits), MAX_SIGNIFICANT_DIGITS, up);
    var digits, trailing := Truncate(Abs(rounded.digits));
    r := BigDecimal(WithSign(rounded.digits, FromDigits(digits)), rounded.scale - trailing);
  }

  /** Counts the trailing zero digits and cuts them off the vector. */
  method Truncate(m: nat) returns (digits: seq<nat>, trailing: nat)
    requires m > 0
    ensures FromDigits(digits) == Strip(m).0 && trailing == Strip(m).1
  {
    digits := ToDigits(m);
    trailing := 0;
    ghost var left := m;
    while digits[|digits| - 1 - trailing] == 0
      invariant left > 0 && trailing < |digits|
      invariant digits[..|digits| - trailing] == ToDigits(left)
      invariant Strip(m) == (Strip(left).0, Strip(left).1 + trailing)
      decreases left
    {
      ghost var shorter := digits[..|digits| - trailing];
      assert shorter[|shorter| - 1] == left % 10;
      assert shorter[..|shorter| - 1] == ToDigits(left / 10);
      trailing := trailing + 1;
      left := left / 10;
      assert digits[..|digits| - trailing] == shorter[..|shorter| - 1];
    }
    ghost var last := digits[..|digits| - trailing];
    assert last[|last| - 1] == left % 10;
    digits := digits[..|digits| - trailing];
    DigitsRoundTrip(left);
  }

  // ---------- Powers of ten ----------

  lemma {:induction false} ShiftTwice(x: int, a: nat, b: nat)
    ensures x * Pow10(a + b) == (x * Pow10(a)) * Pow10(b)
  {
    if b > 0 {
      ShiftTwice(x, a, b - 1);
      assert x * Pow10(a + b) == 10 * (x * Pow10(a + (b - 1)));
      assert (x * Pow10(a)) * Pow10(b) == 10 * ((x * Pow10(a)) * Pow10(b - 1));
    }
  }

  lemma {:induction false} BelowPower(m: nat)
    ensures m < Pow10(NumDigits(m))
  {
    if m >= 10 {
      BelowPower(m / 10);
    }
  }

  lemma {:induction false} DigitsBelow(m: nat, n: nat)
    requires m < Pow10(n) && n >= 1
    ensures NumDigits(m) <= n
  {
    if m >= 10 {
      DigitsBelow(m / 10, n - 1);
    }
  }

  lemma {:induction false} NumDigitsShift(m: nat, j: nat)
    requires m > 0
    ensures m * Pow10(j) > 0 && NumDigits(m * Pow10(j)) == NumDigits(m) + j
  {
    if j > 0 {
      NumDigitsShift(m, j - 1);
      assert m * Pow10(j) == 10 * (m * Pow10(j - 1));
    }
  }

  lemma {:induction false} NumDigitsDrop(m: nat, j: nat)
    requires j < NumDigits(m)
    ensures NumDigits(Drop(m, j)) == NumDigits(m) - j
    ensures m > 0 ==> Drop(m, j) > 0
  {
    if j > 0 {
      NumDigitsDrop(m / 10, j - 1);
    }
  }

  lemma {:induction false} DropShift(q: nat, j: nat)
    ensures q * Pow10(j) >= 0 && Drop(q * Pow10(j), j) == q
  {
    if j > 0 {
      DropShift(q, j - 1);
      assert q * Pow10(j) == 10 * (q * Pow10(j - 1));
    }
  }

  /** Shifting by zeros does not change what is left after stripping them. */
  lemma {:induction false} StripShift(m: nat, j: nat)
    requires m > 0
    ensures m * Pow10(j) > 0
    ensures Strip(m * Pow10(j)) == (Strip(m).0, Strip(m).1 + j)
  {
    if j > 0 {
      StripShift(m, j - 1);
      var before := m * Pow10(j - 1);
      TimesTen(m, j - 1);
      StripTen(before);
    } else {
      assert Pow10(0) == 1;
    }
  }

  lemma TimesTen(m: nat, j: nat)
    ensures m * Pow10(j + 1) == 10 * (m * Pow10(j))
  {
    var p := Pow10(j);
    assert Pow10(j + 1) == 10 * p;
    assert m * (10 * p) == 10 * (m * p);
  }

  lemma StripTen(m: nat)
    requires m > 0
    ensures Strip(10 * m) == (Strip(m).0, Strip(m).1 + 1)
  {
    assert (10 * m) % 10 == 0 && (10 * m) / 10 == m;
  }

  lemma {:induction false} StripValue(m: nat)
    requires m > 0
    ensures m == Strip(m).0 * Pow10(Strip(m).1)
  {
    if m % 10 == 0 {
      StripValue(m / 10);
      var (x, k) := Strip(m / 10);
      assert x * Pow10(k + 1) == 10 * (x * Pow10(k));
    }
  }

  // ---------- Equal values ----------

  ghost predicate SameValue(a: BigDecimal, b: BigDecimal) {
    if a.scale <= b.scale then a.digits * Pow10(b.scale - a.scale) == b.digits
    else b.digits * Pow10(a.scale - b.scale) == a.digits
  }

  lemma ShiftedStrip(m: nat, n: nat, j: nat)
    requires m > 0 && n > 0
    ensures m * Pow10(j) == n <==> Strip(n) == (Strip(m).0, Strip(m).1 + j)
  {
    StripShift(m, j);
    if Strip(n) == (Strip(m).0, Strip(m).1 + j) {
      SameStrip(m, n, Strip(m).0, Strip(m).1, j);
    }
  }

  lemma SameStrip(m: nat, n: nat, x: nat, k: nat, j: nat)
    requires m > 0 && n > 0 && Strip(m) == (x, k) && Strip(n) == (x, k + j)
    ensures m * Pow10(j) == n
  {
    StripValue(m);
    StripValue(n);
    Recombine(x, k, j, m, n);
  }

  lemma Recombine(x: nat, k: nat, j: nat, m: nat, n: nat)
    requires m == x * Pow10(k) && n == x * Pow10(k + j)
    ensures m * Pow10(j) == n
  {
    ShiftTwice(x, k, j);
  }

  lemma ShiftSign(a: int, j: nat)
    ensures Abs(a * Pow10(j)) == Abs(a) * Pow10(j)
    ensures a * Pow10(j) < 0 <==> a < 0
    ensures a * Pow10(j) == 0 <==> a == 0
  {
  }

  lemma ShiftedCanonical(a: BigDecimal, b: BigDecimal)
    requires a.scale <= b.scale
    ensures a.digits * Pow10(b.scale - a.scale) == b.digits <==> Canonical(a) == Canonical(b)
  {
    var j := b.scale - a.scale;
    ShiftSign(a.digits, j);
    if a.digits != 0 && b.digits != 0 {
      ShiftedStrip(Abs(a.digits), Abs(b.digits), j);
    }
  }

  /** Two decimals have the same value if and only if their unlimited normal forms are equal. */
  lemma SameValueIffCanonical(a: BigDecimal, b: BigDecimal)
    ensures SameValue(a, b) <==> Canonical(a) == Canonical(b)
  {
    if a.scale <= b.scale {
      ShiftedCanonical(a, b);
    } else {
      ShiftedCanonical(b, a);
    }
  }

  // ---------- What normalizing guarantees ----------

  /** The number of digits that matter: those left after the trailing zeros. */
  function Significant(d: BigDecimal): nat {
    if d.digits == 0 then 0 else NumDigits(Strip(Abs(d.digits)).0)
  }

  lemma RoundedBounds(m: nat, prec: nat, up: Rounding)
    requires m > 0 && prec > 0
    ensures 0 < RoundMagnitude(m, prec, up).0 <= Pow10(prec)
  {
    var n := NumDigits(m);
    if n > prec {
      NumDigitsDrop(m, n - prec);
      BelowPower(Drop(m, n - prec));
    } else {
      PaddedBounds(m, prec - n);
    }
  }

  lemma PaddedBounds(m: nat, j: nat)
    requires m > 0
    ensures 0 < m * Pow10(j) < Pow10(NumDigits(m) + j)
  {
    NumDigitsShift(m, j);
    BelowPower(m * Pow10(j));
  }

  /**
   What is left after stripping a magnitude of at most `prec` digits, or ten to the power `prec`,
   has at most `prec`.
   */
  lemma StrippedFits(m: nat, prec: nat)
    requires 0 < m <= Pow10(prec) && prec > 0
    ensures NumDigits(Strip(m).0) <= prec
  {
    if m == Pow10(prec) {
      StripShift(1, prec);
      assert 1 * Pow10(prec) == m;
    } else {
      DigitsBelow(Strip(m).0, prec);
    }
  }

  /** At most 34 digits, also when rounding carries to ten to the 34th, and no trailing zero. */
  lemma NormalFitsPrecision(d: BigDecimal, up: Rounding)
    ensures var r := Normal(d, up);
            && NumDigits(Abs(r.digits)) <= MAX_SIGNIFICANT_DIGITS
            && (r.digits == 0 <==> d.digits == 0)
            && (r.digits != 0 ==> Abs(r.digits) % 10 != 0)
            && (r.digits < 0 <==> d.digits < 0)
  {
    if d.digits != 0 {
      RoundedBounds(Abs(d.digits), MAX_SIGNIFICANT_DIGITS, up);
      StrippedFits(RoundMagnitude(Abs(d.digits), MAX_SIGNIFICANT_DIGITS, up).0, MAX_SIGNIFICANT_DIGITS);
    }
  }

  /** Rounding a magnitude with few enough significant digits only adds or removes zeros. */
  lemma RoundingIsShift(m: nat, prec: nat, up: Rounding)
    requires m > 0 && NumDigits(Strip(m).0) <= prec
    ensures var (r, shift) := RoundMagnitude(m, prec, up);
            r > 0 && Strip(m).1 + shift >= 0 && Strip(r) == (Strip(m).0, Strip(m).1 + shift)
  {
    var n := NumDigits(m);
    if n > prec {
      RoundingDown(m, prec, up);
    } else {
      StripShift(m, prec - n);
    }
  }

  lemma RoundingDown(m: nat, prec: nat, up: Rounding)
    requires m > 0 && NumDigits(Strip(m).0) <= prec < NumDigits(m)
    ensures var (x, k) := Strip(m);
            var j := NumDigits(m) - prec;
            && RoundMagnitude(m, prec, up) == (Drop(m, j), -j)
            && j <= k && Drop(m, j) > 0 && Strip(Drop(m, j)) == (x, k - j)
  {
    DigitsOfStripped(m);
    RoundingDropsZeros(m, Strip(m).0, Strip(m).1, NumDigits(m) - prec);
  }

  lemma DigitsOfStripped(m: nat)
    requires m > 0
    ensures NumDigits(m) == NumDigits(Strip(m).0) + Strip(m).1
  {
    StripValue(m);
    NumDigitsShift(Strip(m).0, Strip(m).1);
  }

  lemma RoundingDropsZeros(m: nat, x: nat, k: nat, j: nat)
    requires m > 0 && Strip(m) == (x, k) && j <= k
    ensures Drop(m, j) > 0 && Drop(m, j) * Pow10(j) == m && Strip(Drop(m, j)) == (x, k - j)
  {
    StripValue(m);
    DropZeros(m, x, k, j);
    StripShift(x, k - j);
  }

  lemma DropZeros(m: nat, x: nat, k: nat, j: nat)
    requires m == x * Pow10(k) && j <= k
    ensures Drop(m, j) == x * Pow10(k - j) && Drop(m, j) * Pow10(j) == m
  {
    ShiftTwice(x, k - j, j);
    DropShift(x * Pow10(k - j), j);
  }

  /** With at most 34 significant digits nothing is lost. */
  lemma NormalIsCanonical(d: BigDecimal, up: Rounding)
    requires Significant(d) <= MAX_SIGNIFICANT_DIGITS
    ensures Normal(d, up) == Canonical(d) && SameValue(Normal(d, up), d)
  {
    if d.digits != 0 {
      RoundingIsShift(Abs(d.digits), MAX_SIGNIFICANT_DIGITS, up);
    }
    NormalCanonicalAgain(d);
    SameValueIffCanonical(Canonical(d), d);
  }

  lemma NormalCanonicalAgain(d: BigDecimal)
    ensures Canonical(Canonical(d)) == Canonical(d)
  {
  }

  /** Equal values with at most 34 significant digits have one representation. */
  lemma EqualValuesNormalizeAlike(a: BigDecimal, b: BigDecimal, up: Rounding)
    requires Significant(a) <= MAX_SIGNIFICANT_DIGITS && SameValue(a, b)
    ensures Normal(a, up) == Normal(b, up)
  {
    SameValueIffCanonical(a, b);
    assert Significant(a) == Significant(b);
    NormalIsCanonical(a, up);
    NormalIsCanonical(b, up);
  }

  lemma NormalIdempotent(d: BigDecimal, up: Rounding)
    ensures Normal(Normal(d, up), up) == Normal(d, up)
  {
    var r := Normal(d, up);
    NormalFitsPrecision(d, up);
    assert r.digits != 0 ==> Strip(Abs(r.digits)) == (Abs(r.digits), 0);
    NormalIsCanonical(r, up);
  }

  lemma SignificantOfCanonical(d: BigDecimal)
    ensures Significant(Canonical(d)) == Significant(d)
  {
  }

  /** The value is preserved if and only if there are at most 34 significant digits. */
  lemma ValuePreservedIffFits(d: BigDecimal, up: Rounding)
    ensures SameValue(Normal(d, up), d) <==> Significant(d) <= MAX_SIGNIFICANT_DIGITS
  {
    if Significant(d) <= MAX_SIGNIFICANT_DIGITS {
      NormalIsCanonical(d, up);
    } else {
      var r := Normal(d, up);
      NormalFitsPrecision(d, up);
      SameValueIffCanonical(r, d);
      SignificantOfCanonical(r);
      SignificantOfCanonical(d);
      assert Significant(r) <= MAX_SIGNIFICANT_DIGITS by {
        assert Strip(Abs(r.digits)) == (Abs(r.digits), 0);
      }
    }
  }
}
