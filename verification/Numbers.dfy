/**
  Non-negative whole numbers as IEEE 754 doubles: reading a digit string and printing a number
  (ECMA-262, sections 7.1.4.1 and 6.1.6.1.20).
 */
module Numbers {
  import opened Text

  const MAX_SAFE: nat := 0x1F_FFFF_FFFF_FFFF
  const TWO_52: nat := 0x10_0000_0000_0000
  const TWO_53: nat := 0x20_0000_0000_0000
  const EXPONENT_FORM_FROM: nat := 1_000_000_000_000_000_000_000

  function Pow2(e: nat): (p: nat)
    ensures p >= 1
  {
    if e == 0 then 1 else 2 * Pow2(e - 1)
  }

  function Pow10(e: nat): (p: nat)
    ensures p >= 1
  {
    if e == 0 then 1 else 10 * Pow10(e - 1)
  }

  /** How many low bits a number has beyond the 53 that a double keeps. */
  function DroppedBits(n: nat): (e: nat)
    ensures e == 0 <==> n < TWO_53
  {
    if n < TWO_53 then 0 else 1 + DroppedBits(n / 2)
  }

  /** The multiple of `u` nearest to `n`, of two the even one. */
  function Nearest(n: nat, u: nat): int
    requires u >= 1
  {
    var q, r := n / u, n % u;
    if 2 * r > u || (2 * r == u && q % 2 == 1) then (q + 1) * u else q * u
  }

  lemma NearestIsNatural(n: nat, u: nat)
    requires u >= 1
    ensures Nearest(n, u) >= 0
  {
    var q := n / u;
    assert q >= 0;
    assert q * u >= 0 && (q + 1) * u >= 0;
  }

  /** The nearest number with 53 significant bits, ties to even. */
  function Round(n: nat): nat {
    var u := Pow2(DroppedBits(n));
    NearestIsNatural(n, u);
    Nearest(n, u)
  }

  predicate IsDouble(n: nat) {
    Round(n) == n
  }

  lemma DoublingDropsOneMoreBit(n: nat)
    requires n >= TWO_52
    ensures DroppedBits(2 * n) == 1 + DroppedBits(n)
  {
    assert 2 * n / 2 == n;
  }

  lemma {:induction false} DroppedBitsOfSignificand(k: nat, e: nat)
    requires TWO_52 <= k < TWO_53
    ensures k * Pow2(e) >= k && DroppedBits(k * Pow2(e)) == e
  {
    hide DroppedBits;
    if e == 0 {
      assert k * Pow2(0) == k;
    } else {
      var half := k * Pow2(e - 1);
      DroppedBitsOfSignificand(k, e - 1);
      assert k * Pow2(e) == 2 * half;
      DoublingDropsOneMoreBit(half);
    }
  }

  lemma {:induction false} SignificandHas53Bits(n: nat)
    requires n >= TWO_53
    ensures TWO_52 <= n / Pow2(DroppedBits(n)) < TWO_53
  {
    var p := Pow2(DroppedBits(n / 2));
    if n / 2 < TWO_53 {
      assert p == 1 && Pow2(DroppedBits(n)) == 2;
    } else {
      SignificandHas53Bits(n / 2);
    }
    DivideTwice(n, p);
  }

  lemma DivideTwice(n: nat, p: nat)
    requires p >= 1
    ensures n / (2 * p) == n / 2 / p
  {
    var q := n / 2 / p;
    var r := n / 2 % p;
    assert n == 2 * p * q + (2 * r + n % 2);
    assert 0 <= 2 * r + n % 2 < 2 * p;
    QuotientIsUnique(n, 2 * p, q, 2 * r + n % 2);
  }

  lemma QuotientIsUnique(n: int, d: int, q: int, r: int)
    requires d >= 1 && n == d * q + r && 0 <= r < d
    ensures n / d == q && n % d == r
  {
    var diff := q - n / d;
    assert d * diff == d * q - d * (n / d);
    assert -d < d * diff < d;
    if diff >= 1 { AtLeastOneFactor(d, diff); }
    if diff <= -1 { AtLeastOneFactor(d, -diff); }
  }

  lemma AtLeastOneFactor(d: int, k: int)
    requires d >= 0 && k >= 1
    ensures d * k >= d && d * -k <= -d
  {
  }

  lemma SignificandTimesPowerIsDouble(k: nat, e: nat)
    requires TWO_52 <= k < TWO_53
    ensures IsDouble(k * Pow2(e))
  {
    DroppedBitsOfSignificand(k, e);
    QuotientIsUnique(k * Pow2(e), Pow2(e), k, 0);
  }

  /** A number of more than 53 bits is rounded to a 53-bit significand times a power of two. */
  lemma RoundedForm(n: nat) returns (k: nat, e: nat)
    requires n >= TWO_53
    ensures TWO_52 <= k < TWO_53 && e >= 1 && Round(n) == k * Pow2(e)
  {
    e := DroppedBits(n);
    var u := Pow2(e);
    SignificandHas53Bits(n);
    k := if 2 * (n % u) > u || (2 * (n % u) == u && n / u % 2 == 1) then n / u + 1 else n / u;
    if k == TWO_53 {
      k, e := TWO_52, e + 1;
    }
  }

  /** Rounding lands on a double, so rounding again changes nothing. */
  lemma RoundIsIdempotent(n: nat)
    ensures IsDouble(Round(n))
    ensures n < TWO_53 ==> Round(n) == n
    ensures n >= TWO_53 ==> Round(n) >= TWO_53
  {
    if n < TWO_53 {
      assert Pow2(0) == 1;
    } else {
      var k, e := RoundedForm(n);
      SignificandTimesPowerIsDouble(k, e);
      DoubleAtLeast(k, Pow2(e));
    }
  }

  lemma DoubleAtLeast(k: nat, p: nat)
    requires p >= 2
    ensures k * p >= k * 2
  {
  }

  /**
    The number with the most trailing zeros, at most `z` of them, that still rounds to `x`,
    and of two such numbers the nearer one.
   */
  function Shortest(x: nat, z: nat): nat {
    if z == 0 then x
    else
      var p := Pow10(z);
      var lo := x - x % p;
      var hi := lo + p;
      var loFits, hiFits := lo > 0 && Round(lo) == x, Round(hi) == x;
      if loFits && (!hiFits || 2 * (x - lo) < p || (2 * (x - lo) == p && lo / p % 2 == 0)) then lo
      else if hiFits then hi
      else Shortest(x, z - 1)
  }

  lemma {:induction false} ShortestReadsBack(x: nat, z: nat)
    requires IsDouble(x)
    ensures Round(Shortest(x, z)) == x
    ensures x < TWO_53 ==> Shortest(x, z) == x
  {
    if z > 0 {
      ShortestReadsBack(x, z - 1);
    }
    ShortestRounds(x, z);
    RoundIsIdempotent(Shortest(x, z));
  }

  lemma ShortestRounds(x: nat, z: nat)
    requires IsDouble(x)
    requires z > 0 ==> Round(Shortest(x, z - 1)) == x
    ensures Round(Shortest(x, z)) == x
  {
  }

  function WithoutTrailingZeros(d: Str): (r: Str)
    ensures AllDigits(d) ==> AllDigits(r)
  {
    if |d| > 1 && d[|d| - 1] == 48 then WithoutTrailingZeros(d[..|d| - 1]) else d
  }

  /** The digits before the exponent, with a point behind the first of several. */
  function Mantissa(d: Str): Str {
    if |d| <= 1 then d else d[..1] + Lit(".") + d[1..]
  }

  /** A number of 10^21 or more: significant digits, then the exponent. */
  function ExponentForm(x: nat): Str {
    var all := Decimal(Shortest(x, |Decimal(x)|));
    var d := WithoutTrailingZeros(all);
    Mantissa(d) + Lit("e+") + Decimal(|all| - 1)
  }

  /** `Number.prototype.toString` on a whole number. */
  function ToText(x: nat): Str {
    if x < EXPONENT_FORM_FROM then Decimal(Shortest(x, 20)) else ExponentForm(x)
  }

  lemma ExponentFormIsNotDigits(x: nat)
    ensures !AllDigits(ExponentForm(x))
  {
    hide Decimal, Shortest, WithoutTrailingZeros, Mantissa;
    var all := Decimal(Shortest(x, |Decimal(x)|));
    var front := Mantissa(WithoutTrailingZeros(all));
    assert ExponentForm(x)[|front|] == Lit("e+")[0];
    assert ExponentForm(x)[|front|] in ExponentForm(x);
  }

  /** What printing a double and reading the digits back gives, and when it prints digits at all. */
  lemma PrintedNumberReadsBack(x: nat)
    requires IsDouble(x)
    ensures AllDigits(ToText(x)) <==> x < EXPONENT_FORM_FROM
    ensures x < EXPONENT_FORM_FROM ==> Round(DigitsValue(ToText(x))) == x
    ensures x <= MAX_SAFE ==> ToText(x) == Decimal(x)
  {
    hide Decimal, Shortest, ExponentForm, IsDouble, Round, DigitsValue;
    if x < EXPONENT_FORM_FROM {
      ShortestReadsBack(x, 20);
      DecimalDenotesItsNumber(Shortest(x, 20));
    } else {
      ExponentFormIsNotDigits(x);
    }
  }

  // ---- Rounding is to the nearest double ----

  lemma {:induction false} SmallerExponentsAreSmaller(a: nat, b: nat)
    requires a < b
    ensures 2 * Pow2(a) <= Pow2(b)
  {
    if a + 1 < b { SmallerExponentsAreSmaller(a, b - 1); }
  }

  lemma Times(a: nat, b: nat, c: nat)
    requires a <= b
    ensures a * c <= b * c
  {
  }

  /** A double between two powers has the unit of that range. */
  lemma DoublesAreMultiples(d: nat, e: nat)
    requires e >= 1 && IsDouble(d) && TWO_52 * Pow2(e) <= d < TWO_53 * Pow2(e)
    ensures d == d / Pow2(e) * Pow2(e)
  {
    hide Pow2, DroppedBits;
    var own := DroppedBits(d);
    Times(1, Pow2(e), TWO_52);
    SmallerExponentsAreSmaller(0, e);
    PowerOfZero();
    assert d >= TWO_53;
    SignificandHas53Bits(d);
    var q := d / Pow2(own);
    QuotientBounds(d, Pow2(own));
    Times(q + 1, TWO_53, Pow2(own));
    Times(TWO_52, q, Pow2(own));
    if own < e {
      SmallerExponentsAreSmaller(own, e);
    } else if own > e {
      SmallerExponentsAreSmaller(e, own);
    } else {
      RoundedIsAMultiple(d);
    }
  }

  lemma PowerOfZero()
    ensures Pow2(0) == 1
  {
  }

  lemma QuotientBounds(n: nat, u: nat)
    requires u >= 1
    ensures n / u * u <= n < (n / u + 1) * u
  {
    assert n == n / u * u + n % u;
    assert (n / u + 1) * u == n / u * u + u;
  }

  lemma RoundedIsAMultiple(d: nat)
    requires IsDouble(d)
    ensures d == d / Pow2(DroppedBits(d)) * Pow2(DroppedBits(d))
  {
    var u := Pow2(DroppedBits(d));
    var q := d / u;
    QuotientBounds(d, u);
  }

  /** No multiple of the unit is nearer than the one rounded to. */
  lemma NearestOfMultiples(n: nat, u: nat, k: int)
    requires u >= 1
    ensures Distance(n, Nearest(n, u)) <= Distance(n, k * u)
    ensures 2 * Distance(n, Nearest(n, u)) <= u
  {
    var q := n / u;
    QuotientBounds(n, u);
    assert n == q * u + n % u && (q + 1) * u == q * u + u;
    if k <= q { FarMultiple(q - k, u, q, k); } else { FarMultiple(k - (q + 1), u, k, q + 1); }
  }

  lemma FarMultiple(steps: int, u: nat, high: int, low: int)
    requires steps >= 0 && high - low == steps
    ensures low * u <= high * u
  {
    assert high * u - low * u == steps * u;
  }

  function Distance(a: int, b: int): nat {
    if a <= b then b - a else a - b
  }

  /** Rounding goes to the nearest double there is. */
  lemma RoundIsNearest(n: nat, d: nat)
    requires IsDouble(d)
    ensures Distance(n, Round(n)) <= Distance(n, d)
  {
    hide IsDouble, Pow2;
    if n < TWO_53 {
      RoundIsIdempotent(n);
    } else {
      var e := DroppedBits(n);
      var u := Pow2(e);
      SignificandHas53Bits(n);
      QuotientBounds(n, u);
      Times(TWO_52, n / u, u);
      Times(n / u + 1, TWO_53, u);
      NearestOfMultiples(n, u, TWO_52);
      NearestOfMultiples(n, u, TWO_53);
      RoundIsNearestMultiple(n);
      if TWO_52 * u <= d < TWO_53 * u {
        DoublesAreMultiples(d, e);
        NearestOfMultiples(n, u, d / u);
      }
    }
  }

  lemma RoundIsNearestMultiple(n: nat)
    ensures Round(n) == Nearest(n, Pow2(DroppedBits(n)))
  {
  }

  /** A number half way between two neighbours goes to the one with the even significand. */
  lemma TiesGoToEven(n: nat)
    requires n >= TWO_53 && 2 * (n % Pow2(DroppedBits(n))) == Pow2(DroppedBits(n))
    ensures exists k :: k % 2 == 0 && Round(n) == k * Pow2(DroppedBits(n))
  {
    hide Pow2, DroppedBits;
    RoundIsNearestMultiple(n);
    var u := Pow2(DroppedBits(n));
    var q := n / u;
    var k := if q % 2 == 1 then q + 1 else q;
    assert k % 2 == 0 && Nearest(n, u) == k * u;
  }

  /** So rounding keeps the order. */
  lemma RoundIsMonotone(n: nat, m: nat)
    requires n <= m
    ensures Round(n) <= Round(m)
  {
    hide Round, IsDouble;
    RoundIsIdempotent(n);
    RoundIsIdempotent(m);
    RoundIsNearest(n, Round(m));
    RoundIsNearest(m, Round(n));
  }

  // ---- The printed digits are the fewest ----

  lemma MultiplesAround(x: nat, m: nat, p: nat)
    requires p >= 1 && m % p == 0
    ensures m <= x ==> m <= x - x % p
    ensures m > x ==> m >= x - x % p + p
  {
    QuotientBounds(x, p);
    assert m == m / p * p && x - x % p == x / p * p;
    if m <= x {
      if m / p > x / p { Times(x / p + 1, m / p, p); }
      Times(m / p, x / p, p);
    } else {
      if m / p <= x / p { Times(m / p, x / p, p); }
      Times(x / p + 1, m / p, p);
    }
  }

  /** If some positive multiple of a power of ten reads as `x`, one of the two around `x` does. */
  lemma NeighbourFits(x: nat, m: nat, p: nat)
    requires p >= 1 && m >= 1 && m % p == 0 && Round(m) == x && IsDouble(x)
    ensures var lo := x - x % p; (lo > 0 && Round(lo) == x) || Round(lo + p) == x
  {
    hide Round;
    MultiplesAround(x, m, p);
    var lo := x - x % p;
    if m <= x {
      RoundIsMonotone(m, lo);
      RoundIsMonotone(lo, x);
    } else {
      RoundIsMonotone(lo + p, m);
      RoundIsMonotone(x, lo + p);
    }
    DoubleRoundsToItself(x);
  }

  lemma DoubleRoundsToItself(x: nat)
    requires IsDouble(x)
    ensures Round(x) == x
  {
  }

  lemma {:induction false} PowersOfTenDivide(j: nat, k: nat, m: nat)
    requires j <= k && m % Pow10(k) == 0
    ensures m % Pow10(j) == 0
    decreases k
  {
    if j < k {
      TenTimes(m, Pow10(k - 1));
      PowersOfTenDivide(j, k - 1, m);
    }
  }

  lemma TenTimes(m: nat, p: nat)
    requires p >= 1 && m % (10 * p) == 0
    ensures m % p == 0
  {
    var q := m / (10 * p);
    assert m == 10 * p * q;
    assert 10 * p * q == p * (10 * q);
    QuotientIsUnique(m, p, 10 * q, 0);
  }

  /** Whatever reads as `x` has no more trailing zeros, up to `z`, than the number that is printed. */
  lemma {:induction false} ShortestIsShortest(x: nat, z: nat, m: nat, j: nat)
    requires IsDouble(x) && m >= 1 && Round(m) == x && j <= z && m % Pow10(j) == 0
    ensures Shortest(x, z) % Pow10(j) == 0
    decreases z
  {
    hide Round, IsDouble;
    var p := Pow10(z);
    var lo := x - x % p;
    if j == z {
      NeighbourFits(x, m, p);
    }
    if z > 0 {
      MultiplesOf(x, p);
      if (lo > 0 && Round(lo) == x) || Round(lo + p) == x {
        ShortestIsANeighbour(x, z);
        PowersOfTenDivide(j, z, Shortest(x, z));
      } else {
        ShortestIsANeighbour(x, z);
        ShortestIsShortest(x, z - 1, m, j);
      }
    } else {
      assert Pow10(0) == 1;
    }
  }

  lemma MultiplesOf(x: nat, p: nat)
    requires p >= 1
    ensures (x - x % p) % p == 0 && (x - x % p + p) % p == 0
  {
    assert x - x % p == p * (x / p);
    QuotientIsUnique(x - x % p, p, x / p, 0);
    QuotientIsUnique(x - x % p + p, p, x / p + 1, 0);
  }

  lemma ShortestIsANeighbour(x: nat, z: nat)
    requires z > 0
    ensures var p := Pow10(z); var lo := x - x % p;
      if (lo > 0 && Round(lo) == x) || Round(lo + p) == x then Shortest(x, z) == lo || Shortest(x, z) == lo + p
      else Shortest(x, z) == Shortest(x, z - 1)
  {
    hide Round, Pow10;
  }

  // ---- Different doubles print differently ----

  lemma {:induction false} StrippedZeros(d: Str)
    ensures var r := WithoutTrailingZeros(d);
      |r| <= |d| && r == d[..|r|] && forall i :: |r| <= i < |d| ==> d[i] == 48
  {
    if |d| > 1 && d[|d| - 1] == 48 {
      StrippedZeros(d[..|d| - 1]);
    }
  }

  lemma MantissaIsInjective(d: Str, d': Str)
    requires Mantissa(d) == Mantissa(d')
    ensures d == d'
  {
    hide Lit;
    var m := Mantissa(d);
    if |d| > 1 {
      assert |m| == |d| + 1 && m[..1] == d[..1] && m[2..] == d[1..];
      assert |d'| > 1 && m[..1] == d'[..1] && m[2..] == d'[1..];
      assert d == d[..1] + d[1..] && d' == d'[..1] + d'[1..];
    } else {
      assert |d'| <= 1;
    }
  }

  /** What an exponent form is made of: the stripped digits, and how many there were. */
  lemma ExponentFormParts(x: nat)
    ensures var all := Decimal(Shortest(x, |Decimal(x)|));
      var d := WithoutTrailingZeros(all);
      && ExponentForm(x) == Mantissa(d) + [0x65] + ([0x2B] + Decimal(|all| - 1))
      && 0x65 !in [0x2B] + Decimal(|all| - 1)
  {
    hide Decimal, Shortest, WithoutTrailingZeros;
    var all := Decimal(Shortest(x, |Decimal(x)|));
    DecimalLacks(|all| - 1, 0x65);
    assert Lit("e+") == [0x65] + [0x2B];
    var m := Mantissa(WithoutTrailingZeros(all));
    assert m + Lit("e+") + Decimal(|all| - 1) == m + [0x65] + ([0x2B] + Decimal(|all| - 1));
  }

  lemma ExponentFormIsInjective(x: nat, y: nat)
    requires IsDouble(x) && IsDouble(y) && ExponentForm(x) == ExponentForm(y)
    ensures x == y
  {
    hide Decimal, Shortest, WithoutTrailingZeros, ExponentForm, IsDouble, Mantissa;
    var p, q := Shortest(x, |Decimal(x)|), Shortest(y, |Decimal(y)|);
    var all, all' := Decimal(p), Decimal(q);
    var d, d' := WithoutTrailingZeros(all), WithoutTrailingZeros(all');
    ExponentFormParts(x);
    ExponentFormParts(y);
    LastSeparatorIsUnique(Mantissa(d), [0x2B] + Decimal(|all| - 1), Mantissa(d'), [0x2B] + Decimal(|all'| - 1), 0x65);
    assert Decimal(|all| - 1) == ([0x2B] + Decimal(|all| - 1))[1..] == Decimal(|all'| - 1);
    DecimalIsInjective(|all| - 1, |all'| - 1);
    MantissaIsInjective(d, d');
    StrippedZeros(all);
    StrippedZeros(all');
    assert forall i :: 0 <= i < |d| ==> all[i] == d[i] && all'[i] == d[i];
    assert all == all';
    DecimalIsInjective(p, q);
    ShortestReadsBack(x, |Decimal(x)|);
    ShortestReadsBack(y, |Decimal(y)|);
  }

  /** Different doubles print differently, in digits and in exponent form. */
  lemma ToTextIsInjective(x: nat, y: nat)
    requires IsDouble(x) && IsDouble(y) && ToText(x) == ToText(y)
    ensures x == y
  {
    hide Decimal, Shortest, ExponentForm, IsDouble, Round;
    PrintedNumberReadsBack(x);
    PrintedNumberReadsBack(y);
    if x >= EXPONENT_FORM_FROM && y >= EXPONENT_FORM_FROM {
      ExponentFormIsInjective(x, y);
    }
  }

  // ---- Powers of two ----

  lemma {:induction false} PowerSum(a: nat, b: nat)
    ensures Pow2(a + b) == Pow2(a) * Pow2(b)
    decreases a
  {
    if a > 0 {
      PowerSum(a - 1, b);
      DoubledProduct(Pow2(a - 1), Pow2(b));
    }
  }

  lemma DoubledProduct(x: nat, y: nat)
    ensures 2 * (x * y) == (2 * x) * y
  {
  }

  lemma PowerOfEight()
    ensures Pow2(8) == 256
  {
    assert Pow2(4) == 16;
    PowerSum(4, 4);
  }

  lemma {:induction false} PowersGrow(e: nat, d: nat)
    ensures Pow2(e + d) >= Pow2(e)
  {
    if d > 0 { PowersGrow(e, d - 1); }
  }

  lemma LargerPowers()
    ensures Pow2(17) == 0x2_0000 && Pow2(72) == 0x1_00_0000_0000_0000_0000
  {
    hide Pow2;
    PowerOfOne();
    PowerOfEight();
    PowerSum(8, 8);
    assert Pow2(16) == 0x1_0000;
    PowerSum(16, 1);
    PowerSum(16, 16);
    assert Pow2(32) == 0x1_0000_0000;
    PowerSum(32, 32);
    assert Pow2(64) == 0x1_0000_0000_0000_0000;
    PowerSum(64, 8);
  }

  lemma PowerOfOne()
    ensures Pow2(1) == 2
  {
  }

  /** 10^21 is a double: a 53-bit significand times 2^17. */
  lemma TenTo21IsDouble()
    ensures IsDouble(EXPONENT_FORM_FROM) && EXPONENT_FORM_FROM < Pow2(1024)
  {
    hide IsDouble, Pow2;
    LargerPowers();
    SignificandTimesPowerIsDouble(7_629_394_531_250_000, 17);
    PowersGrow(72, 952);
  }
}
