/**
 Which worker owns a vault (`crates/projections/src/shard.rs`). The hash is an arbitrary function of
 the two texts; decimals are the digits and the scale that `BigDecimal` keeps apart.
 */
module ShardKey {

  /** `digits / 10^scale`; equal numbers may have different scales. */
  datatype BigDecimal = BigDecimal(digits: int, scale: int)

  function Pow10(n: nat): (power: nat)
    ensures power > 0
  {
    if n == 0 then 1 else 10 * Pow10(n - 1)
  }

  /** Division that drops the fraction, whatever the sign. */
  function TruncDiv(a: int, b: nat): int
    requires b > 0
  {
    if a >= 0 then a / b else -(-a / b)
  }

  /** `with_scale(0)`. */
  function WithScaleZero(decimal: BigDecimal): int {
    if decimal.scale <= 0 then decimal.digits * Pow10(-decimal.scale)
    else TruncDiv(decimal.digits, Pow10(decimal.scale))
  }

  function Abs(a: int): nat {
    if a < 0 then -a else a
  }

  predicate IsInteger(decimal: BigDecimal) {
    decimal.scale <= 0 || Abs(decimal.digits) % Pow10(decimal.scale) == 0
  }

  function Ratio(a: int, b: nat): real
    requires b > 0
  {
    a as real / b as real
  }

  /** The number that a decimal denotes. */
  function Value(decimal: BigDecimal): real {
    if decimal.scale <= 0 then (decimal.digits * Pow10(-decimal.scale)) as real
    else Ratio(decimal.digits, Pow10(decimal.scale))
  }

  // ---- Decimal text

  function Digit(d: nat): char
    requires d < 10
  {
    "0123456789"[d]
  }

  function NatText(n: nat): (text: string)
    ensures text != [] && '-' !in text
  {
    if n < 10 then [Digit(n)] else NatText(n / 10) + [Digit(n % 10)]
  }

  function IntText(n: int): string {
    if n < 0 then "-" + NatText(-n) else NatText(n)
  }

  lemma {:induction false} NatTextIsInjective(m: nat, n: nat)
    requires NatText(m) == NatText(n)
    ensures m == n
    decreases m + n
  {
    var s, t := NatText(m), NatText(n);
    assert s[|s| - 1] == Digit(m % 10) && t[|t| - 1] == Digit(n % 10);
    assert m % 10 == n % 10;
    if m >= 10 && n >= 10 {
      assert s[..|s| - 1] == NatText(m / 10) && t[..|t| - 1] == NatText(n / 10);
      NatTextIsInjective(m / 10, n / 10);
    }
  }

  lemma IntTextIsInjective(m: int, n: int)
    requires IntText(m) == IntText(n)
    ensures m == n
  {
    if m < 0 && n < 0 {
      assert NatText(-m) == IntText(m)[1..] && NatText(-n) == IntText(n)[1..];
      NatTextIsInjective(-m, -n);
    } else if m >= 0 && n >= 0 {
      NatTextIsInjective(m, n);
    }
  }

  // ---- The key

  /** The release build; the debug build also asserts a non-negative integer. */
  function CanonicalShardKey(decimal: BigDecimal): string {
    IntText(WithScaleZero(decimal))
  }

  /** Dividing up to the sign. */
  lemma OppositeOf(a: int, b: nat)
    requires b > 0 && a < 0
    ensures TruncDiv(a, b) == -TruncDiv(-a, b)
    ensures Ratio(a, b) == -Ratio(-a, b)
  {
    Negated((-a) as real, b as real);
    assert a as real == -((-a) as real);
  }

  lemma TruncIsExact(a: int, b: nat)
    requires b > 0
    ensures Abs(a) % b == 0 <==> TruncDiv(a, b) as real == Ratio(a, b)
  {
    NatQuotient(Abs(a), b);
    hide TruncDiv, Ratio;
    if a < 0 {
      OppositeOf(a, b);
    }
  }

  lemma Negated(x: real, y: real)
    requires y != 0.0
    ensures -x / y == -(x / y)
  {
    var q := x / y;
    assert q * y == x;
    assert -q * y == -x;
  }

  lemma RealQuotient(a: nat, b: nat, q: nat, r: nat)
    requires b > 0 && a == q * b + r && r < b
    ensures a as real / b as real == q as real + r as real / b as real
    ensures r as real / b as real == 0.0 <==> r == 0
  {
  }

  lemma Fraction(r: nat, b: nat)
    requires r < b
    ensures 0.0 <= r as real / b as real < 1.0
  {
    var f := r as real / b as real;
    assert f * b as real == r as real;
    if f >= 1.0 {
      ScaledUp(f, b as real);
    }
  }

  lemma ScaledUp(f: real, b: real)
    requires f >= 1.0 && b > 0.0
    ensures f * b >= b
  {
    assert (f - 1.0) * b >= 0.0;
  }

  lemma NatQuotient(n: nat, b: nat)
    requires b > 0
    ensures n % b == 0 <==> TruncDiv(n, b) as real == Ratio(n, b)
    ensures 0.0 <= TruncDiv(n, b) as real <= Ratio(n, b) < TruncDiv(n, b) as real + 1.0
    ensures n > 0 ==> Ratio(n, b) > 0.0
  {
    var q, r: nat := n / b, n % b;
    assert n == q * b + r;
    RealQuotient(n, b, q, r);
    Fraction(r, b);
  }

  /** An integer keeps its value; a fraction is dropped, which the debug assertion is there to catch. */
  lemma WithScaleZeroIsExact(decimal: BigDecimal)
    ensures WithScaleZero(decimal) as real == Value(decimal) <==> IsInteger(decimal)
  {
    if decimal.scale > 0 {
      TruncIsExact(decimal.digits, Pow10(decimal.scale));
    }
  }

  /** Keys coincide exactly for the same truncated number; for integers, exactly for the same number. */
  lemma SameKey(a: BigDecimal, b: BigDecimal)
    ensures CanonicalShardKey(a) == CanonicalShardKey(b) <==> WithScaleZero(a) == WithScaleZero(b)
    ensures IsInteger(a) && IsInteger(b) ==>
              (CanonicalShardKey(a) == CanonicalShardKey(b) <==> Value(a) == Value(b))
  {
    if CanonicalShardKey(a) == CanonicalShardKey(b) {
      IntTextIsInjective(WithScaleZero(a), WithScaleZero(b));
    }
    WithScaleZeroIsExact(a);
    WithScaleZeroIsExact(b);
  }

  /** Rescaling drops less than one, towards zero. */
  lemma TruncBounds(a: int, b: nat)
    requires b > 0
    ensures var t, v := TruncDiv(a, b) as real, Ratio(a, b);
            if v >= 0.0 then 0.0 <= t <= v < t + 1.0 else t - 1.0 < v <= t <= 0.0
  {
    NatQuotient(Abs(a), b);
    hide TruncDiv, Ratio;
    if a < 0 {
      OppositeOf(a, b);
    }
  }

  /** Equal numbers are rescaled to the same integer, fractions included. */
  lemma SameNumberSameKey(a: BigDecimal, b: BigDecimal)
    requires Value(a) == Value(b)
    ensures WithScaleZero(a) == WithScaleZero(b) && CanonicalShardKey(a) == CanonicalShardKey(b)
  {
    hide IntText, TruncDiv;
    ValueBounds(a);
    ValueBounds(b);
  }

  /** At one scale a number has one spelling. */
  lemma SameScale(a: BigDecimal, b: BigDecimal)
    requires a.scale == b.scale && Value(a) == Value(b)
    ensures a == b
  {
    if a.scale > 0 {
      var power := Pow10(a.scale) as real;
      assert Ratio(a.digits, Pow10(a.scale)) * power == a.digits as real;
      assert Ratio(b.digits, Pow10(b.scale)) * power == b.digits as real;
    } else {
      SameFactor(a.digits, b.digits, Pow10(-a.scale));
    }
  }

  lemma SameFactor(x: int, y: int, factor: nat)
    requires factor > 0 && x * factor == y * factor
    ensures x == y
  {
    assert (x - y) * factor == 0;
  }

  lemma ValueBounds(decimal: BigDecimal)
    ensures var t, v := WithScaleZero(decimal) as real, Value(decimal);
            if v >= 0.0 then 0.0 <= t <= v < t + 1.0 else t - 1.0 < v <= t <= 0.0
  {
    hide TruncDiv, Ratio;
    if decimal.scale > 0 {
      TruncBounds(decimal.digits, Pow10(decimal.scale));
    }
  }

  // Outside the intended domain distinct numbers share a key: 10.5 and 10, -0.5 and 0.

  lemma TenthsAreDropped(whole: nat, digit: nat)
    requires 0 < digit < 10
    ensures CanonicalShardKey(BigDecimal(10 * whole + digit, 1)) == CanonicalShardKey(BigDecimal(whole, 0))
  {
    hide IntText;
    assert Pow10(1) == 10 * Pow10(0) == 10;
    assert Pow10(-0) == 1;
    assert (10 * whole + digit) / 10 == whole;
  }

  lemma TenthsCount(whole: nat, digit: nat)
    requires 0 < digit < 10
    ensures Value(BigDecimal(10 * whole + digit, 1)) != Value(BigDecimal(whole, 0))
  {
    assert Pow10(1) == 10 * Pow10(0) == 10;
    assert Pow10(-0) == 1;
    assert (10 * whole + digit) as real == 10.0 * whole as real + digit as real;
  }

  lemma SignIsLost(digit: int)
    requires 0 < digit < 10
    ensures CanonicalShardKey(BigDecimal(-digit, 1)) == CanonicalShardKey(BigDecimal(0, 0))
  {
    hide IntText;
    assert Pow10(1) == 10 * Pow10(0) == 10;
    assert Pow10(-0) == 1;
  }

  // Some keys, spelled out.

  lemma NextDigit(n: nat, d: nat)
    requires d < 10 && n > 0
    ensures NatText(10 * n + d) == NatText(n) + [Digit(d)]
  {
    assert (10 * n + d) / 10 == n && (10 * n + d) % 10 == d;
  }

  lemma DigitTexts()
    ensures NatText(0) == "0" && NatText(10) == "10" && NatText(1234567890) == "1234567890"
  {
    assert NatText(1) == "1" && NatText(0) == "0";
    hide NatText;
    NextDigit(1, 0);
    NextDigit(1, 2);
    NextDigit(12, 3);
    NextDigit(123, 4);
    NextDigit(1234, 5);
    NextDigit(12345, 6);
    NextDigit(123456, 7);
    NextDigit(1234567, 8);
    NextDigit(12345678, 9);
    NextDigit(123456789, 0);
  }

  lemma KeyTexts()
    ensures CanonicalShardKey(BigDecimal(10000, 3)) == CanonicalShardKey(BigDecimal(1, -1)) == "10"
    ensures CanonicalShardKey(BigDecimal(-105, 1)) == "-10" && CanonicalShardKey(BigDecimal(0, 0)) == "0"
    ensures CanonicalShardKey(BigDecimal(1234567890, 0)) == "1234567890"
  {
    DigitTexts();
    hide NatText;
    assert Pow10(0) == 1 && Pow10(1) == 10 * Pow10(0) && Pow10(2) == 10 * Pow10(1) && Pow10(3) == 10 * Pow10(2);
  }

  // ---- The shard

  type Hash = (string, string) -> nat

  /** Defined for a positive number of shards; with none the source panics. */
  function CalculateShard(hash: Hash, termId: string, curveId: string, totalShards: nat): (shard: nat)
    requires totalShards > 0
    ensures shard < totalShards
  {
    hash(termId, curveId) % totalShards
  }

  predicate BelongsToShard(hash: Hash, termId: string, curveId: string, shardId: nat, totalShards: nat) {
    totalShards <= 1 || CalculateShard(hash, termId, curveId, totalShards) == shardId
  }

  /** Every vault is owned by exactly one of the shards 0 .. N-1. */
  lemma OwnedByExactlyOne(hash: Hash, termId: string, curveId: string, totalShards: nat) returns (owner: nat)
    requires totalShards > 0
    ensures owner < totalShards
    ensures forall shardId :: 0 <= shardId < totalShards ==>
              (BelongsToShard(hash, termId, curveId, shardId, totalShards) <==> shardId == owner)
  {
    owner := CalculateShard(hash, termId, curveId, totalShards);
  }
}
