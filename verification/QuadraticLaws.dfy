/**
 The rounding laws of a quadratic bonding curve, for any unit `u` and half slope `h`.
 `s` and `t` are share totals with the offset added; a vault whose total moves from `s`
 to `t` moves along the area under the price line from `Area(s)` to `Area(t)`.
 */
module QuadraticLaws {
  import opened Rounding

  function Area(u: nat, s: nat): nat
    requires u > 0
  {
    FloorDiv(s * s, u)
  }

  function AreaUp(u: nat, s: nat): nat
    requires u > 0
  {
    CeilDiv(s * s, u)
  }

  /** The area reached by paying in `a`. */
  function Inner(u: nat, h: nat, s: nat, a: nat): nat
    requires u > 0 && h > 0
  {
    Area(u, s) + FloorDiv(a * u, h)
  }

  /** The total reached by paying in `a`. */
  function DepositRoot(u: nat, h: nat, s: nat, a: nat): nat
    requires u > 0 && h > 0
  {
    FloorSqrt(Inner(u, h, s, a) * u)
  }

  lemma AreaMono(u: nat, s: nat, t: nat)
    requires u > 0 && s <= t
    ensures Area(u, s) <= Area(u, t) <= AreaUp(u, t) <= Area(u, t) + 1
    ensures AreaUp(u, s) <= AreaUp(u, t)
  {
    hide FloorDiv, CeilDiv, FloorSqrt;
    SquareLeIff(s, t);
    FloorMono(s * s, t * t, u);
    CeilMono(s * s, t * t, u);
    CeilIsFloor(t * t, u);
  }

  /** A total is affordable exactly when its rounded-up area is within reach. */
  lemma DepositIff(u: nat, h: nat, s: nat, a: nat, t: nat)
    requires u > 0 && h > 0
    ensures t <= DepositRoot(u, h, s, a) <==> AreaUp(u, t) <= Inner(u, h, s, a)
  {
    hide FloorDiv, CeilDiv, FloorSqrt;
    SqrtIff(t, Inner(u, h, s, a) * u);
    CeilIff(t * t, u, Inner(u, h, s, a));
  }

  /** What minting up to `t` costs. */
  function MintCost(u: nat, h: nat, s: nat, t: nat): nat
    requires u > 0 && AreaUp(u, t) >= Area(u, s)
  {
    CeilDiv((AreaUp(u, t) - Area(u, s)) * h, u)
  }

  lemma MintIff(u: nat, h: nat, s: nat, t: nat, a: nat)
    requires u > 0 && h > 0 && AreaUp(u, t) >= Area(u, s)
    ensures MintCost(u, h, s, t) <= a <==> AreaUp(u, t) <= Inner(u, h, s, a)
  {
    hide FloorDiv, CeilDiv, FloorSqrt;
    var area := AreaUp(u, t) - Area(u, s);
    CeilIff(area * h, u, a);
    FloorIff(area, a * u, h);
  }

  /** What burning down from `s` to `t` pays. */
  function RedeemPay(u: nat, h: nat, s: nat, t: nat): nat
    requires u > 0 && Area(u, t) <= Area(u, s)
  {
    FloorDiv((Area(u, s) - Area(u, t)) * h, u)
  }

  lemma RedeemIff(u: nat, h: nat, s: nat, t: nat, a: nat)
    requires u > 0 && h > 0 && Area(u, t) <= Area(u, s)
    ensures RedeemPay(u, h, s, t) >= a <==> Area(u, t) + CeilDiv(a * u, h) <= Area(u, s)
  {
    hide FloorDiv, CeilDiv, FloorSqrt;
    var area := Area(u, s) - Area(u, t);
    FloorIff(a, area * h, u);
    CeilIff(a * u, h, area);
  }

  /** Paying in `a` buys at most `a` worth of area. */
  lemma DepositMoves(u: nat, h: nat, s: nat, a: nat)
    requires u > 0 && h > 0
    ensures Area(u, DepositRoot(u, h, s, a)) * h <= Area(u, s) * h + a * u
  {
    hide FloorDiv, CeilDiv, FloorSqrt;
    var t := DepositRoot(u, h, s, a);
    DepositIff(u, h, s, a, t);
    AreaMono(u, t, t);
    FloorBounds(a * u, h);
    MulLe(Area(u, t), Inner(u, h, s, a), h);
    MulAdd(Area(u, s), FloorDiv(a * u, h), h);
  }

  lemma MintMoves(u: nat, h: nat, s: nat, t: nat)
    requires u > 0 && h > 0 && AreaUp(u, t) >= Area(u, s)
    ensures Area(u, t) * h <= Area(u, s) * h + MintCost(u, h, s, t) * u
  {
    hide FloorDiv, CeilDiv, FloorSqrt;
    var area := AreaUp(u, t) - Area(u, s);
    CeilBounds(area * h, u);
    AreaMono(u, t, t);
    MulLe(Area(u, t), AreaUp(u, t), h);
    MulAdd(Area(u, s), area, h);
  }

  /** The total left by paying out `a`. */
  function WithdrawRoot(u: nat, h: nat, s: nat, a: nat): nat
    requires u > 0 && h > 0 && CeilDiv(a * u, h) <= Area(u, s)
  {
    FloorSqrt((Area(u, s) - CeilDiv(a * u, h)) * u)
  }

  /** A total is low enough to pay out `a` exactly when its rounded-up area is. */
  lemma WithdrawIff(u: nat, h: nat, s: nat, a: nat, t: nat)
    requires u > 0 && h > 0 && CeilDiv(a * u, h) <= Area(u, s)
    ensures t <= WithdrawRoot(u, h, s, a) <==> AreaUp(u, t) + CeilDiv(a * u, h) <= Area(u, s)
  {
    hide FloorDiv, CeilDiv, FloorSqrt;
    var inner := Area(u, s) - CeilDiv(a * u, h);
    SqrtIff(t, inner * u);
    CeilIff(t * t, u, inner);
  }

  lemma WithdrawMoves(u: nat, h: nat, s: nat, a: nat)
    requires u > 0 && h > 0 && CeilDiv(a * u, h) <= Area(u, s)
    ensures Area(u, WithdrawRoot(u, h, s, a)) * h + a * u <= Area(u, s) * h
  {
    hide FloorDiv, CeilDiv, FloorSqrt;
    var t := WithdrawRoot(u, h, s, a);
    WithdrawIff(u, h, s, a, t);
    AreaMono(u, t, t);
    CeilBounds(a * u, h);
    MulLe(Area(u, t) + CeilDiv(a * u, h), Area(u, s), h);
    MulAdd(Area(u, t), CeilDiv(a * u, h), h);
  }

  lemma RedeemMoves(u: nat, h: nat, s: nat, t: nat)
    requires u > 0 && h > 0 && t <= s
    ensures Area(u, t) <= Area(u, s)
    ensures Area(u, t) * h + RedeemPay(u, h, s, t) * u <= Area(u, s) * h
  {
    hide FloorDiv, CeilDiv, FloorSqrt;
    AreaMono(u, t, s);
    var area := Area(u, s) - Area(u, t);
    FloorBounds(area * h, u);
    MulAdd(Area(u, t), area, h);
  }

  /** Two deposits in a row reach no further than one deposit of the sum. */
  lemma DepositTwice(u: nat, h: nat, s: nat, a: nat, b: nat)
    requires u > 0 && h > 0
    ensures DepositRoot(u, h, DepositRoot(u, h, s, a), b) <= DepositRoot(u, h, s, a + b)
  {
    hide FloorDiv, CeilDiv, FloorSqrt;
    var t := DepositRoot(u, h, s, a);
    DepositIff(u, h, s, a, t);
    AreaMono(u, t, t);
    FloorSplit(a * u, b * u, h);
    assert (a + b) * u == a * u + b * u;
    assert Inner(u, h, t, b) <= Inner(u, h, s, a + b);
    MulLe(Inner(u, h, t, b), Inner(u, h, s, a + b), u);
    SqrtMono(Inner(u, h, t, b) * u, Inner(u, h, s, a + b) * u);
  }

  lemma DepositRootMono(u: nat, h: nat, s: nat, a: nat, b: nat)
    requires u > 0 && h > 0 && a <= b
    ensures DepositRoot(u, h, s, a) <= DepositRoot(u, h, s, b)
  {
    hide FloorDiv, CeilDiv, FloorSqrt;
    MulLe(a, b, u);
    FloorMono(a * u, b * u, h);
    MulLe(Inner(u, h, s, a), Inner(u, h, s, b), u);
    SqrtMono(Inner(u, h, s, a) * u, Inner(u, h, s, b) * u);
  }

  /** Two redemptions in a row pay no more than one of the sum, and at most one unit less. */
  lemma RedeemTwice(u: nat, h: nat, s: nat, t: nat, r: nat)
    requires u > 0 && h > 0 && r <= t <= s
    ensures Area(u, r) <= Area(u, t) <= Area(u, s)
    ensures RedeemPay(u, h, s, t) + RedeemPay(u, h, t, r) <= RedeemPay(u, h, s, r)
         <= RedeemPay(u, h, s, t) + RedeemPay(u, h, t, r) + 1
  {
    hide FloorDiv, CeilDiv, FloorSqrt;
    AreaMono(u, r, t);
    AreaMono(u, t, s);
    MulAdd(Area(u, s) - Area(u, t), Area(u, t) - Area(u, r), h);
    FloorSplit((Area(u, s) - Area(u, t)) * h, (Area(u, t) - Area(u, r)) * h, u);
  }

  /** Redeeming what a deposit of `a` bought pays back at most `a` ... */
  lemma RoundTripNoGain(u: nat, h: nat, s: nat, a: nat)
    requires u > 0 && h > 0 && s <= DepositRoot(u, h, s, a)
    ensures Area(u, s) <= Area(u, DepositRoot(u, h, s, a))
    ensures RedeemPay(u, h, DepositRoot(u, h, s, a), s) <= a
  {
    hide FloorDiv, CeilDiv, FloorSqrt;
    var r := DepositRoot(u, h, s, a);
    DepositMoves(u, h, s, a);
    RedeemMoves(u, h, r, s);
    MulLeIff(RedeemPay(u, h, r, s), a, u);
  }

  /** ... and loses at most the rounding of one square step and of the two divisions. */
  lemma RoundTripLoss(u: nat, h: nat, s: nat, a: nat)
    requires u > 0 && h > 0 && s <= DepositRoot(u, h, s, a)
    ensures Area(u, s) <= Area(u, DepositRoot(u, h, s, a))
    ensures var r := DepositRoot(u, h, s, a);
            (a - RedeemPay(u, h, r, s) - 1) * u < (1 + CeilDiv(2 * r, u)) * h
  {
    hide FloorDiv, CeilDiv, FloorSqrt;
    RoundTripNoGain(u, h, s, a);
    var r := DepositRoot(u, h, s, a);
    var inner, c := Inner(u, h, s, a), CeilDiv(2 * r, u);
    SqrtBounds(inner * u);
    NextSquare(inner, r, u);
    FloorBounds(a * u, h);
    FloorBounds((Area(u, r) - Area(u, s)) * h, u);
    LossArithmetic(FloorDiv(a * u, h), Area(u, r) - Area(u, s), c, a, RedeemPay(u, h, r, s), u, h);
  }

  lemma NextSquare(inner: nat, r: nat, u: nat)
    requires u > 0 && inner * u < (r + 1) * (r + 1)
    ensures inner <= Area(u, r) + CeilDiv(2 * r, u)
  {
    hide FloorDiv, CeilDiv, FloorSqrt;
    assert (r + 1) * (r + 1) == r * r + 2 * r + 1;
    FloorIff(inner, r * r + 2 * r, u);
    FloorOfSum(r * r, 2 * r, u);
  }

  lemma LossArithmetic(f: nat, area: nat, c: nat, a: nat, b: nat, u: nat, h: nat)
    requires f <= area + c
    requires a * u < f * h + h
    requires area * h < b * u + u
    ensures (a - b - 1) * u < (1 + c) * h
  {
    hide FloorDiv, CeilDiv, FloorSqrt;
    MulLe(f, area + c, h);
    MulAdd(area, c, h);
    MulAdd(1, c, h);
    assert (a - b - 1) * u == a * u - b * u - u;
  }

  /** The shares bought for `a`, valued at the opening price `2*h*s/u`, are worth at most `a`. */
  lemma DepositAtPrice(u: nat, h: nat, s: nat, a: nat, n: nat)
    requires u > 0 && h > 0 && s + n == DepositRoot(u, h, s, a)
    ensures n * FloorDiv(s * (2 * h), u) <= a * u
  {
    hide FloorDiv, CeilDiv, FloorSqrt;
    SqrtBounds(Inner(u, h, s, a) * u);
    FloorBounds(s * s, u);
    FloorBounds(a * u, h);
    FloorBounds(s * (2 * h), u);
    MulAdd(Area(u, s), FloorDiv(a * u, h), u);
    PriceArithmetic(s, n, FloorDiv(a * u, h), FloorDiv(s * (2 * h), u), a, u, h);
  }

  lemma PriceArithmetic(s: nat, n: nat, f: nat, p: nat, a: nat, u: nat, h: nat)
    requires u > 0
    requires (s + n) * (s + n) <= s * s + f * u
    requires f * h <= a * u
    requires p * u <= s * (2 * h)
    ensures n * p <= a * u
  {
    hide FloorDiv, CeilDiv, FloorSqrt;
    assert (s + n) * (s + n) == s * s + 2 * s * n + n * n;
    calc <= {
      n * p * u;
      == { MulSwap(n, p, u); MulSwap(n, u, p); MulSwap(p, u, n); }
      p * u * n;
      { MulLe(p * u, s * (2 * h), n); }
      s * (2 * h) * n;
      == { MulSwap(s, 2 * h, n); assert s * n * (2 * h) == 2 * s * n * h; }
      2 * s * n * h;
      { MulLe(2 * s * n, f * u, h); }
      f * u * h;
      == { MulSwap(f, u, h); }
      f * h * u;
      { MulLe(f * h, a * u, u); }
      a * u * u;
    }
    MulLeIff(n * p, a * u, u);
  }
}
