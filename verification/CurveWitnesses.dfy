/** Concrete vaults: one that every operation serves, and some on which a plausible law of the quotes fails. */
module CurveWitnesses {
  import opened Wrappers
  import opened Rounding
  import opened CurveMath
  import opened ByteCodec
  import opened QuadraticLaws
  import opened OffsetProgressive
  import opened ProgressiveQuotes
  import F = FeeQuotes
  import V = VaultRun

  /** The largest fixed-point root reaches past a thousand whole shares. */
  lemma RootIsLarge(root: nat)
    requires root == FloorSqrt(FloorDiv(MAX_U256, UNIT) * UNIT)
    ensures root >= 2000 * UNIT
  {
    hide FloorDiv, FloorSqrt;
    WordIsWide();
    FloorBounds(MAX_U256, UNIT);
    SqrtIff(2000 * UNIT, FloorDiv(MAX_U256, UNIT) * UNIT);
  }

  /** Squares of whole multiples of the unit are exact. */
  lemma AreaOfWhole(k: nat)
    ensures Area(UNIT, k * UNIT) == AreaUp(UNIT, k * UNIT) == k * k * UNIT
  {
    hide FloorDiv, CeilDiv;
    assert (k * UNIT) * (k * UNIT) == (k * k * UNIT) * UNIT;
    ExactDivision(k * k * UNIT, UNIT);
  }

  lemma SpanPays(span: nat)
    requires 1000 * UNIT <= span <= MAX_U256
    ensures MulDiv(span, 1, UNIT).Ok? && MulDiv(span, 1, UNIT).value >= 1000
  {
    hide FloorDiv;
    assert span * 1 == span;
    FloorIff(1000, span, UNIT);
    FloorBounds(span, UNIT);
  }

  /** The curve with the gentlest slope, on which one unit of area costs 10^-18 assets. */
  lemma GentleCurve(whole: nat) returns (c: Curve)
    requires whole <= 10
    ensures Built(c) && c.halfSlope == 1 && c.offset == whole * UNIT
    ensures c.maxShares >= 1000 * UNIT && c.maxAssets >= 1000
  {
    hide FloorDiv, CeilDiv, FloorSqrt;
    var offset := whole * UNIT;
    var root := MaxRootFacts();
    RootIsLarge(root);
    QuotientFits();
    AreaOfWhole(whole);
    AreaOfWhole(2000);
    AreaMono(UNIT, 2000 * UNIT, root);
    assert whole * whole * UNIT <= 100 * UNIT by { SquareLeIff(whole, 10); }
    var span := Area(UNIT, root) - AreaUp(UNIT, offset);
    SpanPays(span);
    assert Square(root) == Ok(Area(UNIT, root));
    assert SquareUp(offset) == Ok(AreaUp(UNIT, offset));
    c := Curve(2, 1, offset, root - offset, MulDiv(span, 1, UNIT).value);
  }

  // ---------------------------------------------------------------------------
  // A run with all four operations
  // ---------------------------------------------------------------------------

  /** Up to 2 shares, up to 3, down to 2 and down to none, at whole prices. */
  lemma WholePrices()
    ensures DepositRoot(UNIT, 1, 0, 4) == 2 * UNIT
    ensures AreaUp(UNIT, 3 * UNIT) >= Area(UNIT, 2 * UNIT) && MintCost(UNIT, 1, 2 * UNIT, 3 * UNIT) == 5
    ensures CeilDiv(5 * UNIT, 1) <= Area(UNIT, 3 * UNIT) && WithdrawRoot(UNIT, 1, 3 * UNIT, 5) == 2 * UNIT
    ensures Area(UNIT, 0) <= Area(UNIT, 2 * UNIT) && RedeemPay(UNIT, 1, 2 * UNIT, 0) == 4
  {
    hide FloorDiv, CeilDiv, FloorSqrt;
    AreaOfWhole(0);
    AreaOfWhole(2);
    AreaOfWhole(3);
    ExactRoot(2 * UNIT);
    ExactDivision(4 * UNIT, 1);
    ExactDivision(5 * UNIT, 1);
    ExactDivision(4, UNIT);
    ExactDivision(5, UNIT);
  }

  /** The laws about runs are not empty: from the empty vault and back, every operation succeeding. */
  lemma ThereAndBack() returns (c: Curve, ops: seq<Op>)
    ensures Built(c) && |ops| == 4 && ops[0].Deposit? && ops[1].Mint? && ops[2].Withdraw? && ops[3].Redeem?
    ensures ops[0].assets == 4 && ops[1].shares == UNIT && ops[2].assets == 5 && ops[3].shares == 2 * UNIT
    ensures V.Run(c, V.EMPTY, ops) == Ok(V.EMPTY)
  {
    hide FloorDiv, CeilDiv, FloorSqrt, Built, Area, AreaUp, PreviewDeposit, PreviewMint, PreviewWithdraw, PreviewRedeem,
         DepositRoot, MintCost, WithdrawRoot, RedeemPay;
    WordIsWide();
    c := GentleCurve(0);
    ops := [Deposit(4), Mint(UNIT), Withdraw(5), Redeem(2 * UNIT)];
    WholePrices();
    var two, three := CurveState(4, 2 * UNIT), CurveState(9, 3 * UNIT);
    DepositOutcome(c, V.EMPTY, 4);
    MintOutcome(c, two, UNIT);
    WithdrawOutcome(c, three, 5);
    RedeemUnfolds(c, two, 2 * UNIT);
    RunOfFour(c, V.EMPTY, two, three, two, V.EMPTY, Deposit(4), Mint(UNIT), Withdraw(5), Redeem(2 * UNIT));
  }

  lemma RunOfFour(c: Curve, a: CurveState, b: CurveState, d: CurveState, e: CurveState, f: CurveState,
                  x: Op, y: Op, z: Op, w: Op)
    requires V.Step(c, a, x) == Ok(b) && V.Step(c, b, y) == Ok(d)
    requires V.Step(c, d, z) == Ok(e) && V.Step(c, e, w) == Ok(f)
    ensures V.Run(c, a, [x, y, z, w]) == Ok(f)
  {
    hide V.Step;
    V.RunAppend(c, a, [], x);
    V.RunAppend(c, a, [x], y);
    V.RunAppend(c, a, [x, y], z);
    V.RunAppend(c, a, [x, y, z], w);
    assert [] + [x] == [x] && [x] + [y] == [x, y] && [x, y] + [z] == [x, y, z] && [x, y, z] + [w] == [x, y, z, w];
  }

  // ---------------------------------------------------------------------------
  // Withdrawals
  // ---------------------------------------------------------------------------

  /** A withdraw quote can ask for twice the shares that exist. */
  lemma WithdrawBeyondSupply() returns (c: Curve, st: CurveState, a: U256)
    ensures Built(c) && st.totalShares > 0
    ensures PreviewWithdraw(c, a, st) == Ok(2 * st.totalShares)
  {
    hide FloorDiv, CeilDiv, FloorSqrt, Built, PreviewWithdraw;
    WordIsWide();
    c := GentleCurve(2);
    st, a := CurveState(8, UNIT), 8;
    EightFromThree();
    WithdrawOutcome(c, st, a);
  }

  /** Taking 8 from a total of 3 shares, offset included, leaves 1. */
  lemma EightFromThree()
    ensures CeilDiv(8 * UNIT, 1) <= Area(UNIT, 3 * UNIT)
    ensures WithdrawRoot(UNIT, 1, 3 * UNIT, 8) == UNIT
  {
    hide FloorDiv, CeilDiv, FloorSqrt;
    AreaOfWhole(3);
    ExactDivision(8 * UNIT, 1);
    ExactRoot(UNIT);
  }

  /** Withdrawing nothing can burn a share: the case `OverBurns` describes does occur. */
  lemma WithdrawNothingBurnsAShare() returns (c: Curve, st: CurveState)
    ensures Built(c) && PreviewWithdraw(c, 0, st) == Ok(1) && PreviewRedeem(c, 0, st) == Ok(0)
  {
    hide FloorDiv, CeilDiv, FloorSqrt, Built, PreviewWithdraw, PreviewRedeem;
    WordIsWide();
    c := GentleCurve(0);
    st := CurveState(0, UNIT + 1);
    NothingFromOneAndABit();
    WithdrawOutcome(c, st, 0);
    RedeemUnfolds(c, st, 0);
  }

  lemma NothingFromOneAndABit()
    ensures CeilDiv(0 * UNIT, 1) == 0
    ensures WithdrawRoot(UNIT, 1, UNIT + 1, 0) == UNIT
    ensures RedeemPay(UNIT, 1, UNIT + 1, UNIT + 1) == 0
  {
    hide FloorDiv, CeilDiv, FloorSqrt;
    assert (UNIT + 1) * (UNIT + 1) == (UNIT + 2) * UNIT + 1;
    FloorIff(UNIT + 2, (UNIT + 1) * (UNIT + 1), UNIT);
    FloorIff(UNIT + 3, (UNIT + 1) * (UNIT + 1), UNIT);
    ExactDivision(0, 1);
    ExactDivision(0, UNIT);
    SqrtIff(UNIT, (UNIT + 2) * UNIT);
    SqrtIff(UNIT + 1, (UNIT + 2) * UNIT);
  }

  // ---------------------------------------------------------------------------
  // Redemptions with two fees
  // ---------------------------------------------------------------------------

  const MANY: nat := 10_060_000_000_000_000_000  // 10.06 shares
  const FEW: nat := 800_000_000_000_000_000  // 0.8 shares

  /** What the gentle curve pays between those totals. */
  lemma SamplePays()
    ensures Area(UNIT, 0) <= Area(UNIT, FEW) <= Area(UNIT, MANY)
    ensures RedeemPay(UNIT, 1, MANY, FEW) == 100
    ensures RedeemPay(UNIT, 1, FEW, 0) == 0
    ensures RedeemPay(UNIT, 1, MANY, 0) == 101
  {
    hide FloorDiv;
    ExactDivision(101_203_600_000_000_000_000, UNIT);
    ExactDivision(640_000_000_000_000_000, UNIT);
    ExactDivision(0, UNIT);
    FloorIff(100, 100_563_600_000_000_000_000, UNIT);
    FloorIff(101, 100_563_600_000_000_000_000, UNIT);
    FloorIff(1, 640_000_000_000_000_000, UNIT);
    FloorIff(101, 101_203_600_000_000_000_000, UNIT);
    FloorIff(102, 101_203_600_000_000_000_000, UNIT);
  }

  lemma SampleRedeem(c: Curve, st: CurveState, n: U256, pay: nat)
    requires Built(c) && InDomain(c, st) && c.halfSlope == 1 && c.offset == 0
    requires n <= st.totalShares && pay <= 1000
    requires Area(UNIT, st.totalShares - n) <= Area(UNIT, st.totalShares)
    requires RedeemPay(UNIT, 1, st.totalShares, st.totalShares - n) == pay
    ensures PreviewRedeem(c, n, st) == Ok(pay)
  {
    hide FloorDiv, Built, RedeemPay, PreviewRedeem;
    WordIsWide();
    RedeemUnfolds(c, st, n);
  }

  /** A redeem quote with a protocol and an exit fee of 1% each. */
  lemma QuoteAtOnePercent(p: F.Pricing, st: CurveState, n: U256, fees: F.FeeSchedule, before: U256, fee: U256)
    requires fees.denominator == 10_000 && fees.protocolFee == fees.exitFee == 100
    requires F.PreviewRedeem(p, n, st) == Ok(before)
    requires before <= 100 * fee < before + 100 && 2 * fee <= before <= 1000
    ensures F.PreviewRedeemWithFees(p, n, st, fees, true)
         == Ok(F.FeeQuote(n, before, before - 2 * fee, F.FeeBreakdown(fee, 0, fee, 0, 0)))
  {
    hide CeilDiv, F.PreviewRedeem;
    WordIsWide();
    CeilIff(before * 100, 10_000, fee);
    if fee > 0 {
      CeilIff(before * 100, 10_000, fee - 1);
    }
  }

  /** With a protocol and an exit fee of 1% each, redeeming 10.06 shares in two parts pays 98 instead of 97. */
  lemma SplittingARedemptionCanPay() returns (p: F.Pricing, st: CurveState, fees: F.FeeSchedule, n: U256, m: U256,
                                              next: CurveState, q1: F.FeeQuote, q2: F.FeeQuote, q: F.FeeQuote)
    ensures F.Built(p) && n + m <= MAX_U256
    ensures F.PreviewRedeemWithFees(p, n, st, fees, true) == Ok(q1)
    ensures PayOut(st, q1.assetsBeforeFees, n) == Ok(next)
    ensures F.PreviewRedeemWithFees(p, m, next, fees, true) == Ok(q2)
    ensures F.PreviewRedeemWithFees(p, n + m, st, fees, true) == Ok(q)
    ensures q1.assetsAfterFees + q2.assetsAfterFees == q.assetsAfterFees + 1
  {
    hide FloorDiv, Built, Area, RedeemPay, PreviewRedeem, F.PreviewRedeemWithFees;
    WordIsWide();
    var c := GentleCurve(0);
    SamplePays();
    st, next, n, m := CurveState(200, MANY), CurveState(100, FEW), MANY - FEW, FEW;
    p, fees := F.Progressive(c), F.FeeSchedule(10_000, 100, 0, 100);
    SampleRedeem(c, st, n, 100);
    SampleRedeem(c, next, m, 0);
    SampleRedeem(c, st, n + m, 101);
    q1, q2, q := SampleQuotes(p, st, fees, n, m, next);
  }

  lemma SampleQuotes(p: F.Pricing, st: CurveState, fees: F.FeeSchedule, n: U256, m: U256, next: CurveState)
    returns (q1: F.FeeQuote, q2: F.FeeQuote, q: F.FeeQuote)
    requires n + m <= MAX_U256
    requires fees.denominator == 10_000 && fees.protocolFee == fees.exitFee == 100
    requires F.PreviewRedeem(p, n, st) == Ok(100)
    requires F.PreviewRedeem(p, m, next) == Ok(0)
    requires F.PreviewRedeem(p, n + m, st) == Ok(101)
    ensures F.PreviewRedeemWithFees(p, n, st, fees, true) == Ok(q1) && q1.assetsBeforeFees == 100
    ensures F.PreviewRedeemWithFees(p, m, next, fees, true) == Ok(q2)
    ensures F.PreviewRedeemWithFees(p, n + m, st, fees, true) == Ok(q)
    ensures q1.assetsAfterFees + q2.assetsAfterFees == q.assetsAfterFees + 1
  {
    hide F.PreviewRedeem, F.PreviewRedeemWithFees;
    WordIsWide();
    QuoteAtOnePercent(p, st, n, fees, 100, 1);
    QuoteAtOnePercent(p, next, m, fees, 0, 0);
    QuoteAtOnePercent(p, st, n + m, fees, 101, 2);
    q1 := F.FeeQuote(n, 100, 98, F.FeeBreakdown(1, 0, 1, 0, 0));
    q2 := F.FeeQuote(m, 0, 0, F.FeeBreakdown(0, 0, 0, 0, 0));
    q := F.FeeQuote(n + m, 101, 97, F.FeeBreakdown(2, 0, 2, 0, 0));
  }
}
