/** Laws that relate the quotes of the progressive curve to each other. */
module ProgressiveQuotes {
  import opened Wrappers
  import opened Rounding
  import opened CurveMath
  import opened QuadraticLaws
  import opened OffsetProgressive

  // ---------------------------------------------------------------------------
  // Deposit and mint
  // ---------------------------------------------------------------------------

  /** Minting `n` shares costs at most `a` exactly when depositing `a` issues at least `n`. */
  lemma DepositMintAdjoint(c: Curve, st: CurveState, a: U256, n: U256)
    requires Built(c) && PreviewDeposit(c, a, st).Ok? && PreviewMint(c, n, st).Ok?
    ensures PreviewMint(c, n, st).value <= a <==> n <= PreviewDeposit(c, a, st).value
  {
    hide FloorDiv, CeilDiv, FloorSqrt, Built;
    BuiltFacts(c);
    DepositValue(c, a, st);
    MintValue(c, n, st);
    var s := st.totalShares + c.offset;
    DepositIff(UNIT, c.halfSlope, s, a, s + n);
    MintIff(UNIT, c.halfSlope, s, s + n, a);
  }

  /** The shares a deposit issues can always be quoted as a mint, for no more than the deposit. */
  lemma MintOfDeposit(c: Curve, st: CurveState, a: U256)
    requires Built(c) && PreviewDeposit(c, a, st).Ok?
    ensures var mint := PreviewMint(c, PreviewDeposit(c, a, st).value, st);
            mint.Ok? && mint.value <= a
  {
    hide FloorDiv, CeilDiv, FloorSqrt, Built;
    BuiltFacts(c);
    DepositValue(c, a, st);
    InDomainFacts(c, st);
    var n := PreviewDeposit(c, a, st).value;
    var s := st.totalShares + c.offset;
    AreaMono(UNIT, s, s + n);
    AreaMono(UNIT, s + n, Top(c));
    DepositIff(UNIT, c.halfSlope, s, a, s + n);
    MintIff(UNIT, c.halfSlope, s, s + n, a);
  }

  lemma DepositMono(c: Curve, st: CurveState, a: U256, b: U256)
    requires Built(c) && a <= b && PreviewDeposit(c, a, st).Ok? && PreviewDeposit(c, b, st).Ok?
    ensures PreviewDeposit(c, a, st).value <= PreviewDeposit(c, b, st).value
  {
    hide FloorDiv, CeilDiv, FloorSqrt, Built;
    BuiltFacts(c);
    DepositValue(c, a, st);
    DepositValue(c, b, st);
    DepositRootMono(UNIT, c.halfSlope, st.totalShares + c.offset, a, b);
  }

  /** Shares are never issued below the price quoted before the deposit. */
  lemma DepositPriceBound(c: Curve, st: CurveState, a: U256)
    requires Built(c) && PreviewDeposit(c, a, st).Ok? && CurrentPrice(c, st).Ok?
    ensures PreviewDeposit(c, a, st).value * CurrentPrice(c, st).value <= a * UNIT
  {
    hide FloorDiv, CeilDiv, FloorSqrt, Built;
    BuiltFacts(c);
    DepositValue(c, a, st);
    DepositAtPrice(UNIT, c.halfSlope, st.totalShares + c.offset, a, PreviewDeposit(c, a, st).value);
  }

  /** Splitting a deposit in two never issues more shares. */
  lemma DepositSplit(c: Curve, st: CurveState, a: U256, b: U256)
    requires Built(c) && PreviewDeposit(c, a, st).Ok?
    requires PayIn(st, a, PreviewDeposit(c, a, st).value).Ok?
    requires PreviewDeposit(c, b, PayIn(st, a, PreviewDeposit(c, a, st).value).value).Ok?
    requires a + b <= MAX_U256 && PreviewDeposit(c, a + b, st).Ok?
    ensures var first := PreviewDeposit(c, a, st).value;
            var second := PreviewDeposit(c, b, PayIn(st, a, first).value).value;
            first + second <= PreviewDeposit(c, a + b, st).value
  {
    hide FloorDiv, CeilDiv, FloorSqrt, Built;
    BuiltFacts(c);
    DepositValue(c, a, st);
    DepositValue(c, b, PayIn(st, a, PreviewDeposit(c, a, st).value).value);
    DepositValue(c, a + b, st);
    DepositTwice(UNIT, c.halfSlope, st.totalShares + c.offset, a, b);
  }

  // ---------------------------------------------------------------------------
  // Redeem and withdraw
  // ---------------------------------------------------------------------------

  /** Splitting a redemption in two never pays more, and costs at most one unit. */
  lemma RedeemSplit(c: Curve, st: CurveState, n: U256, m: U256)
    requires Built(c) && PreviewRedeem(c, n, st).Ok?
    requires PayOut(st, PreviewRedeem(c, n, st).value, n).Ok?
    requires PreviewRedeem(c, m, PayOut(st, PreviewRedeem(c, n, st).value, n).value).Ok?
    requires n + m <= MAX_U256 && PreviewRedeem(c, n + m, st).Ok?
    ensures var first := PreviewRedeem(c, n, st).value;
            var second := PreviewRedeem(c, m, PayOut(st, first, n).value).value;
            first + second <= PreviewRedeem(c, n + m, st).value <= first + second + 1
  {
    hide FloorDiv, CeilDiv, FloorSqrt, Built;
    BuiltFacts(c);
    RedeemValue(c, n, st);
    RedeemValue(c, m, PayOut(st, PreviewRedeem(c, n, st).value, n).value);
    RedeemValue(c, n + m, st);
    var s := st.totalShares + c.offset;
    RedeemTwice(UNIT, c.halfSlope, s, s - n, s - n - m);
  }

  /** The one case in which burning `n` pays `a` although the withdraw quote asks for more shares. */
  predicate OverBurns(c: Curve, st: CurveState, a: U256, n: U256)
    requires c.halfSlope > 0 && n <= st.totalShares + c.offset
  {
    var t := st.totalShares + c.offset - n;
    && Area(UNIT, t) + CeilDiv(a * UNIT, c.halfSlope) == Area(UNIT, st.totalShares + c.offset)
    && (t * t) % UNIT != 0
  }

  /**
   Withdraw and redeem are adjoint except for `OverBurns`: `withdraw(a)` always burns enough,
   and burning `n` is enough exactly when `n` is at least the quote or the exception holds.
   */
  lemma WithdrawRedeemExact(c: Curve, st: CurveState, a: U256, n: U256)
    requires Built(c) && PreviewWithdraw(c, a, st).Ok? && PreviewRedeem(c, n, st).Ok?
    ensures c.halfSlope > 0 && n <= st.totalShares + c.offset
    ensures PreviewRedeem(c, n, st).value >= a
       <==> n >= PreviewWithdraw(c, a, st).value || OverBurns(c, st, a, n)
    ensures n >= PreviewWithdraw(c, a, st).value ==> !OverBurns(c, st, a, n)
  {
    hide FloorDiv, CeilDiv, FloorSqrt, Built;
    BuiltFacts(c);
    WithdrawValue(c, a, st);
    RedeemValue(c, n, st);
    var s := st.totalShares + c.offset;
    var t := s - n;
    RedeemIff(UNIT, c.halfSlope, s, t, a);
    WithdrawIff(UNIT, c.halfSlope, s, a, t);
    CeilIsFloor(t * t, UNIT);
  }

  // ---------------------------------------------------------------------------
  // Deposit and redeem
  // ---------------------------------------------------------------------------

  /**
   After any successful deposit, redeeming the shares just issued succeeds. It returns at most
   the deposit, and the loss is bounded by the rounding at the new total.
   */
  lemma DepositThenRedeem(c: Curve, st: CurveState, a: U256)
    requires Built(c) && PreviewDeposit(c, a, st).Ok?
    ensures PayIn(st, a, PreviewDeposit(c, a, st).value).Ok?
    ensures var n := PreviewDeposit(c, a, st).value;
            var back := PreviewRedeem(c, n, PayIn(st, a, n).value);
            && back.Ok?
            && back.value <= a
            && (a - back.value - 1) * UNIT
             < (1 + CeilDiv(2 * (st.totalShares + n + c.offset), UNIT)) * c.halfSlope
  {
    hide FloorDiv, CeilDiv, FloorSqrt, Built;
    BuiltFacts(c);
    DepositValue(c, a, st);
    var n := PreviewDeposit(c, a, st).value;
    var s := st.totalShares + c.offset;
    InDomainFacts(c, PayIn(st, a, n).value);
    AreaMono(UNIT, s, s + n);
    RoundTripNoGain(UNIT, c.halfSlope, s, a);
    RoundTripLoss(UNIT, c.halfSlope, s, a);
    RedeemUnfolds(c, PayIn(st, a, n).value, n);
  }

  /** Inside the domain a redeem quote can only fail by overflowing its last division. */
  lemma RedeemUnfolds(c: Curve, st: CurveState, n: U256)
    requires Built(c) && InDomain(c, st) && n <= st.totalShares
    ensures var s := st.totalShares + c.offset;
            && Area(UNIT, s - n) <= Area(UNIT, s)
            && PreviewRedeem(c, n, st) == FromBig(RedeemPay(UNIT, c.halfSlope, s, s - n))
  {
    hide FloorDiv, CeilDiv, FloorSqrt, Built;
    BuiltFacts(c);
    InDomainFacts(c, st);
    var s := st.totalShares + c.offset;
    AreaMono(UNIT, s - n, s);
  }

  /** Every outcome of a redeem quote on a built curve. */
  lemma RedeemOutcome(c: Curve, st: CurveState, n: U256)
    requires Built(c)
    ensures InDomain(c, st) && n <= st.totalShares ==>
              Area(UNIT, st.totalShares + c.offset - n) <= Area(UNIT, st.totalShares + c.offset)
    ensures PreviewRedeem(c, n, st) ==
            if !InDomain(c, st) then Err(DomainExceeded)
            else if n > st.totalShares then Err(SharesExceedTotalShares)
            else
              var pay := RedeemPay(UNIT, c.halfSlope, st.totalShares + c.offset, st.totalShares + c.offset - n);
              if pay > MAX_U256 then Err(MathOverflow) else Ok(pay)
  {
    hide FloorDiv, CeilDiv, FloorSqrt, Built;
    if InDomain(c, st) {
      InDomainFacts(c, st);
      if n <= st.totalShares {
        RedeemUnfolds(c, st, n);
      }
    }
  }

  /** Every outcome of the price: the slope at the current total, rounded down to a unit. */
  lemma PriceOutcome(c: Curve, st: CurveState) returns (price: nat)
    requires Built(c)
    ensures price * 1_000_000_000_000_000_000 <= (st.totalShares + c.offset) * c.slope
          < (price + 1) * 1_000_000_000_000_000_000
    ensures CurrentPrice(c, st) ==
            if !InDomain(c, st) then Err(DomainExceeded)
            else if price > MAX_U256 then Err(MathOverflow)
            else Ok(price)
  {
    hide FloorDiv, CeilDiv, FloorSqrt, Built;
    price := FloorDiv((st.totalShares + c.offset) * c.slope, UNIT);
    FloorBounds((st.totalShares + c.offset) * c.slope, UNIT);
    if InDomain(c, st) {
      InDomainFacts(c, st);
    }
  }

  // ---------------------------------------------------------------------------
  // When a deposit quote fails
  // ---------------------------------------------------------------------------

  /** What is bought for less than the room left fits the curve's square range. */
  lemma BoughtFits(c: Curve, a: U256)
    requires Built(c) && a <= c.maxAssets
    ensures c.halfSlope > 0
    ensures FloorDiv(a * UNIT, c.halfSlope) <= FloorDiv(MAX_U256, UNIT)
  {
    hide FloorDiv, CeilDiv, FloorSqrt, Built;
    BuiltFacts(c);
    var f := FloorDiv(a * UNIT, c.halfSlope);
    var span: nat := Span(c);
    FloorIff(a, span * c.halfSlope, UNIT);
    FloorBounds(a * UNIT, c.halfSlope);
    MulLeIff(f, span, c.halfSlope);
  }

  lemma RootFits(inner: nat)
    requires inner <= 2 * FloorDiv(MAX_U256, UNIT)
    ensures inner <= MAX_U256 && FloorSqrt(inner * UNIT) <= MAX_U256
  {
    hide FloorDiv, CeilDiv, FloorSqrt, Built;
    QuotientFits();
    SqrtBounds(inner * UNIT);
    RootWithinDouble(FloorSqrt(inner * UNIT), inner * UNIT, MAX_U256);
  }

  lemma RootWithinDouble(root: nat, n: nat, bound: nat)
    requires root * root <= n <= 2 * bound && bound >= 2
    ensures root <= bound
  {
    if root > 2 {
      MulLe(2, root, root);
    }
  }

  /** The root falls short of the current total exactly when nothing is bought and the square is inexact. */
  lemma RootFallsShort(u: nat, h: nat, s: nat, a: nat)
    requires u > 0 && h > 0
    ensures DepositRoot(u, h, s, a) < s <==> a * u < h && (s * s) % u != 0
  {
    hide FloorDiv, CeilDiv, FloorSqrt, Built;
    DepositIff(u, h, s, a, s);
    FloorIff(1, a * u, h);
    CeilIsFloor(s * s, u);
  }

  /** Inside the domain and within the room left, only the last two steps of a deposit can fail. */
  lemma DepositUnfolds(c: Curve, st: CurveState, a: U256)
    requires Built(c) && InDomain(c, st) && st.totalAssets + a <= c.maxAssets
    ensures c.halfSlope > 0
    ensures var s := st.totalShares + c.offset; var root := DepositRoot(UNIT, c.halfSlope, s, a);
            PreviewDeposit(c, a, st) ==
            if root < s then Err(MathUnderflow)
            else if root > Top(c) then Err(SharesOverflowMax)
            else Ok(root - s)
  {
    hide FloorDiv, CeilDiv, FloorSqrt, Built;
    BuiltFacts(c);
    InDomainFacts(c, st);
    BoughtFits(c, a);
    QuotientFits();
    var s := st.totalShares + c.offset;
    RootFits(Inner(UNIT, c.halfSlope, s, a));
    var inner := Inner(UNIT, c.halfSlope, s, a);
    assert Square(s) == Ok(Area(UNIT, s));
    assert MulDiv(a, UNIT, c.halfSlope) == Ok(FloorDiv(a * UNIT, c.halfSlope));
    assert SqrtUd60x18(inner) == Ok(FloorSqrt(inner * UNIT));
  }

  /**
   Every outcome of a deposit quote on a built curve. It never overflows and never divides by
   zero; it underflows exactly when the deposit is worth less than one unit of area and the
   current total has an inexact square.
   */
  lemma DepositOutcome(c: Curve, st: CurveState, a: U256)
    requires Built(c)
    ensures c.halfSlope > 0
    ensures var s := st.totalShares + c.offset;
            PreviewDeposit(c, a, st) ==
            if !InDomain(c, st) then Err(DomainExceeded)
            else if st.totalAssets + a > c.maxAssets then Err(AssetsOverflowMax)
            else if a * UNIT < c.halfSlope && (s * s) % UNIT != 0 then Err(MathUnderflow)
            else if DepositRoot(UNIT, c.halfSlope, s, a) > Top(c) then Err(SharesOverflowMax)
            else Ok(DepositRoot(UNIT, c.halfSlope, s, a) - s)
  {
    hide FloorDiv, CeilDiv, FloorSqrt, Built;
    BuiltFacts(c);
    if InDomain(c, st) && st.totalAssets + a <= c.maxAssets {
      DepositUnfolds(c, st, a);
      RootFallsShort(UNIT, c.halfSlope, st.totalShares + c.offset, a);
    }
  }

  // ---------------------------------------------------------------------------
  // When the other quotes fail
  // ---------------------------------------------------------------------------

  lemma MintOutcome(c: Curve, st: CurveState, n: U256)
    requires Built(c)
    ensures AreaUp(UNIT, st.totalShares + c.offset + n) >= Area(UNIT, st.totalShares + c.offset)
    ensures PreviewMint(c, n, st) ==
            if !InDomain(c, st) then Err(DomainExceeded)
            else if st.totalShares + n > c.maxShares then Err(SharesOverflowMax)
            else
              var cost := MintCost(UNIT, c.halfSlope, st.totalShares + c.offset, st.totalShares + c.offset + n);
              if cost > MAX_U256 then Err(MathOverflow)
              else if st.totalAssets + cost > c.maxAssets then Err(AssetsOverflowMax)
              else Ok(cost)
  {
    hide FloorDiv, CeilDiv, FloorSqrt, Built;
    var s := st.totalShares + c.offset;
    AreaMono(UNIT, s, s + n);
    if InDomain(c, st) && st.totalShares + n <= c.maxShares {
      InDomainFacts(c, st);
      AreaMono(UNIT, s + n, Top(c));
      assert SquareUp(s + n) == Ok(AreaUp(UNIT, s + n));
      assert Square(s) == Ok(Area(UNIT, s));
    }
  }

  /** A withdraw quote fails only on its two checks or when the curve holds too little area. */
  lemma WithdrawOutcome(c: Curve, st: CurveState, a: U256)
    requires Built(c)
    ensures c.halfSlope > 0
    ensures var s := st.totalShares + c.offset;
            PreviewWithdraw(c, a, st) ==
            if !InDomain(c, st) then Err(DomainExceeded)
            else if a > st.totalAssets then Err(AssetsExceedTotalAssets)
            else if CeilDiv(a * UNIT, c.halfSlope) > Area(UNIT, s) then Err(MathUnderflow)
            else Ok(s - WithdrawRoot(UNIT, c.halfSlope, s, a))
  {
    hide FloorDiv, CeilDiv, FloorSqrt, Built;
    BuiltFacts(c);
    if InDomain(c, st) && a <= st.totalAssets {
      WithdrawUnfolds(c, st, a);
      if CeilDiv(a * UNIT, c.halfSlope) <= Area(UNIT, st.totalShares + c.offset) {
        WithdrawLowers(UNIT, c.halfSlope, st.totalShares + c.offset, a);
      }
    }
  }

  lemma WithdrawUnfolds(c: Curve, st: CurveState, a: U256)
    requires Built(c) && InDomain(c, st) && a <= st.totalAssets
    ensures c.halfSlope > 0
    ensures var s := st.totalShares + c.offset;
            PreviewWithdraw(c, a, st) ==
            if CeilDiv(a * UNIT, c.halfSlope) > Area(UNIT, s) then Err(MathUnderflow)
            else if WithdrawRoot(UNIT, c.halfSlope, s, a) > s then Err(MathUnderflow)
            else Ok(s - WithdrawRoot(UNIT, c.halfSlope, s, a))
  {
    hide FloorDiv, CeilDiv, FloorSqrt, Built;
    BuiltFacts(c);
    InDomainFacts(c, st);
    QuotientFits();
    BoughtFits(c, a);
    CeilNear(a * UNIT, c.halfSlope);
    var s := st.totalShares + c.offset;
    if CeilDiv(a * UNIT, c.halfSlope) <= Area(UNIT, s) {
      RootFits(Area(UNIT, s) - CeilDiv(a * UNIT, c.halfSlope));
    }
    assert DivUp(a, c.halfSlope) == Ok(CeilDiv(a * UNIT, c.halfSlope));
    assert Square(s) == Ok(Area(UNIT, s));
  }

  lemma CeilNear(x: nat, d: nat)
    requires d > 0
    ensures CeilDiv(x, d) <= FloorDiv(x, d) + 1
  {
    CeilIsFloor(x, d);
  }

  /** The share total left by a withdrawal is never above the current one. */
  lemma WithdrawLowers(u: nat, h: nat, s: nat, a: nat)
    requires u > 0 && h > 0 && CeilDiv(a * u, h) <= Area(u, s)
    ensures WithdrawRoot(u, h, s, a) <= s
  {
    hide FloorDiv, CeilDiv, FloorSqrt, Built;
    WithdrawIff(u, h, s, a, s + 1);
    FloorBounds(s * s, u);
    CeilBounds((s + 1) * (s + 1), u);
    MulLeIff(AreaUp(u, s + 1), Area(u, s), u);
    assert (s + 1) * (s + 1) == s * s + 2 * s + 1;
  }

  /**
   A withdraw quote stays within the share supply exactly when the assets asked for fit between
   the current total and the offset. The code does not check this.
   */
  lemma WithdrawWithinSupply(c: Curve, st: CurveState, a: U256)
    requires Built(c) && PreviewWithdraw(c, a, st).Ok?
    ensures c.halfSlope > 0
    ensures PreviewWithdraw(c, a, st).value <= st.totalShares
       <==> CeilDiv(a * UNIT, c.halfSlope) + AreaUp(UNIT, c.offset) <= Area(UNIT, st.totalShares + c.offset)
  {
    hide FloorDiv, CeilDiv, FloorSqrt, Built;
    WithdrawValue(c, a, st);
    WithdrawIff(UNIT, c.halfSlope, st.totalShares + c.offset, a, c.offset);
  }

  /** Between two amounts that can be deposited, every amount can be. */
  lemma DepositBetween(c: Curve, st: CurveState, low: U256, a: U256, high: U256)
    requires Built(c) && low <= a <= high && PreviewDeposit(c, low, st).Ok? && PreviewDeposit(c, high, st).Ok?
    ensures PreviewDeposit(c, a, st).Ok? && PreviewDeposit(c, a, st).value <= PreviewDeposit(c, high, st).value
  {
    hide FloorDiv, CeilDiv, FloorSqrt, Built;
    DepositOutcome(c, st, low);
    DepositOutcome(c, st, a);
    DepositOutcome(c, st, high);
    MulLe(low, a, UNIT);
    DepositRootMono(UNIT, c.halfSlope, st.totalShares + c.offset, a, high);
  }
}
