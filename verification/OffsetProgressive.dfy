/**
 The quadratic curve of `crates/curves/src/offset_progressive.rs` and, for each quote,
 what a successful answer means in terms of `QuadraticLaws`.
 */
module OffsetProgressive {
  import opened Wrappers
  import opened Rounding
  import opened CurveMath
  import opened ByteCodec
  import opened QuadraticLaws

  datatype Curve = Curve(slope: U256, halfSlope: U256, offset: U256, maxShares: U256, maxAssets: U256)

  /** The largest number whose square, in fixed point, is a `U256`. */
  function MaxRoot(): Quote {
    var v :- FromBig(FloorDiv(MAX_U256, UNIT));
    SqrtUd60x18(v)
  }

  function New(slope: U256, offset: U256): Result<Curve, CurveError> {
    if slope == 0 || slope % 2 == 1 then Err(InvalidSlope)
    else
      var halfSlope := slope / 2;
      var maxSharesBeforeOffset :- MaxRoot();
      var maxShares :- Sub(maxSharesBeforeOffset, offset);
      var maxSharesWithOffset :- Add(maxShares, offset);
      var top :- Square(maxSharesWithOffset);
      var bottom :- SquareUp(offset);
      var assetsSpan :- Sub(top, bottom);
      var maxAssets :- MulDiv(assetsSpan, halfSlope, UNIT);
      Ok(Curve(slope, halfSlope, offset, maxShares, maxAssets))
  }

  /** The fields are private, so every curve is one that `New` returned. */
  predicate Built(c: Curve) {
    New(c.slope, c.offset) == Ok(c)
  }

  predicate InDomain(c: Curve, st: CurveState) {
    st.totalAssets <= c.maxAssets && st.totalShares <= c.maxShares
  }

  function ConvertToShares(c: Curve, assets: U256, st: CurveState): Quote {
    var _ :- CheckCurveDomains(st, c.maxAssets, c.maxShares);
    var _ :- CheckAssetsFit(assets, st.totalAssets, c.maxAssets);
    var s :- Add(st.totalShares, c.offset);
    var area :- Square(s);
    var bought :- MulDiv(assets, UNIT, c.halfSlope);
    var inner :- Add(area, bought);
    var root :- SqrtUd60x18(inner);
    var shares :- Sub(root, s);
    var _ :- CheckSharesFit(shares, st.totalShares, c.maxShares);
    Ok(shares)
  }

  function ConvertToAssets(c: Curve, shares: U256, st: CurveState): Quote {
    var _ :- CheckCurveDomains(st, c.maxAssets, c.maxShares);
    var _ :- CheckRedeem(shares, st.totalShares);
    var s :- Add(st.totalShares, c.offset);
    var sNext :- Sub(s, shares);
    var upper :- Square(s);
    var lower :- Square(sNext);
    var area :- Sub(upper, lower);
    MulDiv(area, c.halfSlope, UNIT)
  }

  function PreviewDeposit(c: Curve, assets: U256, st: CurveState): Quote {
    ConvertToShares(c, assets, st)
  }

  function PreviewMint(c: Curve, shares: U256, st: CurveState): Quote {
    var _ :- CheckCurveDomains(st, c.maxAssets, c.maxShares);
    var _ :- CheckSharesFit(shares, st.totalShares, c.maxShares);
    var s :- Add(st.totalShares, c.offset);
    var sNext :- Add(s, shares);
    var upper :- SquareUp(sNext);
    var lower :- Square(s);
    var area :- Sub(upper, lower);
    var assets :- MulUp(area, c.halfSlope);
    var _ :- CheckAssetsFit(assets, st.totalAssets, c.maxAssets);
    Ok(assets)
  }

  function PreviewWithdraw(c: Curve, assets: U256, st: CurveState): Quote {
    var _ :- CheckCurveDomains(st, c.maxAssets, c.maxShares);
    var _ :- CheckWithdraw(assets, st.totalAssets);
    var s :- Add(st.totalShares, c.offset);
    var deduct :- DivUp(assets, c.halfSlope);
    var area :- Square(s);
    var inner :- Sub(area, deduct);
    var root :- SqrtUd60x18(inner);
    Sub(s, root)
  }

  function PreviewRedeem(c: Curve, shares: U256, st: CurveState): Quote {
    ConvertToAssets(c, shares, st)
  }

  function CurrentPrice(c: Curve, st: CurveState): Quote {
    var _ :- CheckCurveDomains(st, c.maxAssets, c.maxShares);
    var s :- Add(st.totalShares, c.offset);
    MulDiv(s, c.slope, UNIT)
  }

  // ---------------------------------------------------------------------------
  // What the constructor guarantees
  // ---------------------------------------------------------------------------

  /** The top of the curve: the largest share total with the offset added. */
  function Top(c: Curve): nat {
    c.maxShares + c.offset
  }

  function Span(c: Curve): int {
    Area(UNIT, Top(c)) - AreaUp(UNIT, c.offset)
  }

  lemma MaxRootFacts() returns (root: U256)
    ensures MaxRoot() == Ok(root) && root == FloorSqrt(FloorDiv(MAX_U256, UNIT) * UNIT)
    ensures Area(UNIT, root) <= FloorDiv(MAX_U256, UNIT)
  {
    hide FloorDiv, CeilDiv, FloorSqrt;
    var v := FloorDiv(MAX_U256, UNIT);
    FloorBounds(MAX_U256, UNIT);
    SqrtBounds(v * UNIT);
    RootBelow(FloorSqrt(v * UNIT), v, UNIT);
    RootWithinWord(FloorSqrt(v * UNIT), v * UNIT, MAX_U256);
    root := FloorSqrt(v * UNIT);
  }

  lemma RootBelow(root: nat, v: nat, u: nat)
    requires u > 0 && root * root <= v * u
    ensures Area(u, root) <= v
  {
    hide FloorDiv, CeilDiv, FloorSqrt;
    FloorBounds(root * root, u);
    MulLeIff(Area(u, root), v, u);
  }

  /** Two fixed-point squares still fit a word. */
  lemma QuotientFits()
    ensures 2 * FloorDiv(MAX_U256, UNIT) + 2 <= MAX_U256
    ensures FloorDiv(MAX_U256, UNIT) * UNIT <= MAX_U256
  {
    hide FloorDiv, CeilDiv, FloorSqrt;
    WordIsWide();
    FloorBounds(MAX_U256, UNIT);
  }

  lemma RootWithinWord(root: nat, n: nat, bound: nat)
    requires root * root <= n <= bound
    ensures root <= bound
  {
    hide FloorDiv, CeilDiv, FloorSqrt;
    if root > 0 {
      MulLe(1, root, root);
    }
  }

  /** What a span of area is worth at a half slope. */
  function SpanWorth(span: nat, halfSlope: nat): nat {
    FloorDiv(span * halfSlope, UNIT)
  }

  lemma SpanWorthBounds(span: nat, halfSlope: nat)
    ensures SpanWorth(span, halfSlope) * 1_000_000_000_000_000_000 <= span * halfSlope
          < (SpanWorth(span, halfSlope) + 1) * 1_000_000_000_000_000_000
  {
    hide FloorDiv;
    FloorBounds(span * halfSlope, UNIT);
  }

  /**
   Every outcome of the constructor: a slope is refused exactly when it is zero or odd, an offset exactly
   when no area is left above it, and both together when the area is worth more than a word. The curve
   then reaches up to the largest number whose fixed-point square is a word.
   */
  lemma NewOutcome(slope: U256, offset: U256) returns (root: U256)
    ensures root * root <= FloorDiv(MAX_U256, 1_000_000_000_000_000_000) * 1_000_000_000_000_000_000
          < (root + 1) * (root + 1)
    ensures New(slope, offset) ==
            if slope == 0 || slope % 2 == 1 then Err(InvalidSlope)
            else if offset > root || AreaUp(UNIT, offset) > Area(UNIT, root) then Err(MathUnderflow)
            else
              var maxAssets := SpanWorth(Area(UNIT, root) - AreaUp(UNIT, offset), slope / 2);
              if maxAssets > MAX_U256 then Err(MathOverflow)
              else Ok(Curve(slope, slope / 2, offset, root - offset, maxAssets))
  {
    hide FloorDiv, CeilDiv, FloorSqrt, New, MaxRoot, Area, AreaUp, SpanWorth;
    root := MaxRootFacts();
    SqrtBounds(FloorDiv(MAX_U256, UNIT) * UNIT);
    NewUnfolds(slope, offset, root);
  }

  lemma NewUnfolds(slope: U256, offset: U256, root: U256)
    requires MaxRoot() == Ok(root) && Area(UNIT, root) <= FloorDiv(MAX_U256, UNIT)
    ensures New(slope, offset) ==
            if slope == 0 || slope % 2 == 1 then Err(InvalidSlope)
            else if offset > root || AreaUp(UNIT, offset) > Area(UNIT, root) then Err(MathUnderflow)
            else
              var maxAssets := SpanWorth(Area(UNIT, root) - AreaUp(UNIT, offset), slope / 2);
              if maxAssets > MAX_U256 then Err(MathOverflow)
              else Ok(Curve(slope, slope / 2, offset, root - offset, maxAssets))
  {
    hide FloorDiv, CeilDiv, FloorSqrt, MaxRoot;
    QuotientFits();
    if offset <= root {
      AreaMono(UNIT, offset, root);
      SquareIs(root);
      SquareIs(offset);
      hide Square, SquareUp, Area, AreaUp;
    }
  }

  lemma SquareIs(x: nat)
    ensures Square(x) == FromBig(Area(UNIT, x)) && SquareUp(x) == FromBig(AreaUp(UNIT, x))
  {
    hide FloorDiv, CeilDiv;
  }

  lemma BuiltFacts(c: Curve)
    requires Built(c)
    ensures c.halfSlope > 0 && c.slope == 2 * c.halfSlope
    ensures Top(c) <= MAX_U256
    ensures 0 <= Span(c) && Area(UNIT, Top(c)) <= FloorDiv(MAX_U256, UNIT)
    ensures c.maxAssets == FloorDiv(Span(c) * c.halfSlope, UNIT)
  {
    hide FloorDiv, CeilDiv, FloorSqrt;
    var root := MaxRootFacts();
    assert Top(c) == root;
  }

  /** Every total the domain check lets through has a fixed-point square far below 2^256. */
  lemma InDomainFacts(c: Curve, st: CurveState)
    requires Built(c) && InDomain(c, st)
    ensures st.totalShares + c.offset <= Top(c) <= MAX_U256
    ensures Area(UNIT, st.totalShares + c.offset) <= Area(UNIT, Top(c)) <= FloorDiv(MAX_U256, UNIT)
    ensures AreaUp(UNIT, Top(c)) <= Area(UNIT, Top(c)) + 1 <= MAX_U256
    ensures Area(UNIT, c.offset) <= Area(UNIT, st.totalShares + c.offset)
  {
    hide FloorDiv, CeilDiv, FloorSqrt, Built;
    BuiltFacts(c);
    QuotientFits();
    AreaMono(UNIT, st.totalShares + c.offset, Top(c));
    AreaMono(UNIT, c.offset, st.totalShares + c.offset);
  }

  // ---------------------------------------------------------------------------
  // What each quote is
  // ---------------------------------------------------------------------------

  lemma DepositValue(c: Curve, a: U256, st: CurveState)
    requires Built(c) && PreviewDeposit(c, a, st).Ok?
    ensures InDomain(c, st)
    ensures var n := PreviewDeposit(c, a, st).value; var s := st.totalShares + c.offset;
            && s + n == DepositRoot(UNIT, c.halfSlope, s, a)
            && InDomain(c, CurveState(st.totalAssets + a, st.totalShares + n))
  {
    hide FloorDiv, CeilDiv, FloorSqrt;
    BuiltFacts(c);
  }

  lemma MintValue(c: Curve, n: U256, st: CurveState)
    requires Built(c) && PreviewMint(c, n, st).Ok?
    ensures InDomain(c, st)
    ensures var a := PreviewMint(c, n, st).value; var s := st.totalShares + c.offset;
            && AreaUp(UNIT, s + n) >= Area(UNIT, s)
            && a == MintCost(UNIT, c.halfSlope, s, s + n)
            && InDomain(c, CurveState(st.totalAssets + a, st.totalShares + n))
  {
    hide FloorDiv, CeilDiv, FloorSqrt;
    BuiltFacts(c);
  }

  lemma WithdrawValue(c: Curve, a: U256, st: CurveState)
    requires Built(c) && PreviewWithdraw(c, a, st).Ok?
    ensures InDomain(c, st) && a <= st.totalAssets && c.halfSlope > 0
    ensures var n := PreviewWithdraw(c, a, st).value; var s := st.totalShares + c.offset;
            && n <= s
            && CeilDiv(a * UNIT, c.halfSlope) <= Area(UNIT, s)
            && s - n == WithdrawRoot(UNIT, c.halfSlope, s, a)
  {
    hide FloorDiv, CeilDiv, FloorSqrt;
    BuiltFacts(c);
  }

  lemma RedeemValue(c: Curve, n: U256, st: CurveState)
    requires Built(c) && PreviewRedeem(c, n, st).Ok?
    ensures InDomain(c, st) && n <= st.totalShares
    ensures var s := st.totalShares + c.offset;
            && Area(UNIT, s - n) <= Area(UNIT, s)
            && PreviewRedeem(c, n, st).value == RedeemPay(UNIT, c.halfSlope, s, s - n)
  {
    hide FloorDiv, CeilDiv, FloorSqrt;
    BuiltFacts(c);
  }
}
