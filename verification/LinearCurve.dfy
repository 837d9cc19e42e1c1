/** The proportional curve of `crates/curves/src/linear.rs`, its quotes and its runs. */
module LinearCurve {
  import opened Wrappers
  import opened Rounding
  import opened CurveMath
  import opened ByteCodec

  function ConvertToSharesUnchecked(assets: U256, st: CurveState): Quote {
    if st.totalShares == 0 then Ok(assets) else MulDiv(assets, st.totalShares, st.totalAssets)
  }

  function ConvertToAssetsUnchecked(shares: U256, st: CurveState): Quote {
    if st.totalShares == 0 then Ok(shares) else MulDiv(shares, st.totalAssets, st.totalShares)
  }

  function PreviewDeposit(assets: U256, st: CurveState): Quote {
    var _ :- CheckCurveDomains(st, MAX_U256, MAX_U256);
    var _ :- CheckAssetsFit(assets, st.totalAssets, MAX_U256);
    var shares :- ConvertToSharesUnchecked(assets, st);
    var _ :- CheckSharesFit(shares, st.totalShares, MAX_U256);
    Ok(shares)
  }

  function PreviewMint(shares: U256, st: CurveState): Quote {
    var _ :- CheckCurveDomains(st, MAX_U256, MAX_U256);
    var _ :- CheckSharesFit(shares, st.totalShares, MAX_U256);
    var assets :- if st.totalShares == 0 then Ok(shares) else MulDivUp(shares, st.totalAssets, st.totalShares);
    var _ :- CheckAssetsFit(assets, st.totalAssets, MAX_U256);
    Ok(assets)
  }

  function PreviewWithdraw(assets: U256, st: CurveState): Quote {
    var _ :- CheckCurveDomains(st, MAX_U256, MAX_U256);
    var _ :- CheckWithdraw(assets, st.totalAssets);
    if st.totalShares == 0 then Ok(assets) else MulDivUp(assets, st.totalShares, st.totalAssets)
  }

  function PreviewRedeem(shares: U256, st: CurveState): Quote {
    var _ :- CheckCurveDomains(st, MAX_U256, MAX_U256);
    var _ :- CheckRedeem(shares, st.totalShares);
    ConvertToAssetsUnchecked(shares, st)
  }

  function CurrentPrice(st: CurveState): Quote {
    var _ :- CheckCurveDomains(st, MAX_U256, MAX_U256);
    WordIsWide();
    ConvertToAssetsUnchecked(UNIT, st)
  }

  // ---------------------------------------------------------------------------
  // Every outcome of every quote
  // ---------------------------------------------------------------------------

  /** Fails exactly when the assets do not fit, the quotient is by nothing or too large, or the shares do not fit. */
  lemma DepositOutcome(st: CurveState, a: U256)
    ensures PreviewDeposit(a, st) ==
            if st.totalAssets + a > MAX_U256 then Err(AssetsOverflowMax)
            else if st.totalShares == 0 then Ok(a)
            else if st.totalAssets == 0 then Err(DivisionByZero)
            else
              var shares := FloorDiv(a * st.totalShares, st.totalAssets);
              if shares > MAX_U256 then Err(MathOverflow)
              else if st.totalShares + shares > MAX_U256 then Err(SharesOverflowMax)
              else Ok(shares)
  {
    hide FloorDiv;
  }

  /** There is no limit but the word: any number of shares can be minted, in an empty vault at par. */
  lemma MintOutcome(st: CurveState, n: U256)
    ensures PreviewMint(n, st) ==
            if st.totalShares + n > MAX_U256 then Err(SharesOverflowMax)
            else
              var assets := if st.totalShares == 0 then n else CeilDiv(n * st.totalAssets, st.totalShares);
              if assets > MAX_U256 then Err(MathOverflow)
              else if st.totalAssets + assets > MAX_U256 then Err(AssetsOverflowMax)
              else Ok(assets)
  {
    hide CeilDiv;
  }

  /** Whatever the vault holds can be quoted; with no shares in issue nothing is asked but the assets themselves. */
  lemma WithdrawOutcome(st: CurveState, a: U256)
    ensures PreviewWithdraw(a, st) ==
            if a > st.totalAssets then Err(AssetsExceedTotalAssets)
            else if st.totalShares == 0 then Ok(a)
            else if st.totalAssets == 0 then Err(DivisionByZero)
            else Ok(WithdrawShares(st, a))
  {
    hide CeilDiv;
    if st.totalShares != 0 && st.totalAssets != 0 && a <= st.totalAssets {
      WithdrawFits(st, a);
    }
  }

  function WithdrawShares(st: CurveState, a: nat): nat
    requires st.totalAssets > 0
  {
    CeilDiv(a * st.totalShares, st.totalAssets)
  }

  lemma WithdrawFits(st: CurveState, a: U256)
    requires 0 < st.totalAssets && a <= st.totalAssets
    ensures WithdrawShares(st, a) <= st.totalShares <= MAX_U256
  {
    hide CeilDiv;
    MulLe(a, st.totalAssets, st.totalShares);
    CeilIff(a * st.totalShares, st.totalAssets, st.totalShares);
  }

  lemma RedeemOutcome(st: CurveState, n: U256)
    ensures PreviewRedeem(n, st) ==
            if n > st.totalShares then Err(SharesExceedTotalShares)
            else if st.totalShares == 0 then Ok(0)
            else Ok(RedeemAssets(st, n))
  {
    hide FloorDiv;
    if n <= st.totalShares && st.totalShares != 0 {
      RedeemFits(st, n);
    }
  }

  function RedeemAssets(st: CurveState, n: nat): nat
    requires st.totalShares > 0
  {
    FloorDiv(n * st.totalAssets, st.totalShares)
  }

  lemma RedeemFits(st: CurveState, n: U256)
    requires 0 < st.totalShares && n <= st.totalShares
    ensures RedeemAssets(st, n) <= st.totalAssets <= MAX_U256
  {
    hide FloorDiv;
    var pay := RedeemAssets(st, n);
    FloorBounds(n * st.totalAssets, st.totalShares);
    MulLe(n, st.totalShares, st.totalAssets);
    MulLeIff(pay, st.totalAssets, st.totalShares);
  }

  /** The price of a share: par in an empty vault, otherwise the ratio rounded down to a unit. */
  lemma PriceOutcome(st: CurveState) returns (price: nat)
    ensures st.totalShares == 0 ==> price == 1_000_000_000_000_000_000
    ensures st.totalShares > 0 ==>
              price * st.totalShares <= 1_000_000_000_000_000_000 * st.totalAssets < (price + 1) * st.totalShares
    ensures CurrentPrice(st) == if price > MAX_U256 then Err(MathOverflow) else Ok(price)
  {
    hide FloorDiv;
    WordIsWide();
    if st.totalShares == 0 {
      price := UNIT;
    } else {
      price := FloorDiv(UNIT * st.totalAssets, st.totalShares);
      FloorBounds(UNIT * st.totalAssets, st.totalShares);
    }
  }

  // ---------------------------------------------------------------------------
  // Adjoints
  // ---------------------------------------------------------------------------

  lemma DepositMintAdjoint(st: CurveState, a: U256, n: U256)
    requires PreviewDeposit(a, st).Ok? && PreviewMint(n, st).Ok?
    ensures PreviewMint(n, st).value <= a <==> n <= PreviewDeposit(a, st).value
  {
    hide FloorDiv, CeilDiv;
    var held, issued := st.totalAssets, st.totalShares;
    if issued != 0 {
      assert PreviewMint(n, st).value == CeilDiv(n * held, issued);
      assert PreviewDeposit(a, st).value == FloorDiv(a * issued, held);
      CeilIff(n * held, issued, a);
      FloorIff(n, a * issued, held);
    }
  }

  lemma WithdrawRedeemAdjoint(st: CurveState, a: U256, n: U256)
    requires PreviewWithdraw(a, st).Ok? && PreviewRedeem(n, st).Ok?
    ensures PreviewRedeem(n, st).value >= a <==> n >= PreviewWithdraw(a, st).value
  {
    hide FloorDiv, CeilDiv;
    var held, issued := st.totalAssets, st.totalShares;
    if issued != 0 {
      assert PreviewWithdraw(a, st).value == CeilDiv(a * issued, held);
      assert PreviewRedeem(n, st).value == FloorDiv(n * held, issued);
      CeilIff(a * issued, held, n);
      FloorIff(a, n * held, issued);
    }
  }

  /** Redemptions and withdrawals always stay within what the vault has. */
  lemma PaysWithinMeans(st: CurveState, a: U256, n: U256)
    ensures n <= st.totalShares ==> PreviewRedeem(n, st).Ok? && PreviewRedeem(n, st).value <= st.totalAssets
    ensures a <= st.totalAssets && st.totalShares != 0 && st.totalAssets != 0
        ==> PreviewWithdraw(a, st).Ok? && PreviewWithdraw(a, st).value <= st.totalShares
  {
    hide FloorDiv, CeilDiv;
    if n <= st.totalShares && st.totalShares != 0 {
      var pay := FloorDiv(n * st.totalAssets, st.totalShares);
      FloorBounds(n * st.totalAssets, st.totalShares);
      MulLe(n, st.totalShares, st.totalAssets);
      MulLeIff(pay, st.totalAssets, st.totalShares);
    }
    if a <= st.totalAssets && st.totalShares != 0 && st.totalAssets != 0 {
      MulLe(a, st.totalAssets, st.totalShares);
      CeilIff(a * st.totalShares, st.totalAssets, st.totalShares);
    }
  }

  // ---------------------------------------------------------------------------
  // Splitting an operation in two
  // ---------------------------------------------------------------------------

  lemma DepositMono(st: CurveState, a: U256, b: U256)
    requires a <= b && PreviewDeposit(b, st).Ok?
    ensures PreviewDeposit(a, st).Ok? && PreviewDeposit(a, st).value <= PreviewDeposit(b, st).value
  {
    hide FloorDiv, CeilDiv;
    if st.totalShares != 0 {
      MulLe(a, b, st.totalShares);
      FloorMono(a * st.totalShares, b * st.totalShares, st.totalAssets);
    }
  }

  /** Shares are never issued below the price quoted before the deposit. */
  lemma DepositPriceBound(st: CurveState, a: U256)
    requires PreviewDeposit(a, st).Ok? && CurrentPrice(st).Ok?
    ensures PreviewDeposit(a, st).value * CurrentPrice(st).value <= a * UNIT
  {
    hide FloorDiv, CeilDiv;
    WordIsWide();
    var n, p := PreviewDeposit(a, st).value, CurrentPrice(st).value;
    if st.totalShares != 0 {
      DepositBounds(st, a);
      FloorBounds(UNIT * st.totalAssets, st.totalShares);
      PriceArithmetic(n, p, a, UNIT, st.totalAssets, st.totalShares);
    }
  }

  lemma PriceArithmetic(n: nat, p: nat, a: nat, u: nat, held: nat, issued: nat)
    requires held > 0 && issued > 0 && n * held <= a * issued && p * issued <= u * held
    ensures n * p <= a * u
  {
    calc {
      n * p * (held * issued);
      (n * held) * (p * issued);
    <= { MulLe(n * held, a * issued, p * issued); }
      (a * issued) * (p * issued);
    <= { MulLe(p * issued, u * held, a * issued); }
      (a * issued) * (u * held);
      a * u * (held * issued);
    }
    MulLeIff(n * p, a * u, held * issued);
  }

  lemma DepositSplit(st: CurveState, a: U256, b: U256)
    requires PreviewDeposit(a, st).Ok? && PayIn(st, a, PreviewDeposit(a, st).value).Ok?
    requires PreviewDeposit(b, PayIn(st, a, PreviewDeposit(a, st).value).value).Ok?
    requires a + b <= MAX_U256 && PreviewDeposit(a + b, st).Ok?
    ensures var first := PreviewDeposit(a, st).value;
            var second := PreviewDeposit(b, PayIn(st, a, first).value).value;
            first + second <= PreviewDeposit(a + b, st).value
  {
    hide FloorDiv, CeilDiv;
    var first := PreviewDeposit(a, st).value;
    var next := PayIn(st, a, first).value;
    var second := PreviewDeposit(b, next).value;
    if st.totalShares != 0 {
      DepositBounds(st, a);
      DepositBounds(next, b);
      DepositArithmetic(st.totalAssets, st.totalShares, a, b, first, second);
      DepositAtLeast(st, a + b, first + second);
    } else if a != 0 {
      DepositBounds(next, b);
      FirstDepositArithmetic(st.totalAssets, a, b, second);
    }
  }

  lemma DepositBounds(st: CurveState, a: U256)
    requires st.totalShares > 0 && PreviewDeposit(a, st).Ok?
    ensures st.totalAssets > 0
    ensures PreviewDeposit(a, st).value * st.totalAssets <= a * st.totalShares
  {
    hide FloorDiv, CeilDiv;
    FloorBounds(a * st.totalShares, st.totalAssets);
  }

  lemma DepositAtLeast(st: CurveState, a: U256, n: nat)
    requires st.totalShares > 0 && PreviewDeposit(a, st).Ok?
    requires n * st.totalAssets <= a * st.totalShares
    ensures n <= PreviewDeposit(a, st).value
  {
    hide FloorDiv, CeilDiv;
    FloorIff(n, a * st.totalShares, st.totalAssets);
  }

  lemma FirstDepositArithmetic(held: nat, a: nat, b: nat, m: nat)
    requires a > 0 && m * (held + a) <= b * a
    ensures m <= b
  {
    MulLe(a, held + a, b);
    MulLeIff(m, b, held + a);
  }

  lemma DepositArithmetic(held: nat, issued: nat, a: nat, b: nat, n: nat, m: nat)
    requires held > 0 && n * held <= a * issued && m * (held + a) <= b * (issued + n)
    ensures (n + m) * held <= (a + b) * issued
  {
    hide FloorDiv, CeilDiv;
    RatioPaidIn(held, issued, a, n);
    calc <= {
      m * held * (held + a);
      { MulSwap(m, held, held + a); }
      m * (held + a) * held;
      { MulLe(m * (held + a), b * (issued + n), held); }
      b * (issued + n) * held;
      { MulSwap(b, issued + n, held); MulSwap(held, issued + n, b); }
      held * (issued + n) * b;
      { MulLe(held * (issued + n), (held + a) * issued, b); }
      (held + a) * issued * b;
      { MulSwap(b, issued, held + a); MulSwap(issued, held + a, b); }
      b * issued * (held + a);
    }
    MulLeIff(m * held, b * issued, held + a);
    MulAdd(n, m, held);
    MulAdd(a, b, issued);
  }

  /** A redemption split in two pays no more than in one piece, and at most one unit less. */
  lemma RedeemSplit(st: CurveState, n: U256, m: U256)
    requires n + m <= st.totalShares
    requires PreviewRedeem(n, st).Ok? && PayOut(st, PreviewRedeem(n, st).value, n).Ok?
    requires PreviewRedeem(m, PayOut(st, PreviewRedeem(n, st).value, n).value).Ok?
    requires PreviewRedeem(n + m, st).Ok?
    ensures var first := PreviewRedeem(n, st).value;
            var second := PreviewRedeem(m, PayOut(st, first, n).value).value;
            first + second <= PreviewRedeem(n + m, st).value <= first + second + 1
  {
    hide FloorDiv, CeilDiv;
    if st.totalShares > n {
      var first := PreviewRedeem(n, st).value;
      var left := PayOut(st, first, n).value;
      RedeemBounds(st, n);
      RedeemBounds(left, m);
      RedeemBounds(st, n + m);
      RedeemArithmetic(st.totalAssets, st.totalShares, n, m, first,
                       PreviewRedeem(m, left).value, PreviewRedeem(n + m, st).value);
    }
  }

  lemma RedeemBounds(st: CurveState, n: U256)
    requires st.totalShares > 0 && PreviewRedeem(n, st).Ok?
    ensures var pay := PreviewRedeem(n, st).value;
            && n <= st.totalShares
            && pay * st.totalShares <= n * st.totalAssets < pay * st.totalShares + st.totalShares
  {
    hide FloorDiv, CeilDiv;
    FloorBounds(n * st.totalAssets, st.totalShares);
  }

  lemma RedeemArithmetic(held: nat, issued: nat, n: nat, m: nat, a: nat, b: nat, whole: nat)
    requires n < issued && m <= issued - n && a <= held
    requires a * issued <= n * held < a * issued + issued
    requires b * (issued - n) <= m * (held - a) < b * (issued - n) + (issued - n)
    requires whole * issued <= (n + m) * held < whole * issued + issued
    ensures a + b <= whole <= a + b + 1
  {
    hide FloorDiv, CeilDiv;
    RedeemUpper(held, issued, n, m, a, b);
    RedeemLower(held, issued, n, m, a, b);
    MulAdd(whole, 1, issued);
    MulLeIff(whole + 1, a + b, issued);
    MulLeIff(a + b + 2, whole, issued);
  }

  lemma RedeemUpper(held: nat, issued: nat, n: nat, m: nat, a: nat, b: nat)
    requires n < issued && m <= issued - n && a <= held
    requires a * issued <= n * held && b * (issued - n) <= m * (held - a)
    ensures (a + b) * issued <= (n + m) * held
  {
    var heldLeft, issuedLeft := held - a, issued - n;
    assert a * issued == a * issuedLeft + a * n && n * held == n * heldLeft + n * a;
    RestArithmetic(heldLeft, issuedLeft, n, m, a, b, n * heldLeft - a * issuedLeft);
    assert (a + b) * issued == a * issuedLeft + a * n + b * issuedLeft + b * n;
    assert (n + m) * held == n * heldLeft + n * a + m * heldLeft + m * a;
  }

  lemma RestArithmetic(heldLeft: nat, issuedLeft: nat, n: nat, m: nat, a: nat, b: nat, r: nat)
    requires issuedLeft > 0 && m <= issuedLeft && b * issuedLeft <= m * heldLeft && r + a * issuedLeft == n * heldLeft
    ensures b * n <= r + m * a
  {
    calc <= {
      b * n * issuedLeft;
      == { MulSwap(b, n, issuedLeft); }
      b * issuedLeft * n;
      { MulLe(b * issuedLeft, m * heldLeft, n); }
      m * heldLeft * n;
      == { MulSwap(m, heldLeft, n); assert m * n * heldLeft == m * (n * heldLeft); }
      m * (r + a * issuedLeft);
      == { assert m * (r + a * issuedLeft) == r * m + m * a * issuedLeft; }
      r * m + m * a * issuedLeft;
      { MulLe(m, issuedLeft, r); }
      r * issuedLeft + m * a * issuedLeft;
      == { MulAdd(r, m * a, issuedLeft); }
      (r + m * a) * issuedLeft;
    }
    MulLeIff(b * n, r + m * a, issuedLeft);
  }

  lemma RedeemLower(held: nat, issued: nat, n: nat, m: nat, a: nat, b: nat)
    requires n < issued && a <= held
    requires a * issued <= n * held < a * issued + issued && m * (held - a) < b * (issued - n) + (issued - n)
    ensures (n + m) * held < (a + b + 2) * issued
  {
    hide FloorDiv, CeilDiv;
    RatioPaidOut(held, issued, a, n);
    calc <= {
      m * held * (issued - n);
      { MulSwap(m, held, issued - n); MulSwap(held, issued - n, m); MulSwap(m, issued - n, held); }
      held * (issued - n) * m;
      { MulLe(held * (issued - n), (held - a) * issued, m); }
      (held - a) * issued * m;
      { MulSwap(held - a, issued, m); MulSwap(m, held - a, issued); }
      m * (held - a) * issued;
    }
    calc <= {
      m * (held - a) * issued + issued;
      { MulAdd(m * (held - a), 1, issued); }
      (m * (held - a) + 1) * issued;
      { MulAdd(b, 1, issued - n); MulLe(m * (held - a) + 1, (b + 1) * (issued - n), issued); }
      (b + 1) * (issued - n) * issued;
      { MulSwap(b + 1, issued - n, issued); }
      (b + 1) * issued * (issued - n);
    }
    MulLeIff((b + 1) * issued, m * held, issued - n);
    MulAdd(n, m, held);
    MulAdd(a, b + 1, issued);
    MulAdd(a + b + 1, 1, issued);
  }

  // ---------------------------------------------------------------------------
  // Runs
  // ---------------------------------------------------------------------------

  function Step(st: CurveState, op: Op): Transition {
    match op
    case Deposit(assets) =>
      var shares :- PreviewDeposit(assets, st);
      PayIn(st, assets, shares)
    case Mint(shares) =>
      var assets :- PreviewMint(shares, st);
      PayIn(st, assets, shares)
    case Withdraw(assets) =>
      var shares :- PreviewWithdraw(assets, st);
      PayOut(st, assets, shares)
    case Redeem(shares) =>
      var assets :- PreviewRedeem(shares, st);
      PayOut(st, assets, shares)
  }

  /** The exact ratio of assets to shares did not fall, compared by cross multiplication. */
  predicate RatioKept(before: CurveState, after: CurveState) {
    after.totalAssets * before.totalShares >= before.totalAssets * after.totalShares
  }

  /** Each quote exchanges assets and shares at the vault's ratio or in its favour. */
  lemma QuotesFavourVault(st: CurveState, x: U256)
    requires st.totalShares > 0
    ensures PreviewDeposit(x, st).Ok? ==> PreviewDeposit(x, st).value * st.totalAssets <= x * st.totalShares
    ensures PreviewMint(x, st).Ok? ==> x * st.totalAssets <= PreviewMint(x, st).value * st.totalShares
    ensures PreviewWithdraw(x, st).Ok? ==> x * st.totalShares <= PreviewWithdraw(x, st).value * st.totalAssets
    ensures PreviewRedeem(x, st).Ok? ==> PreviewRedeem(x, st).value * st.totalShares <= x * st.totalAssets
  {
    hide FloorDiv, CeilDiv;
    if st.totalAssets > 0 {
      FloorBounds(x * st.totalShares, st.totalAssets);
      CeilBounds(x * st.totalShares, st.totalAssets);
    }
    CeilBounds(x * st.totalAssets, st.totalShares);
    FloorBounds(x * st.totalAssets, st.totalShares);
  }

  lemma StepKeepsRatio(st: CurveState, op: Op)
    requires st.totalShares > 0 && Step(st, op).Ok?
    ensures RatioKept(st, Step(st, op).value)
  {
    hide FloorDiv, CeilDiv;
    match op
    case Deposit(a) =>
      QuotesFavourVault(st, a);
      PayInKeepsRatio(st, a, PreviewDeposit(a, st).value);
    case Mint(n) =>
      QuotesFavourVault(st, n);
      PayInKeepsRatio(st, PreviewMint(n, st).value, n);
    case Withdraw(a) =>
      QuotesFavourVault(st, a);
      PayOutKeepsRatio(st, a, PreviewWithdraw(a, st).value);
    case Redeem(n) =>
      QuotesFavourVault(st, n);
      PayOutKeepsRatio(st, PreviewRedeem(n, st).value, n);
  }

  lemma PayInKeepsRatio(st: CurveState, a: U256, n: U256)
    requires PayIn(st, a, n).Ok? && n * st.totalAssets <= a * st.totalShares
    ensures RatioKept(st, PayIn(st, a, n).value)
  {
    hide FloorDiv, CeilDiv;
    RatioPaidIn(st.totalAssets, st.totalShares, a, n);
  }

  lemma PayOutKeepsRatio(st: CurveState, a: U256, n: U256)
    requires PayOut(st, a, n).Ok? && a * st.totalShares <= n * st.totalAssets
    ensures RatioKept(st, PayOut(st, a, n).value)
  {
    hide FloorDiv, CeilDiv;
    RatioPaidOut(st.totalAssets, st.totalShares, a, n);
  }

  lemma RatioPaidIn(held: nat, issued: nat, a: nat, n: nat)
    requires n * held <= a * issued
    ensures (held + a) * issued >= held * (issued + n)
  {
    hide FloorDiv, CeilDiv;
  }

  lemma RatioPaidOut(held: nat, issued: nat, a: nat, n: nat)
    requires a * issued <= n * held && a <= held && n <= issued
    ensures (held - a) * issued >= held * (issued - n)
  {
    hide FloorDiv, CeilDiv;
  }

  lemma RatioChains(x: CurveState, y: CurveState, z: CurveState)
    requires y.totalShares > 0 && RatioKept(x, y) && RatioKept(y, z)
    ensures RatioKept(x, z)
  {
    hide FloorDiv, CeilDiv;
    RatioArithmetic(x.totalAssets, x.totalShares, y.totalAssets, y.totalShares, z.totalAssets, z.totalShares);
  }

  lemma RatioArithmetic(held0: nat, issued0: nat, held1: nat, issued1: nat, held2: nat, issued2: nat)
    requires issued1 > 0 && held1 * issued0 >= held0 * issued1 && held2 * issued1 >= held1 * issued2
    ensures held2 * issued0 >= held0 * issued2
  {
    hide FloorDiv, CeilDiv;
    MulLe(held1 * issued2, held2 * issued1, issued0);
    MulLe(held0 * issued1, held1 * issued0, issued2);
    MulSwap(held2, issued0, issued1);
    MulSwap(held1, issued0, issued2);
    MulSwap(held0, issued2, issued1);
    MulLeIff(held0 * issued2, held2 * issued0, issued1);
  }

  /** A run whose share total is positive before every step. */
  function LiveRun(st: CurveState, ops: seq<Op>): Option<CurveState>
    decreases |ops|
  {
    if ops == [] then Some(st)
    else if st.totalShares == 0 || Step(st, ops[0]).Err? then None
    else LiveRun(Step(st, ops[0]).value, ops[1..])
  }

  /** Over every run that keeps shares in issue, a share is never backed by less than before. */
  lemma {:induction false} RunKeepsRatio(st: CurveState, ops: seq<Op>)
    requires LiveRun(st, ops).Some?
    ensures RatioKept(st, LiveRun(st, ops).value)
    decreases |ops|
  {
    hide FloorDiv, CeilDiv;
    if ops != [] {
      var next := Step(st, ops[0]).value;
      StepKeepsRatio(st, ops[0]);
      RunKeepsRatio(next, ops[1..]);
      if |ops| > 1 {
        RatioChains(st, next, LiveRun(st, ops).value);
      }
    }
  }

  function Run(st: CurveState, ops: seq<Op>): Transition
    decreases |ops|
  {
    if ops == [] then Ok(st)
    else
      var next :- Step(st, ops[0]);
      Run(next, ops[1..])
  }

  /** A share is backed by a whole asset. */
  predicate Backed(st: CurveState) {
    st.totalShares <= st.totalAssets
  }

  /** In an empty vault assets and shares move together, otherwise the ratio does not fall. */
  lemma StepKeepsBacked(st: CurveState, op: Op)
    requires Backed(st) && Step(st, op).Ok?
    ensures Backed(Step(st, op).value)
  {
    hide FloorDiv, CeilDiv;
    if st.totalShares > 0 {
      StepKeepsRatio(st, op);
      var after := Step(st, op).value;
      MulLe(st.totalShares, st.totalAssets, after.totalShares);
      MulLeIff(after.totalShares, after.totalAssets, st.totalShares);
    }
  }

  /** So from the empty vault on, through any number of empty vaults, no share is worth less than one asset. */
  lemma {:induction false} RunKeepsBacked(st: CurveState, ops: seq<Op>)
    requires Backed(st) && Run(st, ops).Ok?
    ensures Backed(Run(st, ops).value)
    decreases |ops|
  {
    if ops != [] {
      hide Step, Backed;
      StepKeepsBacked(st, ops[0]);
      RunKeepsBacked(Step(st, ops[0]).value, ops[1..]);
    }
  }

  lemma BackedRatio(before: CurveState, after: CurveState)
    requires before.totalAssets <= before.totalShares && Backed(after)
    ensures RatioKept(before, after)
  {
    MulLe(before.totalAssets, before.totalShares, after.totalShares);
    MulLe(after.totalShares, after.totalAssets, before.totalShares);
  }

  /** The vault may run empty, but what it restarts with is not less than the ratio it had. */
  lemma {:induction false} CheapSharesKeepRatio(start: CurveState, st: CurveState, ops: seq<Op>)
    requires start.totalAssets <= start.totalShares && RatioKept(start, st) && Run(st, ops).Ok?
    ensures RatioKept(start, Run(st, ops).value)
    decreases |ops|
  {
    if ops != [] {
      hide Step, RatioKept;
      var next := Step(st, ops[0]).value;
      if st.totalShares > 0 {
        StepKeepsRatio(st, ops[0]);
        RatioChains(start, st, next);
      } else {
        StepKeepsBacked(st, ops[0]);
        BackedRatio(start, next);
      }
      CheapSharesKeepRatio(start, next, ops[1..]);
    }
  }

  /** A vault whose shares are worth more forgets that: all of it is redeemed, and one asset buys one share. */
  lemma RatioForgottenWhenEmpty(x: CurveState) returns (ops: seq<Op>)
    requires 0 < x.totalShares < x.totalAssets
    ensures Run(x, ops) == Ok(CurveState(1, 1)) && !RatioKept(x, CurveState(1, 1))
  {
    hide FloorDiv, CeilDiv;
    WordIsWide();
    ops := [Redeem(x.totalShares), Deposit(1)];
    RedeemAll(x);
    assert Step(CurveState(0, 0), Deposit(1)) == Ok(CurveState(1, 1));
    RunOfTwo(x, Redeem(x.totalShares), CurveState(0, 0), Deposit(1), CurveState(1, 1));
  }

  lemma RunOfTwo(a: CurveState, x: Op, b: CurveState, y: Op, c: CurveState)
    requires Step(a, x) == Ok(b) && Step(b, y) == Ok(c)
    ensures Run(a, [x, y]) == Ok(c)
  {
    hide Step;
    assert [x, y][1..] == [y] && [y][1..] == [];
    assert Run(b, [y]) == Run(c, []);
  }

  lemma RedeemAll(x: CurveState)
    requires x.totalShares > 0
    ensures Step(x, Redeem(x.totalShares)) == Ok(CurveState(0, 0))
  {
    hide FloorDiv, CeilDiv;
    ExactDivision(x.totalAssets, x.totalShares);
    Swapped(x.totalShares, x.totalAssets);
    assert PreviewRedeem(x.totalShares, x) == Ok(x.totalAssets);
  }

  lemma Swapped(x: nat, y: nat)
    requires x > 0
    ensures FloorDiv(x * y, x) == FloorDiv(y * x, x)
  {
    assert x * y == y * x;
  }

  /** With shares in issue, no run at all lowers the ratio exactly when a share is worth at most one asset. */
  lemma RatioNeverFalls(x: CurveState)
    requires x.totalShares > 0
    ensures x.totalAssets <= x.totalShares <==>
            forall ops :: Run(x, ops).Ok? ==> RatioKept(x, Run(x, ops).value)
  {
    hide Run, RatioKept;
    if x.totalAssets <= x.totalShares {
      forall ops | Run(x, ops).Ok? ensures RatioKept(x, Run(x, ops).value) {
        SameRatio(x);
        CheapSharesKeepRatio(x, x, ops);
      }
    } else {
      var ops := RatioForgottenWhenEmpty(x);
      assert Run(x, ops).Ok?;
    }
  }

  lemma SameRatio(x: CurveState)
    ensures RatioKept(x, x)
  {
  }
}
