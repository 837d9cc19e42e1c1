/**
 Runs of a progressive vault: each step is a successful quote followed by the matching change
 of the vault's totals. The area under the curve is a potential that no step moves against the
 vault, and from that one fact follow whole-run solvency and the absence of profitable cycles.
 */
module VaultRun {
  import opened Wrappers
  import opened Rounding
  import opened CurveMath
  import opened QuadraticLaws
  import opened OffsetProgressive
  import opened ProgressiveQuotes

  function Step(c: Curve, st: CurveState, op: Op): Transition {
    match op
    case Deposit(assets) =>
      var shares :- PreviewDeposit(c, assets, st);
      PayIn(st, assets, shares)
    case Mint(shares) =>
      var assets :- PreviewMint(c, shares, st);
      PayIn(st, assets, shares)
    case Withdraw(assets) =>
      var shares :- PreviewWithdraw(c, assets, st);
      PayOut(st, assets, shares)
    case Redeem(shares) =>
      var assets :- PreviewRedeem(c, shares, st);
      PayOut(st, assets, shares)
  }

  function Run(c: Curve, st: CurveState, ops: seq<Op>): Transition
    decreases |ops|
  {
    if ops == [] then Ok(st)
    else
      var next :- Step(c, st, ops[0]);
      Run(c, next, ops[1..])
  }

  /** What the curve's area at a share total is worth, in units of 10^-18 assets. */
  function Worth(c: Curve, totalShares: nat): nat {
    Area(UNIT, totalShares + c.offset) * c.halfSlope
  }

  /** What the vault holds beyond that worth. */
  function Surplus(c: Curve, st: CurveState): int {
    st.totalAssets * UNIT - Worth(c, st.totalShares)
  }

  /** The vault could pay out every share at the curve's exact area. */
  predicate Solvent(c: Curve, st: CurveState) {
    Surplus(c, st) + Worth(c, 0) >= 0
  }

  lemma PayInKeeps(c: Curve, st: CurveState, assets: U256, shares: U256)
    requires PayIn(st, assets, shares).Ok?
    requires Worth(c, st.totalShares + shares) <= Worth(c, st.totalShares) + assets * UNIT
    ensures Surplus(c, PayIn(st, assets, shares).value) >= Surplus(c, st)
  {
    hide FloorDiv, CeilDiv, FloorSqrt, Built;
    MulAdd(st.totalAssets, assets, UNIT);
  }

  lemma PayOutKeeps(c: Curve, st: CurveState, assets: U256, shares: U256)
    requires PayOut(st, assets, shares).Ok?
    requires Worth(c, st.totalShares - shares) + assets * UNIT <= Worth(c, st.totalShares)
    ensures Surplus(c, PayOut(st, assets, shares).value) >= Surplus(c, st)
  {
    hide FloorDiv, CeilDiv, FloorSqrt, Built;
    MulAdd(st.totalAssets - assets, assets, UNIT);
  }

  lemma DepositKeeps(c: Curve, st: CurveState, a: U256)
    requires Built(c) && PreviewDeposit(c, a, st).Ok?
    ensures Worth(c, st.totalShares + PreviewDeposit(c, a, st).value) <= Worth(c, st.totalShares) + a * UNIT
  {
    hide FloorDiv, CeilDiv, FloorSqrt, Built;
    BuiltFacts(c);
    DepositValue(c, a, st);
    DepositMoves(UNIT, c.halfSlope, st.totalShares + c.offset, a);
  }

  lemma MintKeeps(c: Curve, st: CurveState, n: U256)
    requires Built(c) && PreviewMint(c, n, st).Ok?
    ensures Worth(c, st.totalShares + n) <= Worth(c, st.totalShares) + PreviewMint(c, n, st).value * UNIT
  {
    hide FloorDiv, CeilDiv, FloorSqrt, Built;
    BuiltFacts(c);
    MintValue(c, n, st);
    MintMoves(UNIT, c.halfSlope, st.totalShares + c.offset, st.totalShares + c.offset + n);
  }

  lemma WithdrawKeeps(c: Curve, st: CurveState, a: U256)
    requires Built(c) && PreviewWithdraw(c, a, st).Ok? && PreviewWithdraw(c, a, st).value <= st.totalShares
    ensures Worth(c, st.totalShares - PreviewWithdraw(c, a, st).value) + a * UNIT <= Worth(c, st.totalShares)
  {
    hide FloorDiv, CeilDiv, FloorSqrt, Built;
    WithdrawValue(c, a, st);
    WithdrawMoves(UNIT, c.halfSlope, st.totalShares + c.offset, a);
  }

  lemma RedeemKeeps(c: Curve, st: CurveState, n: U256)
    requires Built(c) && PreviewRedeem(c, n, st).Ok? && n <= st.totalShares
    ensures Worth(c, st.totalShares - n) + PreviewRedeem(c, n, st).value * UNIT <= Worth(c, st.totalShares)
  {
    hide FloorDiv, CeilDiv, FloorSqrt, Built;
    BuiltFacts(c);
    RedeemValue(c, n, st);
    RedeemMoves(UNIT, c.halfSlope, st.totalShares + c.offset, st.totalShares + c.offset - n);
  }

  lemma StepKeepsSurplus(c: Curve, st: CurveState, op: Op)
    requires Built(c) && Step(c, st, op).Ok?
    ensures Surplus(c, Step(c, st, op).value) >= Surplus(c, st)
    ensures InDomain(c, st) && InDomain(c, Step(c, st, op).value)
  {
    hide FloorDiv, CeilDiv, FloorSqrt, Built;
    match op
    case Deposit(a) =>
      var n := PreviewDeposit(c, a, st).value;
      DepositValue(c, a, st);
      DepositKeeps(c, st, a);
      PayInKeeps(c, st, a, n);
    case Mint(n) =>
      var a := PreviewMint(c, n, st).value;
      MintValue(c, n, st);
      MintKeeps(c, st, n);
      PayInKeeps(c, st, a, n);
    case Withdraw(a) =>
      var n := PreviewWithdraw(c, a, st).value;
      WithdrawValue(c, a, st);
      WithdrawKeeps(c, st, a);
      PayOutKeeps(c, st, a, n);
    case Redeem(n) =>
      var a := PreviewRedeem(c, n, st).value;
      RedeemValue(c, n, st);
      RedeemKeeps(c, st, n);
      PayOutKeeps(c, st, a, n);
  }

  /** Over every run of successful operations the surplus never falls. */
  lemma {:induction false} RunKeepsSurplus(c: Curve, st: CurveState, ops: seq<Op>)
    requires Built(c) && Run(c, st, ops).Ok?
    ensures Surplus(c, Run(c, st, ops).value) >= Surplus(c, st)
    ensures ops != [] ==> InDomain(c, Run(c, st, ops).value)
    decreases |ops|
  {
    hide FloorDiv, CeilDiv, FloorSqrt, Built;
    if ops != [] {
      StepKeepsSurplus(c, st, ops[0]);
      RunKeepsSurplus(c, Step(c, st, ops[0]).value, ops[1..]);
    }
  }

  /** No cycle makes a profit: a run that leaves at least as many shares leaves at least as many assets. */
  lemma NoProfitableCycle(c: Curve, st: CurveState, ops: seq<Op>)
    requires Built(c) && Run(c, st, ops).Ok?
    requires Run(c, st, ops).value.totalShares >= st.totalShares
    ensures Run(c, st, ops).value.totalAssets >= st.totalAssets
  {
    hide FloorDiv, CeilDiv, FloorSqrt, Built;
    hide Run;
    var last := Run(c, st, ops).value;
    RunKeepsSurplus(c, st, ops);
    WorthMono(c, st.totalShares, last.totalShares);
    hide Worth;
  }

  lemma WorthMono(c: Curve, low: nat, high: nat)
    requires low <= high
    ensures Worth(c, low) <= Worth(c, high)
  {
    hide FloorDiv, CeilDiv, FloorSqrt;
    AreaMono(UNIT, low + c.offset, high + c.offset);
    MulLe(Area(UNIT, low + c.offset), Area(UNIT, high + c.offset), c.halfSlope);
  }

  /** A solvent vault answers every redemption within its supply, and can pay the answer. */
  lemma SolventPays(c: Curve, st: CurveState, n: U256)
    requires Built(c) && InDomain(c, st) && Solvent(c, st) && n <= st.totalShares
    ensures PreviewRedeem(c, n, st).Ok? && PreviewRedeem(c, n, st).value <= st.totalAssets
    ensures Step(c, st, Redeem(n)).Ok?
  {
    hide FloorDiv, CeilDiv, FloorSqrt, Built;
    BuiltFacts(c);
    RedeemUnfolds(c, st, n);
    var s := st.totalShares + c.offset;
    var pay := RedeemPay(UNIT, c.halfSlope, s, s - n);
    RedeemMoves(UNIT, c.halfSlope, s, s - n);
    AreaMono(UNIT, c.offset, s - n);
    MulLe(Area(UNIT, c.offset), Area(UNIT, s - n), c.halfSlope);
    MulLeIff(pay, st.totalAssets, UNIT);
  }

  const EMPTY: CurveState := CurveState(0, 0)

  lemma EmptyIsSolvent(c: Curve)
    requires Built(c)
    ensures InDomain(c, EMPTY) && Solvent(c, EMPTY)
  {
    hide FloorDiv, CeilDiv, FloorSqrt, Built;
  }

  /**
   Whole-run solvency: whatever operations an empty vault went through, any number of its shares
   up to all of them can be redeemed next, and the vault holds the assets to pay for them.
   */
  lemma EveryReachableVaultPays(c: Curve, ops: seq<Op>, n: U256)
    requires Built(c) && Run(c, EMPTY, ops).Ok?
    requires n <= Run(c, EMPTY, ops).value.totalShares
    ensures Solvent(c, Run(c, EMPTY, ops).value)
    ensures Run(c, EMPTY, ops + [Redeem(n)]).Ok?
  {
    hide FloorDiv, CeilDiv, FloorSqrt, Built;
    EmptyIsSolvent(c);
    RunKeepsSurplus(c, EMPTY, ops);
    SolventPays(c, Run(c, EMPTY, ops).value, n);
    RunAppend(c, EMPTY, ops, Redeem(n));
  }

  lemma {:induction false} RunAppend(c: Curve, st: CurveState, ops: seq<Op>, op: Op)
    requires Run(c, st, ops).Ok?
    ensures Run(c, st, ops + [op]) == Step(c, Run(c, st, ops).value, op)
    decreases |ops|
  {
    hide FloorDiv, CeilDiv, FloorSqrt, Built;
    if ops == [] {
      assert [op][1..] == [];
    } else {
      assert (ops + [op])[1..] == ops[1..] + [op];
      RunAppend(c, Step(c, st, ops[0]).value, ops[1..], op);
    }
  }
}
