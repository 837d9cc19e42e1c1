/**
 Checked 256-bit arithmetic and the domain checks of `crates/curves/src/math.rs`.
 A `U256` is a natural number below 2^256; `BigUint` is an unbounded `nat`, which is where
 `mul_div` and `sqrt_ud60x18` compute before they narrow the result again.
 */
module CurveMath {
  import opened Bytes
  import opened Wrappers
  import opened Rounding

  /** The largest 32-byte word; `ByteCodec.WordRange` gives the number. */
  const MAX_U256: nat := Pow256(|BLANK_WORD|) - 1
  const UNIT: nat := 1_000_000_000_000_000_000

  type U256 = x: nat | x <= MAX_U256

  datatype CurveError =
    | InvalidSlope
    | AssetsExceedTotalAssets
    | SharesExceedTotalShares
    | AssetsOverflowMax
    | SharesOverflowMax
    | DomainExceeded
    | DivisionByZero
    | MathOverflow
    | MathUnderflow

  type Quote = Result<U256, CurveError>
  type Check = Result<(), CurveError>

  datatype CurveState = CurveState(totalAssets: U256, totalShares: U256)

  /** What narrowing a `BigUint` means; `ByteCodec.FromBigBytes` does it on bytes. */
  function FromBig(value: nat): Quote {
    if value > MAX_U256 then Err(MathOverflow) else Ok(value)
  }

  function Add(a: U256, b: U256): Quote {
    if a + b > MAX_U256 then Err(MathOverflow) else Ok(a + b)
  }

  function Sub(a: U256, b: U256): Quote {
    if a < b then Err(MathUnderflow) else Ok(a - b)
  }

  function MulDiv(x: nat, y: nat, denominator: nat): Quote {
    if denominator == 0 then Err(DivisionByZero) else FromBig(FloorDiv(x * y, denominator))
  }

  function MulDivUp(x: nat, y: nat, denominator: nat): Quote {
    if denominator == 0 then Err(DivisionByZero) else FromBig(CeilDiv(x * y, denominator))
  }

  function SqrtUd60x18(raw: nat): Quote {
    FromBig(FloorSqrt(raw * UNIT))
  }

  function Square(x: nat): Quote {
    MulDiv(x, x, UNIT)
  }

  function SquareUp(x: nat): Quote {
    MulDivUp(x, x, UNIT)
  }

  function MulUp(x: nat, y: nat): Quote {
    MulDivUp(x, y, UNIT)
  }

  function DivUp(x: nat, y: nat): Quote {
    MulDivUp(x, UNIT, y)
  }

  function FeeOnRaw(amount: nat, fee: nat, denominator: nat): Quote {
    MulDivUp(amount, fee, denominator)
  }

  function CheckCurveDomains(st: CurveState, maxAssets: U256, maxShares: U256): Check {
    if st.totalAssets > maxAssets || st.totalShares > maxShares then Err(DomainExceeded) else Ok(())
  }

  function CheckWithdraw(assets: U256, totalAssets: U256): Check {
    if assets > totalAssets then Err(AssetsExceedTotalAssets) else Ok(())
  }

  function CheckRedeem(shares: U256, totalShares: U256): Check {
    if shares > totalShares then Err(SharesExceedTotalShares) else Ok(())
  }

  /** `check_deposit_bounds` and `check_mint_out`, which are the same test. */
  function CheckAssetsFit(assets: U256, totalAssets: U256, maxAssets: U256): Check {
    if maxAssets < totalAssets then Err(DomainExceeded)
    else if assets > maxAssets - totalAssets then Err(AssetsOverflowMax)
    else Ok(())
  }

  /** `check_deposit_out` and `check_mint_bounds`, which are the same test. */
  function CheckSharesFit(shares: U256, totalShares: U256, maxShares: U256): Check {
    if maxShares < totalShares then Err(DomainExceeded)
    else if shares > maxShares - totalShares then Err(SharesOverflowMax)
    else Ok(())
  }

  // ---------------------------------------------------------------------------
  // Operations on a vault
  // ---------------------------------------------------------------------------

  datatype Op =
    | Deposit(assets: U256)
    | Mint(shares: U256)
    | Withdraw(assets: U256)
    | Redeem(shares: U256)

  type Transition = Result<CurveState, CurveError>

  /** Pay `assets` in and issue `shares`. */
  function PayIn(st: CurveState, assets: U256, shares: U256): Transition {
    var totalAssets :- Add(st.totalAssets, assets);
    var totalShares :- Add(st.totalShares, shares);
    Ok(CurveState(totalAssets, totalShares))
  }

  /** Pay `assets` out and burn `shares`; a vault that lacks either cannot do it. */
  function PayOut(st: CurveState, assets: U256, shares: U256): Transition {
    var totalAssets :- Sub(st.totalAssets, assets);
    var totalShares :- Sub(st.totalShares, shares);
    Ok(CurveState(totalAssets, totalShares))
  }
}
