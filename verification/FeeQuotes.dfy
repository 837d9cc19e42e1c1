/** The fee quotes of `crates/curves/src/fees.rs` on top of either curve. */
module FeeQuotes {
  import opened Wrappers
  import opened Rounding
  import opened CurveMath
  import L = LinearCurve
  import P = OffsetProgressive
  import Q = ProgressiveQuotes

  /** The two implementations of the `Curve` trait. */
  datatype Pricing = Linear | Progressive(curve: P.Curve)

  predicate Built(p: Pricing) {
    p.Progressive? ==> P.Built(p.curve)
  }

  function PreviewDeposit(p: Pricing, assets: U256, st: CurveState): Quote {
    match p
    case Linear => L.PreviewDeposit(assets, st)
    case Progressive(c) => P.PreviewDeposit(c, assets, st)
  }

  function PreviewRedeem(p: Pricing, shares: U256, st: CurveState): Quote {
    match p
    case Linear => L.PreviewRedeem(shares, st)
    case Progressive(c) => P.PreviewRedeem(c, shares, st)
  }

  datatype FeeSchedule = FeeSchedule(denominator: U256, protocolFee: U256, entryFee: U256, exitFee: U256)
  datatype AtomFees = AtomFees(atomWalletDepositFee: U256)
  datatype TripleFees = TripleFees(atomDepositFraction: U256)

  datatype FeeBreakdown = FeeBreakdown(
    protocolFee: U256, entryFee: U256, exitFee: U256, atomWalletFee: U256, atomDepositFraction: U256)
  {
    function Total(): Quote {
      var a :- Add(protocolFee, entryFee);
      var b :- Add(a, exitFee);
      var c :- Add(b, atomWalletFee);
      Add(c, atomDepositFraction)
    }
  }

  datatype FeeQuote = FeeQuote(shares: U256, assetsBeforeFees: U256, assetsAfterFees: U256, fees: FeeBreakdown)
  {
    /** What is left after the fees and the fees add up to what there was before. */
    predicate Conserves() {
      && fees.Total().Ok?
      && assetsAfterFees + fees.Total().value == assetsBeforeFees
    }
  }

  function Charge(charged: bool, assets: U256, fee: U256, denominator: U256): Quote {
    if charged then FeeOnRaw(assets, fee, denominator) else Ok(0)
  }

  function PreviewDepositWithFees(
    p: Pricing, assets: U256, st: CurveState, fees: FeeSchedule, chargeEntryFee: bool
  ): (r: Result<FeeQuote, CurveError>)
    ensures r.Ok? ==> r.value.Conserves() && r.value.assetsBeforeFees == assets
    ensures r.Ok? ==> PreviewDeposit(p, r.value.assetsAfterFees, st) == Ok(r.value.shares)
  {
    var protocolFee :- FeeOnRaw(assets, fees.protocolFee, fees.denominator);
    var entryFee :- Charge(chargeEntryFee, assets, fees.entryFee, fees.denominator);
    var total :- Add(protocolFee, entryFee);
    var assetsAfterFees :- Sub(assets, total);
    var shares :- PreviewDeposit(p, assetsAfterFees, st);
    Ok(FeeQuote(shares, assets, assetsAfterFees, FeeBreakdown(protocolFee, entryFee, 0, 0, 0)))
  }

  function PreviewRedeemWithFees(
    p: Pricing, shares: U256, st: CurveState, fees: FeeSchedule, chargeExitFee: bool
  ): (r: Result<FeeQuote, CurveError>)
    ensures r.Ok? ==> r.value.Conserves() && r.value.shares == shares
    ensures r.Ok? ==> PreviewRedeem(p, shares, st) == Ok(r.value.assetsBeforeFees)
  {
    var assetsBeforeFees :- PreviewRedeem(p, shares, st);
    var protocolFee :- FeeOnRaw(assetsBeforeFees, fees.protocolFee, fees.denominator);
    var exitFee :- Charge(chargeExitFee, assetsBeforeFees, fees.exitFee, fees.denominator);
    var total :- Add(protocolFee, exitFee);
    var assetsAfterFees :- Sub(assetsBeforeFees, total);
    Ok(FeeQuote(shares, assetsBeforeFees, assetsAfterFees, FeeBreakdown(protocolFee, 0, exitFee, 0, 0)))
  }

  function PreviewAtomDeposit(
    p: Pricing, assets: U256, st: CurveState, fees: FeeSchedule, atomFees: AtomFees, chargeEntryFee: bool
  ): (r: Result<FeeQuote, CurveError>)
    ensures r.Ok? ==> r.value.Conserves() && r.value.assetsBeforeFees == assets
    ensures r.Ok? ==> PreviewDeposit(p, r.value.assetsAfterFees, st) == Ok(r.value.shares)
  {
    var protocolFee :- FeeOnRaw(assets, fees.protocolFee, fees.denominator);
    var entryFee :- Charge(chargeEntryFee, assets, fees.entryFee, fees.denominator);
    var atomWalletFee :- FeeOnRaw(assets, atomFees.atomWalletDepositFee, fees.denominator);
    var subtotal :- Add(protocolFee, entryFee);
    var total :- Add(subtotal, atomWalletFee);
    var assetsAfterFees :- Sub(assets, total);
    var shares :- PreviewDeposit(p, assetsAfterFees, st);
    Ok(FeeQuote(shares, assets, assetsAfterFees, FeeBreakdown(protocolFee, entryFee, 0, atomWalletFee, 0)))
  }

  function PreviewTripleDeposit(
    p: Pricing, assets: U256, st: CurveState, fees: FeeSchedule, tripleFees: TripleFees,
    chargeEntryFee: bool, chargeAtomDepositFraction: bool
  ): (r: Result<FeeQuote, CurveError>)
    ensures r.Ok? ==> r.value.Conserves() && r.value.assetsBeforeFees == assets
    ensures r.Ok? ==> PreviewDeposit(p, r.value.assetsAfterFees, st) == Ok(r.value.shares)
  {
    var protocolFee :- FeeOnRaw(assets, fees.protocolFee, fees.denominator);
    var entryFee :- Charge(chargeEntryFee, assets, fees.entryFee, fees.denominator);
    var fraction :- Charge(chargeAtomDepositFraction, assets, tripleFees.atomDepositFraction, fees.denominator);
    var subtotal :- Add(protocolFee, entryFee);
    var total :- Add(subtotal, fraction);
    var assetsAfterFees :- Sub(assets, total);
    var shares :- PreviewDeposit(p, assetsAfterFees, st);
    Ok(FeeQuote(shares, assets, assetsAfterFees, FeeBreakdown(protocolFee, entryFee, 0, 0, fraction)))
  }

  // ---------------------------------------------------------------------------
  // What every deposit quote has in common
  // ---------------------------------------------------------------------------

  /** Which of the three deposit quotes is asked for, with what it charges. */
  datatype DepositKind =
    | Plain(chargeEntryFee: bool)
    | Atom(atomFees: AtomFees, chargeEntryFee: bool)
    | Triple(tripleFees: TripleFees, chargeEntryFee: bool, chargeAtomDepositFraction: bool)

  function QuoteDeposit(
    p: Pricing, kind: DepositKind, assets: U256, st: CurveState, fees: FeeSchedule
  ): Result<FeeQuote, CurveError> {
    match kind
    case Plain(entry) => PreviewDepositWithFees(p, assets, st, fees, entry)
    case Atom(atom, entry) => PreviewAtomDeposit(p, assets, st, fees, atom, entry)
    case Triple(triple, entry, fraction) => PreviewTripleDeposit(p, assets, st, fees, triple, entry, fraction)
  }

  /** The rates a quote charges; an uncharged fee is a rate of zero. */
  function Rates(kind: DepositKind, fees: FeeSchedule): (nat, nat, nat) {
    var entry := if kind.chargeEntryFee then fees.entryFee else 0;
    match kind
    case Plain(_) => (fees.protocolFee, entry, 0)
    case Atom(atom, _) => (fees.protocolFee, entry, atom.atomWalletDepositFee)
    case Triple(triple, _, fraction) =>
      (fees.protocolFee, entry, if fraction then triple.atomDepositFraction else 0)
  }

  /** One fee on `x`, rounded up. */
  function FeeOn(x: nat, rate: nat, d: nat): nat
    requires d > 0
  {
    CeilDiv(x * rate, d)
  }

  /** The fees on `x`, each rounded up on its own. */
  function FeesOn(x: nat, rates: (nat, nat, nat), d: nat): nat
    requires d > 0
  {
    FeeOn(x, rates.0, d) + FeeOn(x, rates.1, d) + FeeOn(x, rates.2, d)
  }

  lemma NoRateNoFee(x: nat, d: nat)
    requires d > 0
    ensures CeilDiv(x * 0, d) == 0
  {
    assert x * 0 == 0;
  }

  lemma DepositNet(p: Pricing, kind: DepositKind, assets: U256, st: CurveState, fees: FeeSchedule)
    requires QuoteDeposit(p, kind, assets, st, fees).Ok?
    ensures fees.denominator > 0
    ensures var q := QuoteDeposit(p, kind, assets, st, fees).value;
            && q.assetsAfterFees + FeesOn(assets, Rates(kind, fees), fees.denominator) == assets
            && PreviewDeposit(p, q.assetsAfterFees, st) == Ok(q.shares)
  {
    hide FloorDiv, CeilDiv, PreviewDeposit;
    if fees.denominator > 0 {
      NoRateNoFee(assets, fees.denominator);
    }
  }

  /** Rounding each fee up makes the fees on a split at least the fees on the whole. */
  lemma FeesSplit(x: nat, y: nat, rates: (nat, nat, nat), d: nat)
    requires d > 0
    ensures FeesOn(x + y, rates, d) <= FeesOn(x, rates, d) + FeesOn(y, rates, d)
  {
    hide FloorDiv, CeilDiv;
    CeilSumSplit(x, y, rates.0, d);
    CeilSumSplit(x, y, rates.1, d);
    CeilSumSplit(x, y, rates.2, d);
  }

  lemma CeilSumSplit(x: nat, y: nat, rate: nat, d: nat)
    requires d > 0
    ensures CeilDiv((x + y) * rate, d) <= CeilDiv(x * rate, d) + CeilDiv(y * rate, d)
  {
    hide FloorDiv, CeilDiv;
    MulAdd(x, y, rate);
    CeilSplit(x * rate, y * rate, d);
  }

  lemma DepositBetween(p: Pricing, st: CurveState, low: U256, a: U256, high: U256)
    requires Built(p) && low <= a <= high && PreviewDeposit(p, low, st).Ok? && PreviewDeposit(p, high, st).Ok?
    ensures PreviewDeposit(p, a, st).Ok? && PreviewDeposit(p, a, st).value <= PreviewDeposit(p, high, st).value
  {
    hide FloorDiv, CeilDiv;
    match p
    case Linear => L.DepositMono(st, a, high);
    case Progressive(c) => Q.DepositBetween(c, st, low, a, high);
  }

  lemma CurveDepositSplit(p: Pricing, st: CurveState, a: U256, b: U256)
    requires Built(p) && PreviewDeposit(p, a, st).Ok? && PayIn(st, a, PreviewDeposit(p, a, st).value).Ok?
    requires PreviewDeposit(p, b, PayIn(st, a, PreviewDeposit(p, a, st).value).value).Ok?
    requires a + b <= MAX_U256 && PreviewDeposit(p, a + b, st).Ok?
    ensures var first := PreviewDeposit(p, a, st).value;
            var second := PreviewDeposit(p, b, PayIn(st, a, first).value).value;
            first + second <= PreviewDeposit(p, a + b, st).value
  {
    hide FloorDiv, CeilDiv;
    match p
    case Linear => L.DepositSplit(st, a, b);
    case Progressive(c) => Q.DepositSplit(c, st, a, b);
  }

  /**
   Splitting a deposit in two never issues more shares, on either curve, for every kind of
   deposit and every fee schedule.
   */
  lemma DepositSplit(p: Pricing, kind: DepositKind, st: CurveState, fees: FeeSchedule, a: U256, b: U256,
                     next: CurveState)
    requires Built(p) && a + b <= MAX_U256
    requires QuoteDeposit(p, kind, a, st, fees).Ok? && QuoteDeposit(p, kind, a + b, st, fees).Ok?
    requires var q := QuoteDeposit(p, kind, a, st, fees).value; PayIn(st, q.assetsAfterFees, q.shares) == Ok(next)
    requires QuoteDeposit(p, kind, b, next, fees).Ok?
    ensures QuoteDeposit(p, kind, a, st, fees).value.shares + QuoteDeposit(p, kind, b, next, fees).value.shares
         <= QuoteDeposit(p, kind, a + b, st, fees).value.shares
  {
    hide FloorDiv, CeilDiv, QuoteDeposit, Rates, FeesOn, PreviewDeposit;
    DepositNet(p, kind, a, st, fees);
    DepositNet(p, kind, b, next, fees);
    DepositNet(p, kind, a + b, st, fees);
    FeesSplit(a, b, Rates(kind, fees), fees.denominator);
    var net1 := QuoteDeposit(p, kind, a, st, fees).value.assetsAfterFees;
    var net2 := QuoteDeposit(p, kind, b, next, fees).value.assetsAfterFees;
    var net := QuoteDeposit(p, kind, a + b, st, fees).value.assetsAfterFees;
    DepositBetween(p, st, net1, net1 + net2, net);
    CurveDepositSplit(p, st, net1, net2);
  }

  /** The sum of the five fees, or an overflow. */
  lemma TotalOutcome(parts: FeeBreakdown)
    ensures var sum := parts.protocolFee + parts.entryFee + parts.exitFee + parts.atomWalletFee
                       + parts.atomDepositFraction;
            parts.Total() == if sum > MAX_U256 then Err(MathOverflow) else Ok(sum)
  {
  }

  /** Every outcome of a deposit quote: it answers exactly when there is a denominator, the fees fit the amount
      and the curve answers for the rest. */
  lemma DepositOutcome(p: Pricing, kind: DepositKind, assets: U256, st: CurveState, fees: FeeSchedule)
    ensures fees.denominator == 0 ==> QuoteDeposit(p, kind, assets, st, fees) == Err(DivisionByZero)
    ensures fees.denominator > 0 ==>
              var total := FeesOn(assets, Rates(kind, fees), fees.denominator);
              var quote := QuoteDeposit(p, kind, assets, st, fees);
              && (total > MAX_U256 ==> quote == Err(MathOverflow))
              && (assets < total <= MAX_U256 ==> quote == Err(MathUnderflow))
              && (total <= assets ==>
                    var curve := PreviewDeposit(p, assets - total, st);
                    && (curve.Err? ==> quote == Err(curve.error))
                    && (curve.Ok? ==> quote.Ok? && quote.value.shares == curve.value
                                      && quote.value.assetsAfterFees == assets - total))
  {
    hide FloorDiv, CeilDiv, PreviewDeposit;
    if fees.denominator > 0 {
      NoRateNoFee(assets, fees.denominator);
    }
  }

  /** Likewise of a redemption quote, which asks the curve first. */
  lemma RedeemOutcome(p: Pricing, shares: U256, st: CurveState, fees: FeeSchedule, chargeExitFee: bool)
    ensures var quote, curve := PreviewRedeemWithFees(p, shares, st, fees, chargeExitFee), PreviewRedeem(p, shares, st);
            && (curve.Err? ==> quote == Err(curve.error))
            && (curve.Ok? && fees.denominator == 0 ==> quote == Err(DivisionByZero))
            && (curve.Ok? && fees.denominator > 0 ==>
                  var total := FeesOn(curve.value, ExitRates(fees, chargeExitFee), fees.denominator);
                  && (total > MAX_U256 ==> quote == Err(MathOverflow))
                  && (curve.value < total <= MAX_U256 ==> quote == Err(MathUnderflow))
                  && (total <= curve.value ==>
                        quote.Ok? && quote.value.assetsBeforeFees == curve.value
                        && quote.value.assetsAfterFees == curve.value - total))
  {
    hide FloorDiv, CeilDiv, PreviewRedeem;
    if fees.denominator > 0 && PreviewRedeem(p, shares, st).Ok? {
      NoRateNoFee(PreviewRedeem(p, shares, st).value, fees.denominator);
    }
  }

  // ---------------------------------------------------------------------------
  // Which fee is which
  // ---------------------------------------------------------------------------

  /** The smallest whole fee that is not below `rate / d` of the amount. */
  predicate LeastFee(fee: nat, amount: nat, rate: nat, d: nat) {
    fee * d >= amount * rate && (fee > 0 ==> (fee - 1) * d < amount * rate)
  }

  lemma CeilIsLeastFee(amount: nat, rate: nat, d: nat)
    requires d > 0
    ensures LeastFee(CeilDiv(amount * rate, d), amount, rate, d)
  {
    hide CeilDiv;
    var fee := CeilDiv(amount * rate, d);
    CeilBounds(amount * rate, d);
    if fee > 0 {
      CeilIff(amount * rate, d, fee - 1);
    }
  }

  /** Every component of a deposit quote is the least fee at its own rate, and none is charged unasked. */
  lemma DepositFeesAreLeast(p: Pricing, kind: DepositKind, assets: U256, st: CurveState, fees: FeeSchedule)
    requires QuoteDeposit(p, kind, assets, st, fees).Ok?
    ensures var parts, d := QuoteDeposit(p, kind, assets, st, fees).value.fees, fees.denominator;
            && d > 0
            && LeastFee(parts.protocolFee, assets, fees.protocolFee, d)
            && LeastFee(parts.entryFee, assets, if kind.chargeEntryFee then fees.entryFee else 0, d)
            && parts.exitFee == 0
            && LeastFee(parts.atomWalletFee, assets, if kind.Atom? then kind.atomFees.atomWalletDepositFee else 0, d)
            && LeastFee(parts.atomDepositFraction, assets,
                        if kind.Triple? && kind.chargeAtomDepositFraction then kind.tripleFees.atomDepositFraction
                        else 0, d)
  {
    hide CeilDiv, PreviewDeposit, LeastFee;
    var d := fees.denominator;
    assert d > 0;
    CeilIsLeastFee(assets, 0, d);
    NoRateNoFee(assets, d);
    CeilIsLeastFee(assets, fees.protocolFee, d);
    CeilIsLeastFee(assets, fees.entryFee, d);
    match kind
    case Plain(_) =>
    case Atom(atom, _) => CeilIsLeastFee(assets, atom.atomWalletDepositFee, d);
    case Triple(triple, _, _) => CeilIsLeastFee(assets, triple.atomDepositFraction, d);
  }

  /** And so is every component of a redemption quote, on what the curve pays. */
  lemma RedeemFeesAreLeast(p: Pricing, shares: U256, st: CurveState, fees: FeeSchedule, chargeExitFee: bool)
    requires PreviewRedeemWithFees(p, shares, st, fees, chargeExitFee).Ok?
    ensures var q, d := PreviewRedeemWithFees(p, shares, st, fees, chargeExitFee).value, fees.denominator;
            && d > 0
            && LeastFee(q.fees.protocolFee, q.assetsBeforeFees, fees.protocolFee, d)
            && LeastFee(q.fees.exitFee, q.assetsBeforeFees, if chargeExitFee then fees.exitFee else 0, d)
            && q.fees.entryFee == q.fees.atomWalletFee == q.fees.atomDepositFraction == 0
  {
    hide CeilDiv, PreviewRedeem, LeastFee;
    var d := fees.denominator;
    assert d > 0;
    var before := PreviewRedeemWithFees(p, shares, st, fees, chargeExitFee).value.assetsBeforeFees;
    CeilIsLeastFee(before, 0, d);
    NoRateNoFee(before, d);
    CeilIsLeastFee(before, fees.protocolFee, d);
    CeilIsLeastFee(before, fees.exitFee, d);
  }

  // ---------------------------------------------------------------------------
  // Redemptions
  // ---------------------------------------------------------------------------

  function ExitRates(fees: FeeSchedule, chargeExitFee: bool): (nat, nat, nat) {
    (fees.protocolFee, if chargeExitFee then fees.exitFee else 0, 0)
  }

  lemma RedeemNet(p: Pricing, shares: U256, st: CurveState, fees: FeeSchedule, chargeExitFee: bool)
    requires PreviewRedeemWithFees(p, shares, st, fees, chargeExitFee).Ok?
    ensures fees.denominator > 0
    ensures var q := PreviewRedeemWithFees(p, shares, st, fees, chargeExitFee).value;
            var rates := ExitRates(fees, chargeExitFee);
            && q.assetsAfterFees + FeesOn(q.assetsBeforeFees, rates, fees.denominator) == q.assetsBeforeFees
            && q.fees.protocolFee == FeeOn(q.assetsBeforeFees, rates.0, fees.denominator)
            && q.fees.exitFee == FeeOn(q.assetsBeforeFees, rates.1, fees.denominator)
  {
    hide FloorDiv, CeilDiv;
    if fees.denominator > 0 {
      NoRateNoFee(PreviewRedeemWithFees(p, shares, st, fees, chargeExitFee).value.assetsBeforeFees, fees.denominator);
    }
  }

  lemma CurveRedeemSplit(p: Pricing, st: CurveState, n: U256, m: U256)
    requires Built(p) && n + m <= MAX_U256 && PreviewRedeem(p, n, st).Ok?
    requires PayOut(st, PreviewRedeem(p, n, st).value, n).Ok?
    requires PreviewRedeem(p, m, PayOut(st, PreviewRedeem(p, n, st).value, n).value).Ok?
    requires PreviewRedeem(p, n + m, st).Ok?
    ensures var first := PreviewRedeem(p, n, st).value;
            var second := PreviewRedeem(p, m, PayOut(st, first, n).value).value;
            first + second <= PreviewRedeem(p, n + m, st).value <= first + second + 1
  {
    hide FloorDiv, CeilDiv;
    match p
    case Linear => L.RedeemSplit(st, n, m);
    case Progressive(c) => Q.RedeemSplit(c, st, n, m);
  }

  /** A rate that leaves anything of a positive amount is at most the denominator. */
  lemma RateWithinDenominator(x: nat, rate: nat, d: nat)
    requires d > 0 && x > 0 && CeilDiv(x * rate, d) <= x
    ensures rate <= d
  {
    hide FloorDiv, CeilDiv;
    CeilIff(x * rate, d, x);
    MulLeIff(rate, d, x);
  }

  /** One more unit raises such a fee by at most one. */
  lemma FeeStep(x: nat, rate: nat, d: nat)
    requires d > 0 && rate <= d
    ensures CeilDiv((x + 1) * rate, d) <= CeilDiv(x * rate, d) + 1
  {
    hide FloorDiv, CeilDiv;
    CeilBounds(x * rate, d);
    MulAdd(x, 1, rate);
    MulAdd(CeilDiv(x * rate, d), 1, d);
    CeilIff((x + 1) * rate, d, CeilDiv(x * rate, d) + 1);
  }

  /**
   Splitting a redemption in two pays out at most one unit more after fees, and it does so exactly
   when the split costs one unit before fees and both fees are one unit lower for it.
   `CurveWitnesses.SplittingARedemptionCanPay` shows that this occurs.
   */
  lemma RedeemSplit(p: Pricing, st: CurveState, fees: FeeSchedule, exit: bool, n: U256, m: U256, next: CurveState)
    requires Built(p) && n + m <= MAX_U256
    requires PreviewRedeemWithFees(p, n, st, fees, exit).Ok? && PreviewRedeemWithFees(p, n + m, st, fees, exit).Ok?
    requires PayOut(st, PreviewRedeemWithFees(p, n, st, fees, exit).value.assetsBeforeFees, n) == Ok(next)
    requires PreviewRedeemWithFees(p, m, next, fees, exit).Ok?
    ensures var q1 := PreviewRedeemWithFees(p, n, st, fees, exit).value;
            var q2 := PreviewRedeemWithFees(p, m, next, fees, exit).value;
            var q := PreviewRedeemWithFees(p, n + m, st, fees, exit).value;
            && q1.assetsAfterFees + q2.assetsAfterFees <= q.assetsAfterFees + 1
            && (q1.assetsAfterFees + q2.assetsAfterFees > q.assetsAfterFees <==>
                && q.assetsBeforeFees == q1.assetsBeforeFees + q2.assetsBeforeFees + 1
                && q.fees.protocolFee == q1.fees.protocolFee + q2.fees.protocolFee + 1
                && q.fees.exitFee == q1.fees.exitFee + q2.fees.exitFee + 1)
  {
    hide FloorDiv, CeilDiv;
    RedeemNet(p, n, st, fees, exit);
    RedeemNet(p, m, next, fees, exit);
    RedeemNet(p, n + m, st, fees, exit);
    CurveRedeemSplit(p, st, n, m);
    var x := PreviewRedeemWithFees(p, n, st, fees, exit).value.assetsBeforeFees;
    var y := PreviewRedeemWithFees(p, m, next, fees, exit).value.assetsBeforeFees;
    var whole := PreviewRedeemWithFees(p, n + m, st, fees, exit).value.assetsBeforeFees;
    NetSplit(x, y, whole, ExitRates(fees, exit), fees.denominator);
  }

  lemma NetSplit(x: nat, y: nat, whole: nat, rates: (nat, nat, nat), d: nat)
    requires d > 0 && x + y <= whole <= x + y + 1 && rates.2 == 0
    requires FeesOn(whole, rates, d) <= whole
    ensures var split, net := x + y - FeesOn(x, rates, d) - FeesOn(y, rates, d), whole - FeesOn(whole, rates, d);
            && split <= net + 1
            && (split > net <==>
                && whole == x + y + 1
                && FeeOn(whole, rates.0, d) == FeeOn(x, rates.0, d) + FeeOn(y, rates.0, d) + 1
                && FeeOn(whole, rates.1, d) == FeeOn(x, rates.1, d) + FeeOn(y, rates.1, d) + 1)
  {
    hide FloorDiv, CeilDiv;
    NoRateNoFee(x, d);
    NoRateNoFee(y, d);
    NoRateNoFee(whole, d);
    CeilSumSplit(x, y, rates.0, d);
    CeilSumSplit(x, y, rates.1, d);
    if whole == x + y + 1 {
      RateWithinDenominator(whole, rates.0, d);
      RateWithinDenominator(whole, rates.1, d);
      FeeStep(x + y, rates.0, d);
      FeeStep(x + y, rates.1, d);
    }
  }
}
