/**
 The `position` table (`crates/projections/src/repo/position_repo.rs`): shares, cost and profit of one
 account in one vault. NUMERIC division is exact here; the `version` column is left out.
 */
module Position {
  import opened Wrappers

  datatype PositionKey = PositionKey(account: string, termId: string, curveId: string)

  datatype Row = Row(
    shares: int, totalDeposits: nat, totalDepositsValue: nat, totalSharesAcquired: nat,
    costBasis: real, realizedPnl: real, closedAt: Option<int>)

  datatype Change = Deposit(shares: nat, assets: nat) | Redeem(shares: nat, assets: nat, time: int)

  /** CASE WHEN acquired > 0 THEN value / acquired ELSE 0 END. */
  function Basis(value: nat, acquired: nat): real {
    if acquired > 0 then value as real / acquired as real else 0.0
  }

  /** What shares cost at a cost basis. */
  function Cost(shares: nat, basis: real): real {
    shares as real * basis
  }

  lemma CostAdds(x: nat, y: nat, basis: real)
    ensures Cost(x + y, basis) == Cost(x, basis) + Cost(y, basis)
  {
    assert (x + y) as real == x as real + y as real;
    Distributes(x as real, y as real, basis);
  }

  lemma Distributes(x: real, y: real, z: real)
    ensures (x + y) * z == x * z + y * z
  {
  }

  function OnDeposit(row: Option<Row>, shares: nat, assets: nat): Row {
    match row
    case None => Row(shares, assets, assets, shares, Basis(assets, shares), 0.0, None)
    case Some(r) =>
      r.(shares := r.shares + shares, totalDeposits := r.totalDeposits + assets,
         totalDepositsValue := r.totalDepositsValue + assets,
         totalSharesAcquired := r.totalSharesAcquired + shares,
         costBasis := Basis(r.totalDepositsValue + assets, r.totalSharesAcquired + shares),
         closedAt := None)
  }

  /** A redemption that comes before its deposit leaves a stub with negative shares. */
  function OnRedeem(row: Option<Row>, shares: nat, assets: nat, time: int): Row {
    match row
    case None => Row(-(shares as int), 0, 0, 0, 0.0, assets as real, None)
    case Some(r) =>
      r.(shares := r.shares - shares,
         realizedPnl := r.realizedPnl + (assets as real - Cost(shares, r.costBasis)),
         closedAt := if r.shares - shares <= 0 then Some(time) else r.closedAt)
  }

  function Apply(row: Option<Row>, change: Change): Row {
    match change
    case Deposit(shares, assets) => OnDeposit(row, shares, assets)
    case Redeem(shares, assets, time) => OnRedeem(row, shares, assets, time)
  }

  function ApplyAll(row: Option<Row>, changes: seq<Change>): Option<Row>
    decreases |changes|
  {
    if changes == [] then row else ApplyAll(Some(Apply(row, changes[0])), changes[1..])
  }

  class PositionRepo {
    var rows: map<PositionKey, Row>

    constructor ()
      ensures rows == map[]
    {
      rows := map[];
    }

    function Find(key: PositionKey): Option<Row>
      reads this
    {
      if key in rows then Some(rows[key]) else None
    }

    method UpsertPositionOnDeposit(key: PositionKey, shares: nat, assets: nat)
      modifies this
      ensures rows == old(rows)[key := OnDeposit(old(Find(key)), shares, assets)]
    {
      if key in rows {
        var r := rows[key];
        var value, acquired := r.totalDepositsValue + assets, r.totalSharesAcquired + shares;
        rows := rows[key := r.(
          shares := r.shares + shares, totalDeposits := r.totalDeposits + assets,
          totalDepositsValue := value, totalSharesAcquired := acquired,
          costBasis := Basis(value, acquired), closedAt := None)];
      } else {
        rows := rows[key := Row(shares, assets, assets, shares, Basis(assets, shares), 0.0, None)];
      }
    }

    method UpsertPositionOnRedeem(key: PositionKey, shares: nat, assets: nat, time: int)
      modifies this
      ensures rows == old(rows)[key := OnRedeem(old(Find(key)), shares, assets, time)]
    {
      if key in rows {
        var r := rows[key];
        rows := rows[key := r.(
          shares := r.shares - shares,
          realizedPnl := r.realizedPnl + (assets as real - Cost(shares, r.costBasis)),
          closedAt := if r.shares - shares <= 0 then Some(time) else r.closedAt)];
      } else {
        rows := rows[key := Row(-(shares as int), 0, 0, 0, 0.0, assets as real, None)];
      }
    }
  }

  // ---- Sums over the changes

  datatype Sums = Sums(sharesIn: nat, assetsIn: nat, sharesOut: nat, assetsOut: nat)

  function Plus(x: Sums, y: Sums): Sums {
    Sums(x.sharesIn + y.sharesIn, x.assetsIn + y.assetsIn, x.sharesOut + y.sharesOut, x.assetsOut + y.assetsOut)
  }

  function SumOf(change: Change): Sums {
    match change
    case Deposit(shares, assets) => Sums(shares, assets, 0, 0)
    case Redeem(shares, assets, _) => Sums(0, 0, shares, assets)
  }

  function Total(changes: seq<Change>): Sums {
    if changes == [] then Sums(0, 0, 0, 0) else Plus(SumOf(changes[0]), Total(changes[1..]))
  }

  lemma {:induction false} TotalAppend(front: seq<Change>, back: seq<Change>)
    ensures Total(front + back) == Plus(Total(front), Total(back))
    decreases |front|
  {
    if front == [] {
      assert front + back == back;
    } else {
      assert (front + back)[1..] == front[1..] + back;
      TotalAppend(front[1..], back);
    }
  }

  lemma WithoutOne(x: seq<Change>, front: seq<Change>, change: Change, back: seq<Change>)
    requires x != [] && x[0] == change && multiset(x) == multiset(front + ([change] + back))
    ensures multiset(x[1..]) == multiset(front + back)
  {
    assert x == [change] + x[1..];
    assert multiset(x) == multiset{change} + multiset(x[1..]);
    assert multiset(front + ([change] + back)) == multiset(front) + multiset{change} + multiset(back);
    assert multiset(x[1..]) == multiset(x) - multiset{change};
    assert multiset(front + back) == multiset(front) + multiset(back);
  }

  lemma TotalOfSplit(front: seq<Change>, change: Change, back: seq<Change>)
    ensures Total(front + ([change] + back)) == Plus(SumOf(change), Total(front + back))
  {
    TotalAppend(front, back);
    TotalAppend(front, [change] + back);
    assert ([change] + back)[1..] == back;
  }

  lemma {:induction false} TotalOfPermutation(x: seq<Change>, y: seq<Change>)
    requires multiset(x) == multiset(y)
    ensures Total(x) == Total(y)
    decreases |x|
  {
    if x == [] {
      assert |multiset(y)| == 0;
    } else {
      hide SumOf, Plus;
      assert x[0] in multiset(y);
      var i :| 0 <= i < |y| && y[i] == x[0];
      var front, back := y[..i], y[i + 1..];
      assert y == front + ([x[0]] + back);
      WithoutOne(x, front, x[0], back);
      TotalOfPermutation(x[1..], front + back);
      TotalOfSplit(front, x[0], back);
    }
  }

  // ---- The columns that do not depend on the order

  ghost predicate MatchesSums(row: Row, sums: Sums) {
    && row.shares == sums.sharesIn - sums.sharesOut
    && row.totalDeposits == row.totalDepositsValue == sums.assetsIn
    && row.totalSharesAcquired == sums.sharesIn
    && row.costBasis == Basis(sums.assetsIn, sums.sharesIn)
  }

  lemma {:induction false} ColumnsFromSums(row: Option<Row>, sums: Sums, changes: seq<Change>)
    requires if row.Some? then MatchesSums(row.value, sums) else sums == Sums(0, 0, 0, 0)
    requires row.Some? || changes != []
    ensures ApplyAll(row, changes).Some?
    ensures MatchesSums(ApplyAll(row, changes).value, Plus(sums, Total(changes)))
    decreases |changes|
  {
    if changes != [] {
      ColumnsFromSums(Some(Apply(row, changes[0])), Plus(sums, SumOf(changes[0])), changes[1..]);
    }
  }

  /** For every order of the same changes: same shares, totals and cost basis. */
  lemma OrderIndependent(x: seq<Change>, y: seq<Change>)
    requires multiset(x) == multiset(y) && x != []
    ensures ApplyAll(None, x).Some? && ApplyAll(None, y).Some?
    ensures var r, s := ApplyAll(None, x).value, ApplyAll(None, y).value;
            && r.shares == s.shares && r.totalDeposits == s.totalDeposits
            && r.totalDepositsValue == s.totalDepositsValue && r.totalSharesAcquired == s.totalSharesAcquired
            && r.costBasis == s.costBasis
  {
    assert |multiset(x)| == |x| && |multiset(y)| == |y|;
    ColumnsFromSums(None, Sums(0, 0, 0, 0), x);
    ColumnsFromSums(None, Sums(0, 0, 0, 0), y);
    TotalOfPermutation(x, y);
  }

  // ---- Profit

  function BasisOf(row: Option<Row>): real {
    match row case None => 0.0 case Some(r) => r.costBasis
  }

  /** Exchanging a redemption with the deposit after it changes nothing but the profit (and the closing
      time), and the profit by the redeemed shares times the change of the cost basis. A redemption that
      is the first change of its account is taken at no cost. */
  lemma SwapChangesProfit(row: Option<Row>, redeem: Change, deposit: Change)
    requires redeem.Redeem? && deposit.Deposit?
    requires row.Some? ==>
               row.value.costBasis == Basis(row.value.totalDepositsValue, row.value.totalSharesAcquired)
    ensures var x, y := Apply(Some(Apply(row, redeem)), deposit), Apply(Some(Apply(row, deposit)), redeem);
            && x.(realizedPnl := 0.0, closedAt := None) == y.(realizedPnl := 0.0, closedAt := None)
            && x.realizedPnl - y.realizedPnl == Cost(redeem.shares, y.costBasis - BasisOf(row))
            && (x.realizedPnl == y.realizedPnl <==> redeem.shares == 0 || y.costBasis == BasisOf(row))
  {
    var y := Apply(Some(Apply(row, deposit)), redeem);
    CostOfDifference(redeem.shares, y.costBasis, BasisOf(row));
    FreeOfCost(redeem.shares);
  }

  lemma CostOfDifference(shares: nat, x: real, y: real)
    ensures Cost(shares, x) - Cost(shares, y) == Cost(shares, x - y)
    ensures Cost(shares, x - y) == 0.0 <==> shares == 0 || x == y
  {
  }

  lemma {:induction false} DepositsMakeNoProfit(row: Option<Row>, changes: seq<Change>)
    requires forall change <- changes :: change.Deposit?
    requires row.Some? ==> row.value.realizedPnl == 0.0
    ensures ApplyAll(row, changes).Some? ==> ApplyAll(row, changes).value.realizedPnl == 0.0
    decreases |changes|
  {
    if changes != [] {
      DepositsMakeNoProfit(Some(Apply(row, changes[0])), changes[1..]);
    }
  }

  lemma {:induction false} RedemptionsProfit(row: Row, changes: seq<Change>)
    requires forall change <- changes :: change.Redeem?
    ensures ApplyAll(Some(row), changes).Some?
    ensures var after := ApplyAll(Some(row), changes).value;
            && after.costBasis == row.costBasis && after.totalDepositsValue == row.totalDepositsValue
            && after.totalSharesAcquired == row.totalSharesAcquired
            && after.realizedPnl
               == row.realizedPnl + Total(changes).assetsOut as real - Cost(Total(changes).sharesOut, row.costBasis)
    decreases |changes|
  {
    if changes == [] {
      assert Cost(0, row.costBasis) == 0.0;
    } else {
      hide Cost, Basis;
      assert changes[0] in changes;
      RedemptionsProfit(Apply(Some(row), changes[0]), changes[1..]);
      CostAdds(changes[0].shares, Total(changes[1..]).sharesOut, row.costBasis);
    }
  }

  lemma CostOfAll(value: nat, acquired: nat)
    ensures Cost(acquired, Basis(value, acquired)) == if acquired > 0 then value as real else 0.0
  {
  }

  lemma {:induction false} TotalOfDeposits(changes: seq<Change>)
    requires forall change <- changes :: change.Deposit?
    ensures Total(changes).sharesOut == Total(changes).assetsOut == 0
  {
    if changes != [] {
      assert changes[0] in changes;
      TotalOfDeposits(changes[1..]);
    }
  }

  /** With all deposits before all redemptions: the profit is what came out, minus what went in, plus the
      remaining shares at cost, unless assets were deposited for no shares at all. */
  lemma ProfitOfOrderlyAccount(deposits: seq<Change>, redemptions: seq<Change>)
    requires forall change <- deposits :: change.Deposit?
    requires forall change <- redemptions :: change.Redeem?
    requires deposits + redemptions != []
    ensures ApplyAll(None, deposits + redemptions).Some?
    ensures var row := ApplyAll(None, deposits + redemptions).value;
            var sums := Total(deposits + redemptions);
            row.realizedPnl
              == sums.assetsOut as real - row.totalDepositsValue as real + row.shares as real * row.costBasis
            <==> sums.sharesIn > 0 || sums.assetsIn == 0
  {
    hide *;
    var sums := Total(deposits + redemptions);
    ColumnsOf(deposits + redemptions);
    OutOfRedemptions(deposits, redemptions);
    ProfitIs(deposits, redemptions);
    var row := ApplyAll(None, deposits + redemptions).value;
    CostOfAll(sums.assetsIn, sums.sharesIn);
    RemainingCost(sums.sharesIn, sums.sharesOut, row.costBasis);
  }

  lemma ColumnsOf(changes: seq<Change>)
    requires changes != []
    ensures ApplyAll(None, changes).Some?
    ensures var row, sums := ApplyAll(None, changes).value, Total(changes);
            && row.shares == sums.sharesIn - sums.sharesOut && row.totalDepositsValue == sums.assetsIn
            && row.costBasis == Basis(sums.assetsIn, sums.sharesIn)
  {
    hide Basis, Total, ApplyAll;
    ColumnsFromSums(None, Sums(0, 0, 0, 0), changes);
  }

  lemma OutOfRedemptions(deposits: seq<Change>, redemptions: seq<Change>)
    requires forall change <- deposits :: change.Deposit?
    ensures Total(deposits + redemptions).sharesOut == Total(redemptions).sharesOut
    ensures Total(deposits + redemptions).assetsOut == Total(redemptions).assetsOut
  {
    hide Total;
    TotalAppend(deposits, redemptions);
    TotalOfDeposits(deposits);
  }

  lemma RemainingCost(sharesIn: nat, sharesOut: nat, basis: real)
    ensures (sharesIn - sharesOut) as real * basis == Cost(sharesIn, basis) - Cost(sharesOut, basis)
  {
    assert (sharesIn - sharesOut) as real == sharesIn as real - sharesOut as real;
    Distributes(sharesIn as real, -(sharesOut as real), basis);
  }

  lemma {:induction false} ApplyAppend(row: Option<Row>, front: seq<Change>, back: seq<Change>)
    ensures ApplyAll(row, front + back) == ApplyAll(ApplyAll(row, front), back)
    decreases |front|
  {
    if front == [] {
      assert front + back == back;
    } else {
      assert (front + back)[1..] == front[1..] + back;
      ApplyAppend(Some(Apply(row, front[0])), front[1..], back);
    }
  }

  lemma ProfitIs(deposits: seq<Change>, redemptions: seq<Change>)
    requires forall change <- deposits :: change.Deposit?
    requires forall change <- redemptions :: change.Redeem?
    requires deposits + redemptions != []
    ensures ApplyAll(None, deposits + redemptions).Some?
    ensures var row, out := ApplyAll(None, deposits + redemptions).value, Total(redemptions);
            row.realizedPnl == out.assetsOut as real - Cost(out.sharesOut, row.costBasis)
  {
    hide Cost;
    ApplyAppend(None, deposits, redemptions);
    if deposits == [] {
      var stub := Apply(None, redemptions[0]);
      RedemptionsProfit(stub, redemptions[1..]);
      FreeOfCost(Total(redemptions[1..]).sharesOut);
      FreeOfCost(Total(redemptions).sharesOut);
    } else {
      ColumnsFromSums(None, Sums(0, 0, 0, 0), deposits);
      DepositsMakeNoProfit(None, deposits);
      RedemptionsProfit(ApplyAll(None, deposits).value, redemptions);
    }
  }

  lemma FreeOfCost(shares: nat)
    ensures Cost(shares, 0.0) == 0.0
  {
  }

  lemma ColumnsSoFar(changes: seq<Change>)
    ensures ApplyAll(None, changes).Some? <==> changes != []
    ensures changes != [] ==>
              ApplyAll(None, changes).value.shares == Total(changes).sharesIn - Total(changes).sharesOut
  {
    if changes != [] {
      ColumnsOf(changes);
    }
  }

  /** A position is closed exactly if its last change, and not its first, is a redemption that leaves no shares;
      it then shows the time of that redemption. */
  lemma ClosingTime(changes: seq<Change>)
    requires changes != []
    ensures ApplyAll(None, changes).Some?
    ensures var last := changes[|changes| - 1];
            ApplyAll(None, changes).value.closedAt
            == if last.Redeem? && |changes| > 1 && Total(changes).sharesIn <= Total(changes).sharesOut
               then Some(last.time) else None
  {
    var front, last := changes[..|changes| - 1], changes[|changes| - 1];
    assert changes == front + [last] && [last][1..] == [];
    ApplyAppend(None, front, [last]);
    ColumnsSoFar(changes);
    ColumnsSoFar(front);
    ClosedHoldsNothing(None, front);
    assert ApplyAll(ApplyAll(None, front), [last]) == ApplyAll(Some(Apply(ApplyAll(None, front), last)), []);
  }

  /** A position shown as closed holds no shares. */
  lemma {:induction false} ClosedHoldsNothing(row: Option<Row>, changes: seq<Change>)
    requires row.Some? && row.value.closedAt.Some? ==> row.value.shares <= 0
    ensures var after := ApplyAll(row, changes);
            after.Some? && after.value.closedAt.Some? ==> after.value.shares <= 0
    decreases |changes|
  {
    if changes != [] {
      hide Cost, Basis;
      ClosedHoldsNothing(Some(Apply(row, changes[0])), changes[1..]);
    }
  }
}
