/**
 What the accumulating columns of the `market` schema add up to
 (`crates/projections/src/repo/kg_market_repo.rs`): positions against the shares that moved, holder
 counts against accounts, and the flow columns of a vault against its deposits.
 */
module Ledger {
  import opened Wrappers
  import opened ShardKey
  import opened KgMarket
  import opened Projections

  /** Shares that an event moves into (or out of) a position. */
  function Delta(event: ParsedEvent, key: PositionKey): int {
    match event
    case Deposited(_, vault, receiver, _, shares) => if PositionKey(vault, receiver) == key then shares else 0
    case Redeemed(_, vault, sender, _, shares) => if PositionKey(vault, sender) == key then -(shares as int) else 0
    case _ => 0
  }

  /** Deposited minus redeemed shares of an account in a vault. */
  function Net(events: seq<ParsedEvent>, key: PositionKey): int {
    if events == [] then 0 else Net(events[..|events| - 1], key) + Delta(events[|events| - 1], key)
  }

  /** Deposited minus redeemed shares of a vault. */
  function VaultNet(events: seq<ParsedEvent>, vault: VaultKey): int {
    if events == [] then 0
    else VaultNet(events[..|events| - 1], vault) + VaultDelta(events[|events| - 1], vault)
  }

  function VaultDelta(event: ParsedEvent, vault: VaultKey): int {
    match event
    case Deposited(_, v, _, _, shares) => if v == vault then shares else 0
    case Redeemed(_, v, _, _, shares) => if v == vault then -(shares as int) else 0
    case _ => 0
  }

  /** No account redeems more of a vault than it has by then. */
  ghost predicate NoOverdraft(log: seq<ParsedEvent>) {
    forall i, key :: 0 <= i <= |log| ==> Net(log[..i], key) >= 0
  }

  function SharesOf(positions: Positions, key: PositionKey): int {
    if key in positions then positions[key].shares else 0
  }

  ghost predicate Balanced(log: seq<ParsedEvent>) {
    forall i, key :: 0 <= i <= |log| ==> SharesOf(PositionsAfter(map[], log[..i]), key) == Net(log[..i], key)
  }

  lemma PositionsOfPrefix(log: seq<ParsedEvent>, n: nat)
    requires 0 < n <= |log|
    ensures PositionsAfter(map[], log[..n]) == ApplyPosition(PositionsAfter(map[], log[..n - 1]), log[n - 1])
    ensures log[..n][..n - 1] == log[..n - 1] && log[..n][n - 1] == log[n - 1]
  {
    assert log[..n] == log[..n - 1] + [log[n - 1]];
    PositionsAppend(map[], log[..n - 1], [log[n - 1]]);
    assert [log[n - 1]][1..] == [];
    assert PositionsAfter(PositionsAfter(map[], log[..n - 1]), [log[n - 1]])
        == PositionsAfter(ApplyPosition(PositionsAfter(map[], log[..n - 1]), log[n - 1]), []);
  }

  ghost predicate NonNegative(positions: Positions) {
    forall key <- positions :: positions[key].shares >= 0
  }

  lemma SharesAfter(positions: Positions, event: ParsedEvent, key: PositionKey)
    requires NonNegative(positions)
    ensures NonNegative(ApplyPosition(positions, event))
    ensures SharesOf(ApplyPosition(positions, event), key)
         == var shares := SharesOf(positions, key) + Delta(event, key); if shares < 0 then 0 else shares
  {
  }

  lemma {:induction false} NeverNegative(log: seq<ParsedEvent>, n: nat)
    requires n <= |log|
    ensures NonNegative(PositionsAfter(map[], log[..n]))
    decreases n
  {
    if n > 0 {
      NeverNegative(log, n - 1);
      PositionsOfPrefix(log, n);
      SharesAfter(PositionsAfter(map[], log[..n - 1]), log[n - 1], PositionKey(VaultKey("", BigDecimal(0, 0)), ""));
    }
  }

  lemma {:induction false} BalancedUpTo(log: seq<ParsedEvent>, n: nat, key: PositionKey)
    requires NoOverdraft(log) && n <= |log|
    ensures SharesOf(PositionsAfter(map[], log[..n]), key) == Net(log[..n], key)
    decreases n
  {
    if n > 0 {
      BalancedUpTo(log, n - 1, key);
      NeverNegative(log, n - 1);
      PositionsOfPrefix(log, n);
      SharesAfter(PositionsAfter(map[], log[..n - 1]), log[n - 1], key);
      assert Net(log[..n], key) >= 0;
    }
  }

  /** All positions are exact, at every moment, exactly for the logs without an overdraft. */
  lemma BalancedIffNoOverdraft(log: seq<ParsedEvent>)
    ensures Balanced(log) <==> NoOverdraft(log)
  {
    if NoOverdraft(log) {
      forall i, key | 0 <= i <= |log|
        ensures SharesOf(PositionsAfter(map[], log[..i]), key) == Net(log[..i], key)
      {
        BalancedUpTo(log, i, key);
      }
    }
    if Balanced(log) {
      forall i, key | 0 <= i <= |log| ensures Net(log[..i], key) >= 0 {
        NeverNegative(log, i);
        assert SharesOf(PositionsAfter(map[], log[..i]), key) == Net(log[..i], key);
      }
    }
  }

  // ---- Sums over the table

  function Part(key: PositionKey, row: PositionRow, vault: VaultKey): int {
    if key.vault == vault then row.shares else 0
  }

  /** SELECT SUM(shares) … WHERE the vault is this one. */
  ghost function SumShares(positions: Positions, vault: VaultKey): int {
    if positions == map[] then 0
    else
      var key :| key in positions;
      Part(key, positions[key], vault) + SumShares(positions - {key}, vault)
  }

  lemma {:induction false} SumWithout(positions: Positions, vault: VaultKey, key: PositionKey)
    requires key in positions
    ensures SumShares(positions, vault) == Part(key, positions[key], vault) + SumShares(positions - {key}, vault)
    decreases |positions|
  {
    var picked :| picked in positions
      && SumShares(positions, vault)
         == Part(picked, positions[picked], vault) + SumShares(positions - {picked}, vault);
    if picked != key {
      SumWithout(positions - {picked}, vault, key);
      SumWithout(positions - {key}, vault, picked);
      assert positions - {picked} - {key} == positions - {key} - {picked};
    }
  }

  /** Changing one position changes the sum of its vault by the difference. */
  lemma SumAfterPut(positions: Positions, vault: VaultKey, key: PositionKey, row: Option<PositionRow>)
    ensures SumShares(Put(positions, key, row), vault)
         == SumShares(positions, vault)
            + if key.vault == vault then SharesOf(Put(positions, key, row), key) - SharesOf(positions, key) else 0
  {
    var after := Put(positions, key, row);
    assert after - {key} == positions - {key};
    if key in positions {
      SumWithout(positions, vault, key);
    } else {
      assert positions - {key} == positions;
    }
    if key in after {
      SumWithout(after, vault, key);
    }
  }

  predicate Covered(positions: Positions, event: ParsedEvent) {
    event.Redeemed? ==> event.shares <= SharesOf(positions, PositionKey(event.vault, event.sender))
  }

  lemma SumAfterEvent(positions: Positions, event: ParsedEvent, vault: VaultKey)
    requires NonNegative(positions)
    requires Covered(positions, event)
    ensures SumShares(ApplyPosition(positions, event), vault) == SumShares(positions, vault) + VaultDelta(event, vault)
  {
    match event
    case Deposited(_, v, receiver, assets, shares) =>
      var key := PositionKey(v, receiver);
      SumAfterPut(positions, vault, key, Some(PositionOnDeposit(Lookup(positions, key), shares, assets)));
      SharesAfter(positions, event, key);
    case Redeemed(_, v, sender, assets, shares) =>
      var key := PositionKey(v, sender);
      SumAfterPut(positions, vault, key, Pruned(PositionOnRedeem(Lookup(positions, key), shares, assets)));
      SharesAfter(positions, event, key);
    case _ =>
  }

  /** The shares of all positions of a vault are those deposited and not redeemed. */
  lemma {:induction false} SharesAreConserved(log: seq<ParsedEvent>, n: nat, vault: VaultKey)
    requires NoOverdraft(log) && n <= |log|
    ensures SumShares(PositionsAfter(map[], log[..n]), vault) == VaultNet(log[..n], vault)
    decreases n
  {
    if n > 0 {
      SharesAreConserved(log, n - 1, vault);
      NeverNegative(log, n - 1);
      PositionsOfPrefix(log, n);
      if log[n - 1].Redeemed? {
        var key := PositionKey(log[n - 1].vault, log[n - 1].sender);
        BalancedUpTo(log, n - 1, key);
        assert Net(log[..n], key) >= 0;
      }
      SumAfterEvent(PositionsAfter(map[], log[..n - 1]), log[n - 1], vault);
    }
  }

  // ---- Holders

  function Accounts(events: seq<ParsedEvent>): set<string> {
    set event <- events | event.Deposited? :: event.receiver
  }

  /** Accounts that got more of a vault than they gave back. */
  ghost function LiveAccounts(events: seq<ParsedEvent>, vault: VaultKey): set<string> {
    set account <- Accounts(events) | Net(events, PositionKey(vault, account)) > 0
  }

  lemma {:induction false} PositiveNetIsFromADeposit(events: seq<ParsedEvent>, key: PositionKey)
    requires Net(events, key) > 0
    ensures key.account in Accounts(events)
    decreases |events|
  {
    var last := events[|events| - 1];
    if Net(events[..|events| - 1], key) > 0 {
      PositiveNetIsFromADeposit(events[..|events| - 1], key);
      var deposit :| deposit in events[..|events| - 1] && deposit.Deposited? && deposit.receiver == key.account;
      assert deposit in events;
    } else {
      assert last in events && last.Deposited? && last.receiver == key.account;
    }
  }

  lemma HoldersAreLiveAccounts(log: seq<ParsedEvent>, n: nat, vault: VaultKey)
    requires NoOverdraft(log) && n <= |log|
    ensures Holders(PositionsAfter(map[], log[..n]), vault) == LiveAccounts(log[..n], vault)
  {
    hide PositionsAfter, Net;
    var positions := PositionsAfter(map[], log[..n]);
    forall account ensures account in Holders(positions, vault) <==> account in LiveAccounts(log[..n], vault) {
      var key := PositionKey(vault, account);
      BalancedUpTo(log, n, key);
      assert account in Holders(positions, vault) <==> SharesOf(positions, key) > 0;
      if Net(log[..n], key) > 0 {
        PositiveNetIsFromADeposit(log[..n], key);
      }
    }
  }

  /** In every reachable state of the sharded fleet, for a vault whose owner has passed a deposit or a
      redemption: the stored count is the number of accounts with positive net shares. */
  lemma HolderCountCountsAccounts(hash: Hash, log: seq<ParsedEvent>, shards: nat, steps: seq<Step>, vault: VaultKey)
    requires shards > 0 && NoOverdraft(log)
    ensures var fleet := Run(hash, log, Launch(shards), steps);
            MovesIn(log[..fleet.cursors[Owner(hash, vault, shards)]], vault) && vault in fleet.market.vaults ==>
              fleet.market.vaults[vault].holderCount == |LiveAccounts(log[..fleet.holders], vault)|
  {
    hide Owner, Holders, LiveAccounts, MovesIn;
    HolderCountIsCurrent(hash, log, shards, steps, vault);
    HoldersAreLiveAccounts(log, Run(hash, log, Launch(shards), steps).holders, vault);
  }

  // ---- Flows

  function DepositedAssets(events: seq<ParsedEvent>, vault: VaultKey): nat {
    if events == [] then 0
    else
      (if events[0].Deposited? && events[0].vault == vault then events[0].assetsAfterFees else 0)
      + DepositedAssets(events[1..], vault)
  }

  function RedeemedAssets(events: seq<ParsedEvent>, vault: VaultKey): nat {
    if events == [] then 0
    else
      (if events[0].Redeemed? && events[0].vault == vault then events[0].assets else 0)
      + RedeemedAssets(events[1..], vault)
  }

  function FirstEvent(events: seq<ParsedEvent>, vault: VaultKey): Option<ParsedEvent> {
    if events == [] then None
    else if Concerns(events[0], vault) then Some(events[0])
    else FirstEvent(events[1..], vault)
  }

  /** The redemption that creates the row is added to one column without being taken from the other. */
  function Uncovered(events: seq<ParsedEvent>, vault: VaultKey): nat {
    match FirstEvent(events, vault)
    case Some(Redeemed(_, _, _, assets, _)) => assets
    case _ => 0
  }

  lemma {:induction false} FlowsOfARow(row: Option<VaultRow>, vault: VaultKey, events: seq<ParsedEvent>)
    ensures RowFold(row, vault, events).Some? <==> row.Some? || FirstEvent(events, vault).Some?
    ensures RowFold(row, vault, events).Some? ==>
              var after := RowFold(row, vault, events).value;
              var (deposits, redemptions) :=
                match row case None => (0, 0) case Some(r) => (r.totalDeposits, r.totalRedemptions);
              && after.totalRedemptions == redemptions + RedeemedAssets(events, vault)
              && after.totalDeposits + after.totalRedemptions
                 == deposits + redemptions + DepositedAssets(events, vault)
                    + if row.None? then Uncovered(events, vault) else 0
    decreases |events|
  {
    if events != [] {
      var next := if Concerns(events[0], vault) then Some(RowAfter(row, events[0])) else row;
      FlowsOfARow(next, vault, events[1..]);
    }
  }

  /** The two flow columns add up to the deposits exactly when the first event of the vault is not a
      redemption of some assets. */
  lemma FlowsAddUp(vault: VaultKey, log: seq<ParsedEvent>)
    requires FirstEvent(log, vault).Some?
    ensures RowFold(None, vault, log).Some?
    ensures var row := RowFold(None, vault, log).value;
            row.totalDeposits + row.totalRedemptions == DepositedAssets(log, vault)
            <==> !(FirstEvent(log, vault).value.Redeemed? && FirstEvent(log, vault).value.assets > 0)
  {
    FlowsOfARow(None, vault, log);
  }

  // ---- Totals of a position

  function DepositsTo(events: seq<ParsedEvent>, key: PositionKey): nat {
    if events == [] then 0
    else
      var last := events[|events| - 1];
      DepositsTo(events[..|events| - 1], key)
      + if last.Deposited? && PositionKey(last.vault, last.receiver) == key then last.assetsAfterFees else 0
  }

  function RedemptionsFrom(events: seq<ParsedEvent>, key: PositionKey): nat {
    if events == [] then 0
    else
      var last := events[|events| - 1];
      RedemptionsFrom(events[..|events| - 1], key)
      + if last.Redeemed? && PositionKey(last.vault, last.sender) == key then last.assets else 0
  }

  /** Where the current life of a position begins: after the last redemption that left the account nothing. */
  function LifeStart(events: seq<ParsedEvent>, key: PositionKey): (start: nat)
    ensures start <= |events|
  {
    if events == [] then 0
    else
      var last := events[|events| - 1];
      if last.Redeemed? && PositionKey(last.vault, last.sender) == key && Net(events, key) == 0 then |events|
      else LifeStart(events[..|events| - 1], key)
  }

  /** The totals of a position are those of its current life; without a position there are none. */
  lemma {:induction false} TotalsOfALife(log: seq<ParsedEvent>, n: nat, key: PositionKey)
    requires NoOverdraft(log) && n <= |log|
    ensures var life := log[..n][LifeStart(log[..n], key)..];
            TotalsAre(PositionsAfter(map[], log[..n]), key, DepositsTo(life, key), RedemptionsFrom(life, key))
    decreases n
  {
    if n > 0 {
      hide *;
      var before, event, events := PositionsAfter(map[], log[..n - 1]), log[n - 1], log[..n - 1];
      TotalsOfALife(log, n - 1, key);
      PositionsOfPrefix(log, n);
      BalancedUpTo(log, n - 1, key);
      SolventAt(log, n, key);
      assert log[..n] == events + [event];
      LifeGoesOn(events, event, key, before);
    }
  }

  lemma SolventAt(log: seq<ParsedEvent>, n: nat, key: PositionKey)
    requires NoOverdraft(log) && n <= |log|
    ensures Net(log[..n], key) >= 0
  {
  }

  lemma LifeGoesOn(events: seq<ParsedEvent>, event: ParsedEvent, key: PositionKey, before: Positions)
    requires SharesOf(before, key) == Net(events, key) && Net(events + [event], key) >= 0
    requires var life := events[LifeStart(events, key)..];
             TotalsAre(before, key, DepositsTo(life, key), RedemptionsFrom(life, key))
    ensures var more := events + [event];
            var life := more[LifeStart(more, key)..];
            TotalsAre(ApplyPosition(before, event), key, DepositsTo(life, key), RedemptionsFrom(life, key))
  {
    hide Net, TotalsAre, ApplyPosition, LifeStart, DepositsTo, RedemptionsFrom, Delta, SharesOf;
    var life := events[LifeStart(events, key)..];
    LifeStep(events, event, key);
    TotalsStep(before, event, key, DepositsTo(life, key), RedemptionsFrom(life, key));
    if event.Redeemed? && PositionKey(event.vault, event.sender) == key && Net(events + [event], key) == 0 {
      NothingYet(key);
    } else {
      SumsStep(life, event, key);
    }
  }

  lemma NothingYet(key: PositionKey)
    ensures DepositsTo([], key) == RedemptionsFrom([], key) == 0
  {
  }

  /** What one more event does to the current life and its sums. */
  lemma LifeStep(events: seq<ParsedEvent>, event: ParsedEvent, key: PositionKey)
    ensures var more := events + [event];
            var ended := event.Redeemed? && PositionKey(event.vault, event.sender) == key && Net(more, key) == 0;
            && Net(more, key) == Net(events, key) + Delta(event, key)
            && more[LifeStart(more, key)..] == if ended then [] else events[LifeStart(events, key)..] + [event]
  {
    var more := events + [event];
    assert more[..|more| - 1] == events;
  }

  lemma SumsStep(life: seq<ParsedEvent>, event: ParsedEvent, key: PositionKey)
    ensures DepositsTo(life + [event], key)
         == DepositsTo(life, key)
            + if event.Deposited? && PositionKey(event.vault, event.receiver) == key then event.assetsAfterFees else 0
    ensures RedemptionsFrom(life + [event], key)
         == RedemptionsFrom(life, key)
            + if event.Redeemed? && PositionKey(event.vault, event.sender) == key then event.assets else 0
  {
    assert (life + [event])[..|life|] == life;
  }

  /** The totals of the position, or of no position. */
  predicate TotalsAre(positions: Positions, key: PositionKey, deposits: nat, redemptions: nat) {
    if key in positions then
      positions[key].totalDeposits == deposits && positions[key].totalRedemptions == redemptions
    else deposits == redemptions == 0
  }

  lemma TotalsStep(before: Positions, event: ParsedEvent, key: PositionKey, deposits: nat, redemptions: nat)
    requires TotalsAre(before, key, deposits, redemptions) && SharesOf(before, key) + Delta(event, key) >= 0
    ensures var paidIn := event.Deposited? && PositionKey(event.vault, event.receiver) == key;
            var paidOut := event.Redeemed? && PositionKey(event.vault, event.sender) == key;
            var after := ApplyPosition(before, event);
            if paidOut && SharesOf(before, key) + Delta(event, key) == 0 then TotalsAre(after, key, 0, 0)
            else TotalsAre(after, key, deposits + (if paidIn then event.assetsAfterFees else 0),
                           redemptions + if paidOut then event.assets else 0)
  {
  }

  // ---- Sums over market.events

  ghost function SumOf(events: EventRows, measure: EventRow -> nat): nat {
    if events == map[] then 0
    else
      var key :| key in events;
      measure(events[key]) + SumOf(events - {key}, measure)
  }

  lemma {:induction false} SumOfWithout(events: EventRows, measure: EventRow -> nat, key: EventKey)
    requires key in events
    ensures SumOf(events, measure) == measure(events[key]) + SumOf(events - {key}, measure)
    decreases |events|
  {
    var picked :| picked in events
      && SumOf(events, measure) == measure(events[picked]) + SumOf(events - {picked}, measure);
    if picked != key {
      SumOfWithout(events - {picked}, measure, key);
      SumOfWithout(events - {key}, measure, picked);
      assert events - {picked} - {key} == events - {key} - {picked};
    }
  }

  function LogSum(events: seq<ParsedEvent>, measure: EventRow -> nat): nat {
    if events == [] then 0
    else (if events[0].Other? then 0 else measure(EventRowOf(events[0]))) + LogSum(events[1..], measure)
  }

  /** No two logs have the same key, and none is in the table yet. */
  ghost predicate Fresh(events: EventRows, log: seq<ParsedEvent>) {
    DistinctKeys(log) && forall event <- log :: EventKeyOf(event) !in events
  }

  lemma FreshStep(events: EventRows, log: seq<ParsedEvent>, row: EventRow)
    requires log != [] && Fresh(events, log)
    ensures Fresh(events, log[1..]) && Fresh(events[EventKeyOf(log[0]) := row], log[1..])
  {
    hide EventKeyOf;
    forall event <- log[1..] ensures EventKeyOf(event) !in events && EventKeyOf(event) != EventKeyOf(log[0]) {
      var i :| 0 <= i < |log[1..]| && log[1..][i] == event;
      assert log[i + 1] == event;
    }
  }

  lemma FreshFirst(events: EventRows, log: seq<ParsedEvent>)
    requires log != [] && Fresh(events, log)
    ensures EventKeyOf(log[0]) !in events
  {
    assert log[0] in log;
  }

  lemma SumAfterInsert(events: EventRows, event: ParsedEvent, measure: EventRow -> nat)
    requires !event.Other? && EventKeyOf(event) !in events
    ensures SumOf(InsertEvent(events, event), measure) == SumOf(events, measure) + measure(EventRowOf(event))
  {
    hide EventKeyOf, EventRowOf;
    var after := InsertEvent(events, event);
    SumOfWithout(after, measure, EventKeyOf(event));
    assert after - {EventKeyOf(event)} == events;
  }

  lemma {:induction false} SumsAddUp(market: Market, shard: Shard, log: seq<ParsedEvent>, measure: EventRow -> nat)
    requires shard.total <= 1 && Fresh(market.events, log)
    ensures SumOf(ApplyAll(market, shard, log).events, measure)
         == SumOf(market.events, measure) + LogSum(log, measure)
    decreases |log|
  {
    if log != [] {
      hide Fresh, EventKeyOf, EventRowOf;
      var event := log[0];
      FreshStep(market.events, log, EventRow("", None, None, None, 0, None));
      if !event.Other? {
        FreshFirst(market.events, log);
        FreshStep(market.events, log, EventRowOf(event));
        SumAfterInsert(market.events, event, measure);
      }
      SumsAddUp(ApplyToMarket(market, shard, event), shard, log[1..], measure);
    }
  }

  /** Once a fleet of any size is through the log, every sum over `market.events` is one over the log. */
  lemma FleetSums(hash: Hash, log: seq<ParsedEvent>, shards: nat, steps: seq<Step>, measure: EventRow -> nat)
    requires shards > 0 && DistinctKeys(log) && Drained(log, Run(hash, log, Launch(shards), steps))
    ensures SumOf(Run(hash, log, Launch(shards), steps).market.events, measure) == LogSum(log, measure)
  {
    hide Run, Drained, DistinctKeys, ApplyAll, EventKeyOf, LogSum, Touched, Refreshed;
    ShardedIsSequential(hash, log, shards, steps);
    SumsAddUp(HoldersBatch(EMPTY_MARKET, log), Shard(hash, 0, 1), log, measure);
  }

  /** What a row adds to SUM(amount) over one term and direction; price rows have no amount. */
  function Flow(row: EventRow, termId: string, direction: Direction): nat {
    if row.termId == termId && row.direction == Some(direction) && row.amount.Some? then row.amount.value else 0
  }

  /** Assets that the deposits to (or the redemptions from) the vaults of a term moved, by the log. */
  function TermFlow(events: seq<ParsedEvent>, termId: string, direction: Direction): nat {
    if events == [] then 0
    else
      (match events[0]
       case Deposited(_, vault, _, assets, _) => if direction == In && vault.termId == termId then assets else 0
       case Redeemed(_, vault, _, assets, _) => if direction == Out && vault.termId == termId then assets else 0
       case _ => 0)
      + TermFlow(events[1..], termId, direction)
  }

  lemma {:induction false} LogSumOfFlow(log: seq<ParsedEvent>, measure: EventRow -> nat, termId: string,
                                        direction: Direction)
    requires forall row :: measure(row) == Flow(row, termId, direction)
    ensures LogSum(log, measure) == TermFlow(log, termId, direction)
    decreases |log|
  {
    if log != [] {
      LogSumOfFlow(log[1..], measure, termId, direction);
    }
  }

  /** SUM(amount) by term and direction is what the log moved: price snapshots are not counted, deposits are
      net of fees. */
  lemma EventAmountsAreFlows(hash: Hash, log: seq<ParsedEvent>, shards: nat, steps: seq<Step>, termId: string,
                             direction: Direction)
    requires shards > 0 && DistinctKeys(log) && Drained(log, Run(hash, log, Launch(shards), steps))
    ensures SumOf(Run(hash, log, Launch(shards), steps).market.events, row => Flow(row, termId, direction))
         == TermFlow(log, termId, direction)
  {
    hide Run, Drained, DistinctKeys;
    FleetSums(hash, log, shards, steps, row => Flow(row, termId, direction));
    LogSumOfFlow(log, row => Flow(row, termId, direction), termId, direction);
  }

  /** What a row adds to SUM(shares) over one term, account and direction. */
  function ShareFlow(row: EventRow, termId: string, account: string, direction: Direction): nat {
    if row.termId == termId && row.account == Some(account) && row.direction == Some(direction) then row.shares else 0
  }

  /** Shares that went to the account as a receiver, or came from it as a sender, in the vaults of a term. */
  function AccountFlow(events: seq<ParsedEvent>, termId: string, account: string, direction: Direction): nat {
    if events == [] then 0
    else
      (match events[0]
       case Deposited(_, vault, receiver, _, shares) =>
         if direction == In && vault.termId == termId && receiver == account then shares else 0
       case Redeemed(_, vault, sender, _, shares) =>
         if direction == Out && vault.termId == termId && sender == account then shares else 0
       case _ => 0)
      + AccountFlow(events[1..], termId, account, direction)
  }

  lemma {:induction false} LogSumOfShares(log: seq<ParsedEvent>, measure: EventRow -> nat, termId: string,
                                          account: string, direction: Direction)
    requires forall row :: measure(row) == ShareFlow(row, termId, account, direction)
    ensures LogSum(log, measure) == AccountFlow(log, termId, account, direction)
    decreases |log|
  {
    if log != [] {
      LogSumOfShares(log[1..], measure, termId, account, direction);
    }
  }

  /** SUM(shares) by term, account and direction is what the log moved for the account. */
  lemma EventSharesAreFlows(hash: Hash, log: seq<ParsedEvent>, shards: nat, steps: seq<Step>, termId: string,
                            account: string, direction: Direction)
    requires shards > 0 && DistinctKeys(log) && Drained(log, Run(hash, log, Launch(shards), steps))
    ensures SumOf(Run(hash, log, Launch(shards), steps).market.events,
                  row => ShareFlow(row, termId, account, direction))
         == AccountFlow(log, termId, account, direction)
  {
    hide Run, Drained, DistinctKeys;
    FleetSums(hash, log, shards, steps, row => ShareFlow(row, termId, account, direction));
    LogSumOfShares(log, row => ShareFlow(row, termId, account, direction), termId, account, direction);
  }

  /** A price row shows what the same event writes to its vault, and belongs to nobody. */
  lemma PriceRowShowsTheVault(market: Market, shard: Shard, price: ParsedEvent)
    requires price.SharePriceChanged? && Owns(shard, price.vault) && EventKeyOf(price) !in market.events
    ensures var after := ApplyToMarket(market, shard, price);
            && price.vault in after.vaults && EventKeyOf(price) in after.events
            && var row, vault := after.events[EventKeyOf(price)], after.vaults[price.vault];
               && row.price.Some? && row.price.value == vault.sharePrice && row.shares == vault.totalShares
               && row.account.None? && row.amount.None? && row.direction.None?
  {
  }
}
