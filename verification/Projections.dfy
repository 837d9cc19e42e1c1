/**
 The two projections that write `market.vaults`: `vault_state:dual`, sharded by vault, and
 `vault_holders_index:dual` (`crates/projections/src/projection/dual/`, spawned in
 `crates/projections/src/main.rs`). Each keeps its own place in the log and applies batches in
 sequence order, in one KG transaction a batch; nothing orders the workers among each other.
 */
module Projections {
  import opened Wrappers
  import opened ShardKey
  import opened KgMarket

  datatype Market = Market(vaults: Vaults, positions: Positions, events: EventRows)

  const EMPTY_MARKET := Market(map[], map[], map[])

  datatype Shard = Shard(hash: Hash, id: nat, total: nat)

  /** Not `should_skip_shard`. */
  predicate Owns(shard: Shard, vault: VaultKey) {
    shard.total <= 1
    || BelongsToShard(shard.hash, vault.termId, CanonicalShardKey(vault.curveId), shard.id, shard.total)
  }

  predicate Concerns(event: ParsedEvent, vault: VaultKey) {
    !event.Other? && event.vault == vault
  }

  /** Deposits and redemptions change who holds shares. */
  predicate Moves(event: ParsedEvent, vault: VaultKey) {
    (event.Deposited? || event.Redeemed?) && event.vault == vault
  }

  // ---- vault_state:dual

  function RowAfter(row: Option<VaultRow>, event: ParsedEvent): VaultRow
    requires !event.Other?
  {
    match event
    case Deposited(_, _, _, assetsAfterFees, _) => VaultOnDeposit(row, assetsAfterFees)
    case Redeemed(_, _, _, assets, _) => VaultOnRedeem(row, assets)
    case SharePriceChanged(_, _, sharePrice, totalAssets, totalShares, marketCap) =>
      VaultOnPrice(row, sharePrice, totalAssets, totalShares, marketCap)
  }

  /** The row of one vault, from the events that concern it. */
  function RowFold(row: Option<VaultRow>, vault: VaultKey, events: seq<ParsedEvent>): Option<VaultRow>
    decreases |events|
  {
    if events == [] then row
    else RowFold(if Concerns(events[0], vault) then Some(RowAfter(row, events[0])) else row, vault, events[1..])
  }

  function ApplyToMarket(market: Market, shard: Shard, event: ParsedEvent): Market {
    if event.Other? || !Owns(shard, event.vault) then market
    else market.(vaults := market.vaults[event.vault := RowAfter(Lookup(market.vaults, event.vault), event)],
                 events := InsertEvent(market.events, event))
  }

  function ApplyAll(market: Market, shard: Shard, events: seq<ParsedEvent>): Market
    decreases |events|
  {
    if events == [] then market else ApplyAll(ApplyToMarket(market, shard, events[0]), shard, events[1..])
  }

  function Touched(shard: Shard, events: seq<ParsedEvent>): set<VaultKey> {
    set event <- events | (event.Deposited? || event.Redeemed?) && Owns(shard, event.vault) :: event.vault
  }

  /** The holder counts of these vaults brought up to date. */
  function Refreshed(vaults: Vaults, positions: Positions, touched: set<VaultKey>): Vaults {
    map vault <- vaults ::
      if vault in touched then vaults[vault].(holderCount := |Holders(positions, vault)|) else vaults[vault]
  }

  function VaultStateBatch(market: Market, shard: Shard, batch: seq<ParsedEvent>): Market {
    var after := ApplyAll(market, shard, batch);
    after.(vaults := Refreshed(after.vaults, after.positions, Touched(shard, batch)))
  }

  // ---- vault_holders_index:dual

  function Put<K, V>(table: map<K, V>, key: K, row: Option<V>): map<K, V> {
    match row case None => table - {key} case Some(value) => table[key := value]
  }

  function ApplyPosition(positions: Positions, event: ParsedEvent): Positions {
    match event
    case Deposited(_, vault, receiver, assetsAfterFees, shares) =>
      var key := PositionKey(vault, receiver);
      positions[key := PositionOnDeposit(Lookup(positions, key), shares, assetsAfterFees)]
    case Redeemed(_, vault, sender, assets, shares) =>
      var key := PositionKey(vault, sender);
      Put(positions, key, Pruned(PositionOnRedeem(Lookup(positions, key), shares, assets)))
    case SharePriceChanged(_, _, _, _, _, _) => positions
    case Other(_) => positions
  }

  function PositionsAfter(positions: Positions, events: seq<ParsedEvent>): Positions
    decreases |events|
  {
    if events == [] then positions else PositionsAfter(ApplyPosition(positions, events[0]), events[1..])
  }

  function Moved(events: seq<ParsedEvent>): set<VaultKey> {
    set event <- events | event.Deposited? || event.Redeemed? :: event.vault
  }

  function HoldersBatch(market: Market, batch: seq<ParsedEvent>): Market {
    var positions := PositionsAfter(market.positions, batch);
    Market(Refreshed(market.vaults, positions, Moved(batch)), positions, market.events)
  }

  // ---- The fleet

  /** The places of the vault_state shards in the log, and that of the holders index. */
  datatype Fleet = Fleet(market: Market, cursors: seq<nat>, holders: nat)

  /** A worker reads up to `size` events after its checkpoint, applies them and saves. A log that
      still grows is one whose tail nobody has asked for yet. */
  datatype Step = VaultState(shard: nat, size: nat) | HoldersIndex(size: nat)

  function Next(log: seq<ParsedEvent>, cursor: nat, size: nat): (end: nat)
    requires cursor <= |log|
    ensures cursor <= end <= |log|
  {
    if cursor + size <= |log| then cursor + size else |log|
  }

  ghost predicate InLog(log: seq<ParsedEvent>, fleet: Fleet) {
    fleet.cursors != [] && fleet.holders <= |log|
    && forall i :: 0 <= i < |fleet.cursors| ==> fleet.cursors[i] <= |log|
  }

  ghost function Perform(hash: Hash, log: seq<ParsedEvent>, fleet: Fleet, step: Step): (after: Fleet)
    requires InLog(log, fleet)
    ensures InLog(log, after) && |after.cursors| == |fleet.cursors|
  {
    match step
    case VaultState(shard, size) =>
      if shard >= |fleet.cursors| then fleet
      else
        var start := fleet.cursors[shard];
        var end := Next(log, start, size);
        fleet.(market := VaultStateBatch(fleet.market, Shard(hash, shard, |fleet.cursors|), log[start..end]),
               cursors := fleet.cursors[shard := end])
    case HoldersIndex(size) =>
      var end := Next(log, fleet.holders, size);
      fleet.(market := HoldersBatch(fleet.market, log[fleet.holders..end]), holders := end)
  }

  ghost function Run(hash: Hash, log: seq<ParsedEvent>, fleet: Fleet, steps: seq<Step>): (after: Fleet)
    requires InLog(log, fleet)
    ensures InLog(log, after) && |after.cursors| == |fleet.cursors|
    decreases |steps|
  {
    if steps == [] then fleet else Run(hash, log, Perform(hash, log, fleet, steps[0]), steps[1..])
  }

  function Launch(shards: nat): Fleet {
    Fleet(EMPTY_MARKET, seq(shards, _ => 0), 0)
  }

  ghost predicate Drained(log: seq<ParsedEvent>, fleet: Fleet) {
    fleet.holders == |log| && forall i :: 0 <= i < |fleet.cursors| ==> fleet.cursors[i] == |log|
  }

  function Owner(hash: Hash, vault: VaultKey, shards: nat): (owner: nat)
    requires shards > 0
    ensures owner < shards
  {
    CalculateShard(hash, vault.termId, CanonicalShardKey(vault.curveId), shards)
  }

  lemma OnlyOwnerOwns(hash: Hash, vault: VaultKey, shard: nat, shards: nat)
    requires shard < shards
    ensures Owns(Shard(hash, shard, shards), vault) <==> shard == Owner(hash, vault, shards)
  {
  }

  /** Two vaults of a term are owned together, whatever the hash and the count, exactly when their curve
      ids have the same key. */
  lemma OwnedTogether(termId: string, a: BigDecimal, b: BigDecimal)
    ensures CanonicalShardKey(a) == CanonicalShardKey(b) <==>
            forall hash: Hash, shards: nat :: shards > 0 ==>
              Owner(hash, VaultKey(termId, a), shards) == Owner(hash, VaultKey(termId, b), shards)
  {
    hide CanonicalShardKey;
    var keyOfA := CanonicalShardKey(a);
    var tell: Hash := (_, curveId) => if curveId == keyOfA then 0 else 1;
    assert Owner(tell, VaultKey(termId, a), 2) == 0;
    assert CanonicalShardKey(b) != keyOfA ==> Owner(tell, VaultKey(termId, b), 2) == 1;
  }

  /** One number written with two scales has one owner; two scales that are not negative have two rows. */
  lemma TwoScalesTwoRows(hash: Hash, termId: string, a: BigDecimal, b: BigDecimal, shards: nat)
    requires shards > 0 && Value(a) == Value(b)
    ensures Owner(hash, VaultKey(termId, a), shards) == Owner(hash, VaultKey(termId, b), shards)
    ensures a.scale >= 0 && b.scale >= 0 ==>
              (VaultKey(termId, a) == VaultKey(termId, b) <==> a.scale == b.scale)
  {
    SameNumberSameKey(a, b);
    if a.scale == b.scale {
      SameScale(a, b);
    }
  }

  // ---- What a batch does to one row

  lemma {:induction false} ApplyAllByRow(market: Market, shard: Shard, events: seq<ParsedEvent>, vault: VaultKey)
    ensures Lookup(ApplyAll(market, shard, events).vaults, vault)
         == if Owns(shard, vault) then RowFold(Lookup(market.vaults, vault), vault, events)
            else Lookup(market.vaults, vault)
    ensures ApplyAll(market, shard, events).positions == market.positions
    decreases |events|
  {
    if events != [] {
      ApplyAllByRow(ApplyToMarket(market, shard, events[0]), shard, events[1..], vault);
    }
  }

  function WithHolders(row: Option<VaultRow>, count: nat): Option<VaultRow> {
    match row case None => None case Some(vault) => Some(vault.(holderCount := count))
  }

  predicate MovesIn(events: seq<ParsedEvent>, vault: VaultKey) {
    exists event <- events :: Moves(event, vault)
  }

  lemma TouchedIffMoves(shard: Shard, events: seq<ParsedEvent>, vault: VaultKey)
    ensures vault in Touched(shard, events) <==> Owns(shard, vault) && MovesIn(events, vault)
    ensures vault in Moved(events) <==> MovesIn(events, vault)
  {
    hide Owns;
    if event :| event in events && Moves(event, vault) {
    }
  }

  lemma BatchByRow(market: Market, shard: Shard, batch: seq<ParsedEvent>, vault: VaultKey)
    ensures var before, after := Lookup(market.vaults, vault),
                                 Lookup(VaultStateBatch(market, shard, batch).vaults, vault);
            after == if !Owns(shard, vault) then before
                     else if MovesIn(batch, vault)
                     then WithHolders(RowFold(before, vault, batch), |Holders(market.positions, vault)|)
                     else RowFold(before, vault, batch)
    ensures VaultStateBatch(market, shard, batch).positions == market.positions
  {
    hide Owns, Touched, Holders;
    ApplyAllByRow(market, shard, batch, vault);
    TouchedIffMoves(shard, batch, vault);
  }

  lemma {:induction false} RowFoldAppend(row: Option<VaultRow>, vault: VaultKey,
                                         front: seq<ParsedEvent>, back: seq<ParsedEvent>)
    ensures RowFold(row, vault, front + back) == RowFold(RowFold(row, vault, front), vault, back)
    decreases |front|
  {
    if front == [] {
      assert front + back == back;
    } else {
      assert (front + back)[1..] == front[1..] + back;
      RowFoldAppend(if Concerns(front[0], vault) then Some(RowAfter(row, front[0])) else row, vault, front[1..], back);
    }
  }

  /** No event looks at the holder count or changes it; a new row starts without holders. */
  lemma {:induction false} RowFoldHolders(row: Option<VaultRow>, vault: VaultKey, events: seq<ParsedEvent>, count: nat)
    ensures WithHolders(RowFold(WithHolders(row, count), vault, events), 0)
         == WithHolders(RowFold(row, vault, events), 0)
    ensures row.Some? ==> RowFold(row, vault, events).Some?
    ensures RowFold(row, vault, events).Some? ==>
              RowFold(row, vault, events).value.holderCount == if row.Some? then row.value.holderCount else 0
    decreases |events|
  {
    if events != [] {
      var next := if Concerns(events[0], vault) then Some(RowAfter(row, events[0])) else row;
      assert WithHolders(next, if row.Some? then count else 0)
          == if Concerns(events[0], vault) then Some(RowAfter(WithHolders(row, count), events[0]))
             else WithHolders(row, if row.Some? then count else 0);
      RowFoldHolders(next, vault, events[1..], if row.Some? then count else 0);
    }
  }

  // ---- What every interleaving keeps

  /** The row of a vault, when its owner has come to `cursor`: apart from the holder count it is that
      of one pass over the log so far; the count is right from the owner's first deposit or redemption
      on, and never moves for a vault that has none. */
  ghost predicate RowIsRight(log: seq<ParsedEvent>, cursor: nat, market: Market, vault: VaultKey)
    requires cursor <= |log|
  {
    var row := Lookup(market.vaults, vault);
    && WithHolders(row, 0) == RowFold(None, vault, log[..cursor])
    && (row.Some? && MovesIn(log[..cursor], vault) ==>
          row.value.holderCount == |Holders(market.positions, vault)|)
    && (row.Some? && !MovesIn(log, vault) ==> row.value.holderCount == 0)
  }

  ghost predicate OnCourse(hash: Hash, log: seq<ParsedEvent>, fleet: Fleet) {
    && InLog(log, fleet)
    && fleet.market.positions == PositionsAfter(map[], log[..fleet.holders])
    && forall vault ::
         RowIsRight(log, fleet.cursors[Owner(hash, vault, |fleet.cursors|)], fleet.market, vault)
  }

  lemma MovesInAppend(front: seq<ParsedEvent>, back: seq<ParsedEvent>, vault: VaultKey)
    ensures MovesIn(front + back, vault) <==> MovesIn(front, vault) || MovesIn(back, vault)
  {
    if event :| event in front + back && Moves(event, vault) {
      assert event in front || event in back;
    }
    if event :| event in front && Moves(event, vault) {
      assert event in front + back;
    }
    if event :| event in back && Moves(event, vault) {
      assert event in front + back;
    }
  }

  lemma {:induction false} MovesMakeRow(row: Option<VaultRow>, events: seq<ParsedEvent>, vault: VaultKey)
    requires MovesIn(events, vault) || row.Some?
    ensures RowFold(row, vault, events).Some?
    decreases |events|
  {
    if events != [] {
      var next := if Concerns(events[0], vault) then Some(RowAfter(row, events[0])) else row;
      if next.None? {
        var event :| event in events && Moves(event, vault);
        assert event in events[1..];
      }
      MovesMakeRow(next, events[1..], vault);
    }
  }

  lemma OwnerStep(log: seq<ParsedEvent>, start: nat, end: nat, market: Market, shard: Shard, vault: VaultKey)
    requires start <= end <= |log| && Owns(shard, vault)
    requires RowIsRight(log, start, market, vault)
    ensures RowIsRight(log, end, VaultStateBatch(market, shard, log[start..end]), vault)
  {
    hide Owns, Holders, MovesIn, VaultStateBatch;
    var batch := log[start..end];
    var row := Lookup(market.vaults, vault);
    BatchByRow(market, shard, batch, vault);
    assert log[..end] == log[..start] + batch && log == log[..end] + log[end..];
    RowFoldAppend(None, vault, log[..start], batch);
    MovesInAppend(log[..start], batch, vault);
    MovesInAppend(log[..end], log[end..], vault);
    RowFoldHolders(row, vault, batch, 0);
    RowFoldHolders(None, vault, log[..end], 0);
    if MovesIn(log[..start], vault) {
      MovesMakeRow(None, log[..start], vault);
    }
  }

  lemma BystanderStep(log: seq<ParsedEvent>, cursor: nat, market: Market, shard: Shard, batch: seq<ParsedEvent>,
                      vault: VaultKey)
    requires cursor <= |log| && !Owns(shard, vault)
    requires RowIsRight(log, cursor, market, vault)
    ensures RowIsRight(log, cursor, VaultStateBatch(market, shard, batch), vault)
  {
    hide Owns, Holders, MovesIn, VaultStateBatch, RowFold;
    BatchByRow(market, shard, batch, vault);
  }

  /** Positions of a vault that a batch does not mention stay as they are. */
  lemma {:induction false} OtherPositions(positions: Positions, events: seq<ParsedEvent>, vault: VaultKey)
    requires !MovesIn(events, vault)
    ensures Holders(PositionsAfter(positions, events), vault) == Holders(positions, vault)
    decreases |events|
  {
    if events != [] {
      assert !Moves(events[0], vault);
      var next := ApplyPosition(positions, events[0]);
      assert forall key: PositionKey :: key.vault == vault ==> Lookup(next, key) == Lookup(positions, key);
      SameHolders(next, positions, vault);
      forall event <- events[1..] ensures !Moves(event, vault) {
        assert event in events;
      }
      OtherPositions(next, events[1..], vault);
    }
  }

  lemma SameHolders(p: Positions, q: Positions, vault: VaultKey)
    requires forall key: PositionKey :: key.vault == vault ==> Lookup(p, key) == Lookup(q, key)
    ensures Holders(p, vault) == Holders(q, vault)
  {
    forall account ensures account in Holders(p, vault) <==> account in Holders(q, vault) {
      var key := PositionKey(vault, account);
      assert Lookup(p, key) == Lookup(q, key);
      assert account in Holders(p, vault) <==> key in p && p[key].shares > 0;
      assert account in Holders(q, vault) <==> key in q && q[key].shares > 0;
    }
  }

  lemma HoldersStep(log: seq<ParsedEvent>, cursor: nat, market: Market, start: nat, end: nat, vault: VaultKey)
    requires cursor <= |log| && start <= end <= |log|
    requires RowIsRight(log, cursor, market, vault)
    ensures RowIsRight(log, cursor, HoldersBatch(market, log[start..end]), vault)
  {
    hide Holders, RowFold, MovesIn;
    var batch := log[start..end];
    TouchedIffMoves(Shard((_, _) => 0, 0, 1), batch, vault);
    assert log == log[..start] + batch + log[end..];
    MovesInAppend(log[..start] + batch, log[end..], vault);
    MovesInAppend(log[..start], batch, vault);
    if !MovesIn(batch, vault) {
      OtherPositions(market.positions, batch, vault);
    }
  }

  lemma {:induction false} PositionsAppend(positions: Positions, front: seq<ParsedEvent>, back: seq<ParsedEvent>)
    ensures PositionsAfter(positions, front + back) == PositionsAfter(PositionsAfter(positions, front), back)
    decreases |front|
  {
    if front == [] {
      assert front + back == back;
    } else {
      assert (front + back)[1..] == front[1..] + back;
      PositionsAppend(ApplyPosition(positions, front[0]), front[1..], back);
    }
  }

  lemma StepKeepsCourse(hash: Hash, log: seq<ParsedEvent>, fleet: Fleet, step: Step)
    requires OnCourse(hash, log, fleet)
    ensures OnCourse(hash, log, Perform(hash, log, fleet, step))
  {
    hide RowIsRight, VaultStateBatch, HoldersBatch, Owner;
    var shards := |fleet.cursors|;
    var after := Perform(hash, log, fleet, step);
    match step
    case VaultState(shard, size) =>
      if shard < shards {
        var start, end := fleet.cursors[shard], after.cursors[shard];
        forall vault ensures RowIsRight(log, after.cursors[Owner(hash, vault, shards)], after.market, vault) {
          OnlyOwnerOwns(hash, vault, shard, shards);
          if Owner(hash, vault, shards) == shard {
            OwnerStep(log, start, end, fleet.market, Shard(hash, shard, shards), vault);
          } else {
            BystanderStep(log, fleet.cursors[Owner(hash, vault, shards)], fleet.market, Shard(hash, shard, shards),
                          log[start..end], vault);
          }
        }
        BatchByRow(fleet.market, Shard(hash, shard, shards), log[start..end], VaultKey("", BigDecimal(0, 0)));
      }
    case HoldersIndex(size) =>
      forall vault ensures RowIsRight(log, after.cursors[Owner(hash, vault, shards)], after.market, vault) {
        HoldersStep(log, fleet.cursors[Owner(hash, vault, shards)], fleet.market, fleet.holders, after.holders, vault);
      }
      HoldersPositions(log, fleet, after.holders);
  }

  lemma HoldersPositions(log: seq<ParsedEvent>, fleet: Fleet, end: nat)
    requires fleet.holders <= end <= |log|
    requires fleet.market.positions == PositionsAfter(map[], log[..fleet.holders])
    ensures HoldersBatch(fleet.market, log[fleet.holders..end]).positions == PositionsAfter(map[], log[..end])
  {
    PositionsAppend(map[], log[..fleet.holders], log[fleet.holders..end]);
    assert log[..end] == log[..fleet.holders] + log[fleet.holders..end];
  }

  lemma {:induction false} RunKeepsCourse(hash: Hash, log: seq<ParsedEvent>, fleet: Fleet, steps: seq<Step>)
    requires OnCourse(hash, log, fleet)
    ensures OnCourse(hash, log, Run(hash, log, fleet, steps))
    decreases |steps|
  {
    if steps != [] {
      StepKeepsCourse(hash, log, fleet, steps[0]);
      RunKeepsCourse(hash, log, Perform(hash, log, fleet, steps[0]), steps[1..]);
    }
  }

  lemma LaunchIsOnCourse(hash: Hash, log: seq<ParsedEvent>, shards: nat)
    requires shards > 0
    ensures OnCourse(hash, log, Launch(shards))
  {
    hide Owner, Holders;
    assert log[..0] == [];
  }

  /** The holder count is exact in every reachable state, from the moment the owner of the vault has
      passed its first deposit or redemption. */
  lemma HolderCountIsCurrent(hash: Hash, log: seq<ParsedEvent>, shards: nat, steps: seq<Step>, vault: VaultKey)
    requires shards > 0
    ensures var fleet := Run(hash, log, Launch(shards), steps);
            MovesIn(log[..fleet.cursors[Owner(hash, vault, shards)]], vault) && vault in fleet.market.vaults ==>
              fleet.market.vaults[vault].holderCount
              == |Holders(PositionsAfter(map[], log[..fleet.holders]), vault)|
  {
    hide Owner, Holders, MovesIn, RowFold;
    LaunchIsOnCourse(hash, log, shards);
    RunKeepsCourse(hash, log, Launch(shards), steps);
    var fleet := Run(hash, log, Launch(shards), steps);
    assert RowIsRight(log, fleet.cursors[Owner(hash, vault, |fleet.cursors|)], fleet.market, vault);
  }

  // ---- Before the owner has passed a deposit or a redemption

  /** Where the holders index was when the row of a vault appeared. */
  ghost function BornAt(hash: Hash, log: seq<ParsedEvent>, fleet: Fleet, steps: seq<Step>, vault: VaultKey)
    : (born: Option<nat>)
    requires InLog(log, fleet)
    decreases |steps|
  {
    if vault in fleet.market.vaults then Some(fleet.holders)
    else if steps == [] then None
    else BornAt(hash, log, Perform(hash, log, fleet, steps[0]), steps[1..], vault)
  }

  /** The count is kept up from the owner's first mover, or from the first mover that the holders index
      passes after the row appeared; until one of them it is 0. */
  ghost predicate CountIs(log: seq<ParsedEvent>, cursor: nat, market: Market, holders: nat, born: nat, vault: VaultKey)
    requires cursor <= |log| && born <= holders <= |log|
  {
    vault in market.vaults ==>
      market.vaults[vault].holderCount
      == if MovesIn(log[..cursor], vault) || MovesIn(log[born..holders], vault)
         then |Holders(market.positions, vault)| else 0
  }

  ghost predicate Counted(hash: Hash, log: seq<ParsedEvent>, fleet: Fleet, born: nat, vault: VaultKey) {
    && OnCourse(hash, log, fleet) && born <= fleet.holders && vault in fleet.market.vaults
    && CountIs(log, fleet.cursors[Owner(hash, vault, |fleet.cursors|)], fleet.market, fleet.holders, born, vault)
  }

  lemma RowMade(log: seq<ParsedEvent>, start: nat, end: nat, market: Market, shard: Shard, holders: nat,
                vault: VaultKey)
    requires start <= end <= |log| && holders <= |log| && Owns(shard, vault) && vault !in market.vaults
    requires RowIsRight(log, start, market, vault)
    ensures CountIs(log, end, VaultStateBatch(market, shard, log[start..end]), holders, holders, vault)
  {
    hide Owns, Holders, VaultStateBatch;
    var batch := log[start..end];
    BatchByRow(market, shard, batch, vault);
    assert log[..end] == log[..start] + batch;
    MovesInAppend(log[..start], batch, vault);
    if MovesIn(log[..start], vault) {
      MovesMakeRow(None, log[..start], vault);
    }
    hide MovesIn;
    NoMoves(log[holders..holders], vault);
    RowFoldHolders(None, vault, batch, 0);
  }

  lemma NoMoves(events: seq<ParsedEvent>, vault: VaultKey)
    requires events == []
    ensures !MovesIn(events, vault)
  {
  }

  lemma OwnerCounts(log: seq<ParsedEvent>, start: nat, end: nat, market: Market, shard: Shard, holders: nat, born: nat,
                    vault: VaultKey)
    requires start <= end <= |log| && born <= holders <= |log| && Owns(shard, vault) && vault in market.vaults
    requires CountIs(log, start, market, holders, born, vault)
    ensures var after := VaultStateBatch(market, shard, log[start..end]);
            vault in after.vaults && CountIs(log, end, after, holders, born, vault)
  {
    hide Owns, Holders, VaultStateBatch, MovesIn;
    var batch := log[start..end];
    BatchByRow(market, shard, batch, vault);
    assert log[..end] == log[..start] + batch;
    MovesInAppend(log[..start], batch, vault);
    RowFoldHolders(Lookup(market.vaults, vault), vault, batch, 0);
  }

  lemma BystanderCounts(log: seq<ParsedEvent>, cursor: nat, market: Market, shard: Shard, batch: seq<ParsedEvent>,
                        holders: nat, born: nat, vault: VaultKey)
    requires cursor <= |log| && born <= holders <= |log| && !Owns(shard, vault)
    ensures var after := VaultStateBatch(market, shard, batch);
            && (vault in after.vaults <==> vault in market.vaults)
            && (CountIs(log, cursor, market, holders, born, vault) ==>
                  CountIs(log, cursor, after, holders, born, vault))
  {
    hide Owns, Holders, MovesIn, VaultStateBatch, RowFold;
    BatchByRow(market, shard, batch, vault);
  }

  lemma HoldersCount(log: seq<ParsedEvent>, cursor: nat, market: Market, start: nat, end: nat, born: nat,
                     vault: VaultKey)
    requires cursor <= |log| && born <= start <= end <= |log| && vault in market.vaults
    requires CountIs(log, cursor, market, start, born, vault)
    ensures CountIs(log, cursor, HoldersBatch(market, log[start..end]), end, born, vault)
  {
    hide Holders, RowFold, MovesIn;
    var batch := log[start..end];
    TouchedIffMoves(Shard((_, _) => 0, 0, 1), batch, vault);
    assert log[born..end] == log[born..start] + batch;
    MovesInAppend(log[born..start], batch, vault);
    if !MovesIn(batch, vault) {
      OtherPositions(market.positions, batch, vault);
    }
  }

  lemma StepKeepsCounted(hash: Hash, log: seq<ParsedEvent>, fleet: Fleet, step: Step, born: nat, vault: VaultKey)
    requires Counted(hash, log, fleet, born, vault)
    ensures Counted(hash, log, Perform(hash, log, fleet, step), born, vault)
  {
    hide OnCourse, VaultStateBatch, Owner, CountIs, Owns;
    StepKeepsCourse(hash, log, fleet, step);
    CourseInLog(hash, log, fleet);
    var shards := |fleet.cursors|;
    var after := Perform(hash, log, fleet, step);
    match step
    case VaultState(shard, size) =>
      if shard < shards {
        OnlyOwnerOwns(hash, vault, shard, shards);
        var start, end := fleet.cursors[shard], after.cursors[shard];
        if Owner(hash, vault, shards) == shard {
          OwnerCounts(log, start, end, fleet.market, Shard(hash, shard, shards), fleet.holders, born, vault);
        } else {
          BystanderCounts(log, fleet.cursors[Owner(hash, vault, shards)], fleet.market, Shard(hash, shard, shards),
                          log[start..end], fleet.holders, born, vault);
        }
      }
    case HoldersIndex(size) =>
      HoldersCount(log, fleet.cursors[Owner(hash, vault, shards)], fleet.market, fleet.holders, after.holders, born,
                   vault);
  }

  lemma CourseInLog(hash: Hash, log: seq<ParsedEvent>, fleet: Fleet)
    requires OnCourse(hash, log, fleet)
    ensures InLog(log, fleet)
    ensures forall vault ::
              RowIsRight(log, fleet.cursors[Owner(hash, vault, |fleet.cursors|)], fleet.market, vault)
  {
  }

  lemma StepMayMakeRow(hash: Hash, log: seq<ParsedEvent>, fleet: Fleet, step: Step, vault: VaultKey)
    requires OnCourse(hash, log, fleet) && vault !in fleet.market.vaults
    ensures var after := Perform(hash, log, fleet, step);
            vault in after.market.vaults ==> Counted(hash, log, after, after.holders, vault)
  {
    hide OnCourse, VaultStateBatch, Owner, CountIs, Owns, RowIsRight;
    StepKeepsCourse(hash, log, fleet, step);
    CourseInLog(hash, log, fleet);
    var shards := |fleet.cursors|;
    var after := Perform(hash, log, fleet, step);
    match step
    case VaultState(shard, size) =>
      if shard < shards {
        OnlyOwnerOwns(hash, vault, shard, shards);
        var start, end := fleet.cursors[shard], after.cursors[shard];
        if Owner(hash, vault, shards) == shard {
          RowMade(log, start, end, fleet.market, Shard(hash, shard, shards), fleet.holders, vault);
        } else {
          BystanderCounts(log, fleet.cursors[Owner(hash, vault, shards)], fleet.market, Shard(hash, shard, shards),
                          log[start..end], fleet.holders, fleet.holders, vault);
        }
      }
    case HoldersIndex(size) =>
  }

  lemma {:induction false} RunKeepsCounted(hash: Hash, log: seq<ParsedEvent>, fleet: Fleet, steps: seq<Step>, born: nat,
                                           vault: VaultKey)
    requires Counted(hash, log, fleet, born, vault)
    ensures Counted(hash, log, Run(hash, log, fleet, steps), born, vault)
    decreases |steps|
  {
    if steps != [] {
      StepKeepsCounted(hash, log, fleet, steps[0], born, vault);
      RunKeepsCounted(hash, log, Perform(hash, log, fleet, steps[0]), steps[1..], born, vault);
    }
  }

  lemma {:induction false} RunCounts(hash: Hash, log: seq<ParsedEvent>, fleet: Fleet, steps: seq<Step>, vault: VaultKey)
    requires OnCourse(hash, log, fleet) && vault !in fleet.market.vaults
    requires vault in Run(hash, log, fleet, steps).market.vaults
    ensures BornAt(hash, log, fleet, steps, vault).Some?
    ensures Counted(hash, log, Run(hash, log, fleet, steps), BornAt(hash, log, fleet, steps, vault).value, vault)
    decreases |steps|
  {
    var next := Perform(hash, log, fleet, steps[0]);
    StepMayMakeRow(hash, log, fleet, steps[0], vault);
    StepKeepsCourse(hash, log, fleet, steps[0]);
    if vault in next.market.vaults {
      RunKeepsCounted(hash, log, next, steps[1..], next.holders, vault);
    } else {
      RunCounts(hash, log, next, steps[1..], vault);
    }
  }

  /** In every reachable state with the row: the stored count is the current one exactly when the owner has
      passed a mover, or the holders index has since the row appeared, or nobody holds shares; otherwise it
      is 0. */
  lemma HolderCountIsExact(hash: Hash, log: seq<ParsedEvent>, shards: nat, steps: seq<Step>, vault: VaultKey)
    requires shards > 0 && vault in Run(hash, log, Launch(shards), steps).market.vaults
    ensures BornAt(hash, log, Launch(shards), steps, vault).Some?
    ensures var fleet := Run(hash, log, Launch(shards), steps);
            var born := BornAt(hash, log, Launch(shards), steps, vault).value;
            var count, holders := fleet.market.vaults[vault].holderCount, Holders(fleet.market.positions, vault);
            && born <= fleet.holders
            && (count == |holders| <==>
                || MovesIn(log[..fleet.cursors[Owner(hash, vault, shards)]], vault)
                || MovesIn(log[born..fleet.holders], vault)
                || holders == {})
            && (count == 0 || count == |holders|)
  {
    hide Owner, Holders, MovesIn, OnCourse, Run, BornAt;
    LaunchIsOnCourse(hash, log, shards);
    RunCounts(hash, log, Launch(shards), steps, vault);
    NotEmpty(Holders(Run(hash, log, Launch(shards), steps).market.positions, vault));
  }

  lemma NotEmpty(accounts: set<string>)
    ensures |accounts| == 0 <==> accounts == {}
  {
  }

  // ---- market.events

  /** No two logs have the same time, transaction and index. */
  predicate DistinctKeys(log: seq<ParsedEvent>) {
    forall i, j :: 0 <= i < j < |log| ==> EventKeyOf(log[i]) != EventKeyOf(log[j])
  }

  predicate Counts(shard: Shard, event: ParsedEvent) {
    !event.Other? && Owns(shard, event.vault)
  }

  /** The row that a batch of a shard has for a key. */
  function FirstRow(shard: Shard, events: seq<ParsedEvent>, key: EventKey): Option<EventRow>
    decreases |events|
  {
    if events == [] then None
    else if Counts(shard, events[0]) && EventKeyOf(events[0]) == key then Some(EventRowOf(events[0]))
    else FirstRow(shard, events[1..], key)
  }

  lemma {:induction false} ApplyAllByEvent(market: Market, shard: Shard, events: seq<ParsedEvent>, key: EventKey)
    ensures Lookup(ApplyAll(market, shard, events).events, key)
         == if key in market.events then Some(market.events[key]) else FirstRow(shard, events, key)
    decreases |events|
  {
    if events != [] {
      hide Owns, EventKeyOf, EventRowOf;
      ApplyAllByEvent(ApplyToMarket(market, shard, events[0]), shard, events[1..], key);
    }
  }

  lemma {:induction false} FirstRowIs(shard: Shard, events: seq<ParsedEvent>, key: EventKey)
    ensures FirstRow(shard, events, key).Some? ==>
              exists i :: 0 <= i < |events| && Counts(shard, events[i]) && EventKeyOf(events[i]) == key
                          && FirstRow(shard, events, key) == Some(EventRowOf(events[i]))
    decreases |events|
  {
    if FirstRow(shard, events, key).Some? {
      hide Owns, EventKeyOf, EventRowOf;
      if Counts(shard, events[0]) && EventKeyOf(events[0]) == key {
        assert FirstRow(shard, events, key) == Some(EventRowOf(events[0]));
      } else {
        FirstRowIs(shard, events[1..], key);
        var i :| 0 <= i < |events[1..]| && Counts(shard, events[1..][i]) && EventKeyOf(events[1..][i]) == key
                 && FirstRow(shard, events[1..], key) == Some(EventRowOf(events[1..][i]));
        assert events[i + 1] == events[1..][i];
      }
    }
  }

  lemma {:induction false} FirstRowOf(shard: Shard, events: seq<ParsedEvent>, i: nat)
    requires i < |events| && DistinctKeys(events) && Counts(shard, events[i])
    ensures FirstRow(shard, events, EventKeyOf(events[i])) == Some(EventRowOf(events[i]))
    decreases |events|
  {
    if i > 0 {
      hide Owns, EventKeyOf, EventRowOf;
      assert EventKeyOf(events[0]) != EventKeyOf(events[i]);
      assert forall j :: 0 <= j < |events[1..]| ==> events[1..][j] == events[j + 1];
      FirstRowOf(shard, events[1..], i - 1);
    }
  }

  /** The owner of the event's vault has passed the event. */
  predicate Passed(hash: Hash, log: seq<ParsedEvent>, cursors: seq<nat>, i: nat)
    requires i < |log| && cursors != []
  {
    !log[i].Other? && i < cursors[Owner(hash, log[i].vault, |cursors|)]
  }

  /** The rows are those of the events that their owners have passed. */
  ghost predicate EventsAreRight(hash: Hash, log: seq<ParsedEvent>, cursors: seq<nat>, events: EventRows)
    requires cursors != []
  {
    && (forall i: nat :: i < |log| && Passed(hash, log, cursors, i) ==>
          EventKeyOf(log[i]) in events && events[EventKeyOf(log[i])] == EventRowOf(log[i]))
    && (forall key <- events ::
          exists i: nat :: i < |log| && Passed(hash, log, cursors, i) && EventKeyOf(log[i]) == key)
  }

  /** A row that is there stays; a new one is that of its event. */
  lemma PassedStays(hash: Hash, log: seq<ParsedEvent>, cursors: seq<nat>, shard: nat, end: nat, market: Market, i: nat)
    requires shard < |cursors| && cursors[shard] <= end <= |log| && DistinctKeys(log) && i < |log|
    requires EventsAreRight(hash, log, cursors, market.events)
    requires Passed(hash, log, cursors[shard := end], i)
    ensures var after := ApplyAll(market, Shard(hash, shard, |cursors|), log[cursors[shard]..end]).events;
            EventKeyOf(log[i]) in after && after[EventKeyOf(log[i])] == EventRowOf(log[i])
  {
    hide Owner, Owns, EventKeyOf, EventRowOf, ApplyAll;
    var one, batch, key := Shard(hash, shard, |cursors|), log[cursors[shard]..end], EventKeyOf(log[i]);
    ApplyAllByEvent(market, one, batch, key);
    if key in market.events {
      var j: nat :| j < |log| && Passed(hash, log, cursors, j) && EventKeyOf(log[j]) == key;
      assert j == i;
    } else {
      assert !Passed(hash, log, cursors, i);
      OnlyOwnerOwns(hash, log[i].vault, shard, |cursors|);
      assert batch[i - cursors[shard]] == log[i];
      SliceDistinct(log, cursors[shard], end);
      FirstRowOf(one, batch, i - cursors[shard]);
    }
  }

  lemma SliceDistinct(log: seq<ParsedEvent>, start: nat, end: nat)
    requires start <= end <= |log| && DistinctKeys(log)
    ensures DistinctKeys(log[start..end])
  {
    hide EventKeyOf;
  }

  lemma RowHasPassed(hash: Hash, log: seq<ParsedEvent>, cursors: seq<nat>, shard: nat, end: nat, market: Market,
                     key: EventKey) returns (i: nat)
    requires shard < |cursors| && cursors[shard] <= end <= |log|
    requires EventsAreRight(hash, log, cursors, market.events)
    requires key in ApplyAll(market, Shard(hash, shard, |cursors|), log[cursors[shard]..end]).events
    ensures i < |log| && Passed(hash, log, cursors[shard := end], i) && EventKeyOf(log[i]) == key
  {
    hide Owner, Owns, EventKeyOf, EventRowOf, ApplyAll, FirstRow;
    var one, batch := Shard(hash, shard, |cursors|), log[cursors[shard]..end];
    ApplyAllByEvent(market, one, batch, key);
    if key in market.events {
      i :| i < |log| && Passed(hash, log, cursors, i) && EventKeyOf(log[i]) == key;
    } else {
      FirstRowIs(one, batch, key);
      var j: nat :| j < |batch| && Counts(one, batch[j]) && EventKeyOf(batch[j]) == key;
      i := cursors[shard] + j;
      assert log[i] == batch[j];
      OnlyOwnerOwns(hash, log[i].vault, shard, |cursors|);
    }
  }

  lemma BatchKeepsEvents(hash: Hash, log: seq<ParsedEvent>, cursors: seq<nat>, shard: nat, end: nat, market: Market)
    requires shard < |cursors| && cursors[shard] <= end <= |log| && DistinctKeys(log)
    requires EventsAreRight(hash, log, cursors, market.events)
    ensures EventsAreRight(hash, log, cursors[shard := end],
                           VaultStateBatch(market, Shard(hash, shard, |cursors|), log[cursors[shard]..end]).events)
  {
    hide Owner, EventKeyOf, EventRowOf, ApplyAll, Touched, Refreshed, DistinctKeys;
    var after := ApplyAll(market, Shard(hash, shard, |cursors|), log[cursors[shard]..end]).events;
    forall i: nat | i < |log| && Passed(hash, log, cursors[shard := end], i)
      ensures EventKeyOf(log[i]) in after && after[EventKeyOf(log[i])] == EventRowOf(log[i])
    {
      PassedStays(hash, log, cursors, shard, end, market, i);
    }
    forall key <- after
      ensures exists i: nat :: i < |log| && Passed(hash, log, cursors[shard := end], i) && EventKeyOf(log[i]) == key
    {
      var i := RowHasPassed(hash, log, cursors, shard, end, market, key);
    }
  }

  lemma {:induction false} RunKeepsEvents(hash: Hash, log: seq<ParsedEvent>, fleet: Fleet, steps: seq<Step>)
    requires InLog(log, fleet) && DistinctKeys(log)
    requires EventsAreRight(hash, log, fleet.cursors, fleet.market.events)
    ensures EventsAreRight(hash, log, Run(hash, log, fleet, steps).cursors, Run(hash, log, fleet, steps).market.events)
    decreases |steps|
  {
    if steps != [] {
      hide EventsAreRight, DistinctKeys, VaultStateBatch;
      match steps[0] {
        case VaultState(shard, size) =>
          if shard < |fleet.cursors| {
            BatchKeepsEvents(hash, log, fleet.cursors, shard, Next(log, fleet.cursors[shard], size), fleet.market);
          }
        case HoldersIndex(size) =>
      }
      RunKeepsEvents(hash, log, Perform(hash, log, fleet, steps[0]), steps[1..]);
    }
  }

  lemma NothingPassed(hash: Hash, log: seq<ParsedEvent>, cursors: seq<nat>)
    requires cursors != [] && forall i :: 0 <= i < |cursors| ==> cursors[i] == 0
    ensures EventsAreRight(hash, log, cursors, map[])
  {
    hide Owner;
  }

  /** At the end of the log the rows no longer depend on who wrote them. */
  lemma RightEventsAreUnique(hash: Hash, log: seq<ParsedEvent>, few: seq<nat>, many: seq<nat>,
                             x: EventRows, y: EventRows)
    requires few != [] && many != []
    requires forall i :: 0 <= i < |few| ==> few[i] == |log|
    requires forall i :: 0 <= i < |many| ==> many[i] == |log|
    requires EventsAreRight(hash, log, few, x) && EventsAreRight(hash, log, many, y)
    ensures x == y
  {
    hide Owner, EventKeyOf, EventRowOf;
    assert forall i: nat :: i < |log| ==> (Passed(hash, log, few, i) <==> Passed(hash, log, many, i));
    forall key ensures (key in x <==> key in y) && (key in x ==> x[key] == y[key]) {
      if key in x {
        var i: nat :| i < |log| && Passed(hash, log, few, i) && EventKeyOf(log[i]) == key;
        assert Passed(hash, log, many, i);
      }
      if key in y {
        var i: nat :| i < |log| && Passed(hash, log, many, i) && EventKeyOf(log[i]) == key;
        assert Passed(hash, log, few, i);
      }
    }
  }

  lemma SequentialEvents(hash: Hash, log: seq<ParsedEvent>)
    requires DistinctKeys(log)
    ensures EventsAreRight(hash, log, [|log|], Sequential(hash, log).events)
  {
    hide EventsAreRight, DistinctKeys, VaultStateBatch;
    NothingPassed(hash, log, [0]);
    assert log[0..|log|] == log && [0][0 := |log|] == [|log|];
    BatchKeepsEvents(hash, log, [0], 0, |log|, HoldersBatch(EMPTY_MARKET, log));
  }

  lemma DrainedEvents(hash: Hash, log: seq<ParsedEvent>, shards: nat, steps: seq<Step>)
    requires shards > 0 && DistinctKeys(log) && Drained(log, Run(hash, log, Launch(shards), steps))
    ensures Run(hash, log, Launch(shards), steps).market.events == Sequential(hash, log).events
  {
    hide EventsAreRight, DistinctKeys, Sequential, Run;
    NothingPassed(hash, log, Launch(shards).cursors);
    RunKeepsEvents(hash, log, Launch(shards), steps);
    SequentialEvents(hash, log);
    var fleet := Run(hash, log, Launch(shards), steps);
    RightEventsAreUnique(hash, log, fleet.cursors, [|log|], fleet.market.events, Sequential(hash, log).events);
  }

  // ---- Drained

  /** One unsharded worker over the whole log, after the holders index. */
  function Sequential(hash: Hash, log: seq<ParsedEvent>): Market {
    VaultStateBatch(HoldersBatch(EMPTY_MARKET, log), Shard(hash, 0, 1), log)
  }

  /** Whatever the number of shards, the hash, the batches and the interleaving, once all workers are
      through the log the vaults and the positions are those of one sequential pass; and so are the event
      rows, since logs have distinct keys. */
  lemma ShardedIsSequential(hash: Hash, log: seq<ParsedEvent>, shards: nat, steps: seq<Step>)
    requires shards > 0 && Drained(log, Run(hash, log, Launch(shards), steps))
    ensures var market := Run(hash, log, Launch(shards), steps).market;
            && market.vaults == Sequential(hash, log).vaults
            && market.positions == Sequential(hash, log).positions
            && (DistinctKeys(log) ==> market.events == Sequential(hash, log).events)
  {
    hide OnCourse, Sequential, RowIsRight, Owner, DistinctKeys;
    var fleet := Run(hash, log, Launch(shards), steps);
    LaunchIsOnCourse(hash, log, shards);
    RunKeepsCourse(hash, log, Launch(shards), steps);
    DrainedRows(hash, log, fleet);
    SequentialIsRight(hash, log);
    forall vault ensures Lookup(fleet.market.vaults, vault) == Lookup(Sequential(hash, log).vaults, vault) {
      RightRowIsUnique(log, fleet.market, Sequential(hash, log), vault);
    }
    SameTable(fleet.market.vaults, Sequential(hash, log).vaults);
    if DistinctKeys(log) {
      DrainedEvents(hash, log, shards, steps);
    }
  }

  lemma DrainedRows(hash: Hash, log: seq<ParsedEvent>, fleet: Fleet)
    requires OnCourse(hash, log, fleet) && Drained(log, fleet)
    ensures forall vault :: RowIsRight(log, |log|, fleet.market, vault)
    ensures fleet.market.positions == PositionsAfter(map[], log)
  {
    hide RowIsRight, Owner;
    assert log[..|log|] == log;
    forall vault ensures RowIsRight(log, |log|, fleet.market, vault) {
      assert fleet.cursors[Owner(hash, vault, |fleet.cursors|)] == |log|;
    }
  }

  lemma SequentialIsRight(hash: Hash, log: seq<ParsedEvent>)
    ensures Sequential(hash, log).positions == PositionsAfter(map[], log)
    ensures forall vault :: RowIsRight(log, |log|, Sequential(hash, log), vault)
  {
    hide RowIsRight, VaultStateBatch, Owner, Holders;
    var held := HoldersBatch(EMPTY_MARKET, log);
    assert log[..|log|] == log && log[0..|log|] == log;
    forall vault ensures RowIsRight(log, |log|, Sequential(hash, log), vault) {
      NothingYet(log, vault, held);
      OwnerStep(log, 0, |log|, held, Shard(hash, 0, 1), vault);
    }
    BatchByRow(held, Shard(hash, 0, 1), log, VaultKey("", BigDecimal(0, 0)));
  }

  lemma NothingYet(log: seq<ParsedEvent>, vault: VaultKey, market: Market)
    requires market.vaults == map[]
    ensures RowIsRight(log, 0, market, vault)
  {
    assert log[..0] == [];
  }

  lemma RightRowIsUnique(log: seq<ParsedEvent>, x: Market, y: Market, vault: VaultKey)
    requires RowIsRight(log, |log|, x, vault) && RowIsRight(log, |log|, y, vault) && x.positions == y.positions
    ensures Lookup(x.vaults, vault) == Lookup(y.vaults, vault)
  {
    hide MovesIn, RowFold, Holders;
    assert log[..|log|] == log;
    var r, s := Lookup(x.vaults, vault), Lookup(y.vaults, vault);
    assert WithHolders(r, 0) == WithHolders(s, 0);
    if r.Some? {
      assert r.value.holderCount == s.value.holderCount;
    }
  }

  lemma SameTable<K, V>(x: map<K, V>, y: map<K, V>)
    requires forall key :: Lookup(x, key) == Lookup(y, key)
    ensures x == y
  {
    forall key ensures key in x <==> key in y {
      assert Lookup(x, key) == Lookup(y, key);
    }
    forall key | key in x ensures x[key] == y[key] {
      assert Lookup(x, key) == Lookup(y, key);
    }
  }

  /** Before that moment it may lag: a price event creates the row and nobody counts. */
  lemma PriceRowLagsBehind(hash: Hash, price: ParsedEvent, deposit: ParsedEvent)
    requires price.SharePriceChanged? && deposit.Deposited? && deposit.vault == price.vault && deposit.shares > 0
    ensures var fleet := Run(hash, [price, deposit], Launch(1), [HoldersIndex(2), VaultState(0, 1)]);
            && price.vault in fleet.market.vaults && fleet.market.vaults[price.vault].holderCount == 0
            && Holders(fleet.market.positions, price.vault) == {deposit.receiver}
  {
    var log, vault := [price, deposit], price.vault;
    var counted := Perform(hash, log, Launch(1), HoldersIndex(2));
    assert log[0..2] == log && log[1..] == [deposit] && log[0..1] == [price];
    assert PositionsAfter(map[], log) == PositionsAfter(map[], [deposit]) == ApplyPosition(map[], deposit) by {
      assert [deposit][1..] == [];
    }
    assert counted.market.positions
        == map[PositionKey(vault, deposit.receiver) := PositionRow(deposit.shares, deposit.assetsAfterFees, 0)];
    var fleet := Perform(hash, log, counted, VaultState(0, 1));
    assert Touched(Shard(hash, 0, 1), [price]) == {};
    assert ApplyAll(counted.market, Shard(hash, 0, 1), [price])
        == ApplyToMarket(counted.market, Shard(hash, 0, 1), price);
    assert Run(hash, log, Launch(1), [HoldersIndex(2), VaultState(0, 1)]) == fleet;
  }

  // ---- The batches as they are processed

  function MarketOf(repo: KgMarketRepo): Market
    reads repo
  {
    Market(repo.vaults, repo.positions, repo.events)
  }

  class VaultStateDualProjection {
    const shardId: nat
    const totalShards: nat
    const hash: Hash

    constructor (hash: Hash, shardId: nat, totalShards: nat)
      ensures this.hash == hash && this.shardId == shardId && this.totalShards == totalShards
    {
      this.hash, this.shardId, this.totalShards := hash, shardId, totalShards;
    }

    predicate ShouldSkipShard(vault: VaultKey) {
      totalShards > 1
      && !BelongsToShard(hash, vault.termId, CanonicalShardKey(vault.curveId), shardId, totalShards)
    }

    method ProcessParsedBatch(repo: KgMarketRepo, events: seq<ParsedEvent>)
      modifies repo
      ensures MarketOf(repo) == VaultStateBatch(old(MarketOf(repo)), Shard(hash, shardId, totalShards), events)
    {
      hide Touched, CanonicalShardKey, EventKeyOf;
      ghost var shard := Shard(hash, shardId, totalShards);
      var touched: set<VaultKey> := {};
      assert Touched(shard, events[..0]) == {} by {
        TouchedNothing(shard);
        assert events[..0] == [];
      }
      for i := 0 to |events|
        invariant touched == Touched(shard, events[..i])
        invariant ApplyAll(MarketOf(repo), shard, events[i..]) == ApplyAll(old(MarketOf(repo)), shard, events)
      {
        var event := events[i];
        assert events[..i + 1] == events[..i] + [event] && events[i..] == [event] + events[i + 1..];
        TouchedMore(shard, events[..i], event);
        ghost var before := MarketOf(repo);
        if !event.Other? && !ShouldSkipShard(event.vault) {
          match event {
            case Deposited(_, vault, _, assetsAfterFees, _) =>
              touched := touched + {vault};
              repo.UpsertVaultOnDeposit(vault, assetsAfterFees);
            case Redeemed(_, vault, _, assets, _) =>
              touched := touched + {vault};
              repo.UpsertVaultOnRedeem(vault, assets);
            case SharePriceChanged(_, vault, sharePrice, totalAssets, totalShares, marketCap) =>
              repo.UpdateVaultPrice(vault, sharePrice, totalAssets, totalShares, marketCap);
          }
          repo.InsertMarketEvent(event);
        }
        assert MarketOf(repo) == ApplyToMarket(before, shard, event);
      }
      assert events[..|events|] == events;
      RefreshEach(repo, touched);
    }
  }

  lemma TouchedNothing(shard: Shard)
    ensures Touched(shard, []) == {}
  {
  }

  lemma TouchedMore(shard: Shard, events: seq<ParsedEvent>, event: ParsedEvent)
    ensures Touched(shard, events + [event])
         == Touched(shard, events)
            + if (event.Deposited? || event.Redeemed?) && Owns(shard, event.vault) then {event.vault} else {}
  {
    hide Owns;
  }

  /** The loop over the touched vaults, in whatever order the hash set gives them. */
  method RefreshEach(repo: KgMarketRepo, touched: set<VaultKey>)
    modifies repo`vaults
    ensures repo.vaults == Refreshed(old(repo.vaults), repo.positions, touched)
  {
    var rest := touched;
    while rest != {}
      invariant rest <= touched
      invariant repo.vaults == Refreshed(old(repo.vaults), repo.positions, touched - rest)
      decreases rest
    {
      var vault :| vault in rest;
      repo.RefreshHolderCount(vault);
      rest := rest - {vault};
    }
    assert touched - rest == touched;
  }

  class VaultHoldersIndexDualProjection {
    constructor () {
    }

    method ProcessParsedBatch(repo: KgMarketRepo, events: seq<ParsedEvent>)
      modifies repo
      ensures MarketOf(repo) == HoldersBatch(old(MarketOf(repo)), events)
    {
      var touched: set<VaultKey> := {};
      for i := 0 to |events|
        invariant touched == Moved(events[..i])
        invariant PositionsAfter(repo.positions, events[i..]) == PositionsAfter(old(repo.positions), events)
        invariant repo.vaults == old(repo.vaults) && repo.events == old(repo.events)
      {
        var event := events[i];
        assert events[..i + 1] == events[..i] + [event] && events[i..] == [event] + events[i + 1..];
        ghost var before := repo.positions;
        match event {
          case Deposited(_, vault, receiver, assetsAfterFees, shares) =>
            touched := touched + {vault};
            repo.UpsertPositionOnDeposit(PositionKey(vault, receiver), shares, assetsAfterFees);
          case Redeemed(_, vault, sender, assets, shares) =>
            touched := touched + {vault};
            var key := PositionKey(vault, sender);
            repo.DecrementPositionOnRedeem(key, shares, assets);
            repo.PruneZeroPositions(key);
            PutIsUnique(before, repo.positions, key);
          case SharePriceChanged(_, _, _, _, _, _) =>
          case Other(_) =>
        }
        assert repo.positions == ApplyPosition(before, event);
      }
      assert events[..|events|] == events;
      RefreshEach(repo, touched);
    }
  }

  lemma PutIsUnique<K, V>(before: map<K, V>, after: map<K, V>, key: K)
    requires after - {key} == before - {key}
    ensures after == Put(before, key, Lookup(after, key))
  {
    forall other ensures other in after <==> other in Put(before, key, Lookup(after, key)) {
      assert other != key ==> (other in after - {key} <==> other in before - {key});
    }
    forall other | other in after && other != key ensures other in before && after[other] == before[other] {
      assert (after - {key})[other] == (before - {key})[other];
    }
  }
}
