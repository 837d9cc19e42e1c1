/**
 The `market` schema and the statements on it (`crates/projections/src/repo/kg_market_repo.rs`).
 Every vault statement is a function of the one row it addresses. Amounts are exact integers;
 columns set by NOW() are left out.
 */
module KgMarket {
  import opened Wrappers
  import opened ShardKey

  /** The text of a decimal curve id shows its digits and its scale if the scale is not negative, so such an
      id is kept as a decimal. How a negative scale is printed is left out. */
  datatype VaultKey = VaultKey(termId: string, curveId: BigDecimal)

  /** `totalAssets` is None while no price was recorded: the column keeps its default. */
  datatype VaultRow = VaultRow(
    totalShares: int, totalDeposits: int, totalRedemptions: int, sharePrice: int,
    totalAssets: Option<int>, marketCap: int, holderCount: nat)

  datatype PositionKey = PositionKey(vault: VaultKey, account: string)

  datatype PositionRow = PositionRow(shares: int, totalDeposits: int, totalRedemptions: int)

  /** The id text is the transaction hash and the log index, joined by a colon. */
  datatype EventKey = EventKey(eventTime: int, transactionHash: string, logIndex: int)

  datatype Direction = In | Out

  datatype EventRow = EventRow(
    termId: string, account: Option<string>, amount: Option<nat>, price: Option<nat>, shares: nat,
    direction: Option<Direction>)

  type Vaults = map<VaultKey, VaultRow>
  type Positions = map<PositionKey, PositionRow>
  type EventRows = map<EventKey, EventRow>

  function Lookup<K, V>(table: map<K, V>, key: K): Option<V> {
    if key in table then Some(table[key]) else None
  }

  // ---- The events a projection gets

  datatype Metadata = Metadata(sequence: nat, blockNumber: int, transactionHash: string, logIndex: int,
                               blockTimestamp: int)

  /** Deposits are credited to the receiver, redemptions debited from the sender. */
  datatype ParsedEvent =
    | Deposited(metadata: Metadata, vault: VaultKey, receiver: string, assetsAfterFees: nat, shares: nat)
    | Redeemed(metadata: Metadata, vault: VaultKey, sender: string, assets: nat, shares: nat)
    | SharePriceChanged(metadata: Metadata, vault: VaultKey, sharePrice: nat, totalAssets: nat, totalShares: nat,
                        marketCap: nat)
    | Other(metadata: Metadata)

  function EventKeyOf(event: ParsedEvent): EventKey {
    EventKey(event.metadata.blockTimestamp, event.metadata.transactionHash, event.metadata.logIndex)
  }

  // ---- market.vaults

  const NO_VAULT := VaultRow(0, 0, 0, 0, None, 0, 0)

  /** INSERT … ON CONFLICT DO UPDATE on deposit. */
  function VaultOnDeposit(row: Option<VaultRow>, assetsAfterFees: nat): VaultRow {
    match row
    case None => NO_VAULT.(totalDeposits := assetsAfterFees)
    case Some(vault) => vault.(totalDeposits := vault.totalDeposits + assetsAfterFees)
  }

  /** On redemption; a new row starts with no deposits, not with minus the assets. */
  function VaultOnRedeem(row: Option<VaultRow>, assets: nat): VaultRow {
    match row
    case None => NO_VAULT.(totalRedemptions := assets)
    case Some(vault) =>
      vault.(totalDeposits := vault.totalDeposits - assets, totalRedemptions := vault.totalRedemptions + assets)
  }

  function VaultOnPrice(row: Option<VaultRow>, sharePrice: nat, totalAssets: nat, totalShares: nat, marketCap: nat)
    : VaultRow
  {
    var vault := match row case None => NO_VAULT case Some(vault) => vault;
    vault.(sharePrice := sharePrice, totalAssets := Some(totalAssets), totalShares := totalShares,
           marketCap := marketCap)
  }

  // ---- market.active_vault_position

  function PositionOnDeposit(row: Option<PositionRow>, shares: nat, deposits: nat): PositionRow {
    match row
    case None => PositionRow(shares, deposits, 0)
    case Some(position) =>
      position.(shares := position.shares + shares, totalDeposits := position.totalDeposits + deposits)
  }

  /** UPDATE: nothing happens without a row. */
  function PositionOnRedeem(row: Option<PositionRow>, shares: nat, redemptions: nat): Option<PositionRow> {
    match row
    case None => None
    case Some(position) =>
      Some(position.(shares := position.shares - shares,
                     totalRedemptions := position.totalRedemptions + redemptions))
  }

  /** DELETE … AND shares <= 0. */
  function Pruned(row: Option<PositionRow>): Option<PositionRow> {
    if row.Some? && row.value.shares <= 0 then None else row
  }

  function Holders(positions: Positions, vault: VaultKey): set<string> {
    set key <- positions | key.vault == vault && positions[key].shares > 0 :: key.account
  }

  // ---- market.events

  function EventRowOf(event: ParsedEvent): EventRow
    requires !event.Other?
  {
    match event
    case Deposited(_, vault, receiver, assetsAfterFees, shares) =>
      EventRow(vault.termId, Some(receiver), Some(assetsAfterFees), None, shares, Some(In))
    case Redeemed(_, vault, sender, assets, shares) =>
      EventRow(vault.termId, Some(sender), Some(assets), None, shares, Some(Out))
    case SharePriceChanged(_, vault, sharePrice, _, totalShares, _) =>
      EventRow(vault.termId, None, None, Some(sharePrice), totalShares, None)
  }

  /** INSERT … ON CONFLICT (event_time, id) DO NOTHING. */
  function InsertEvent(events: EventRows, event: ParsedEvent): EventRows
    requires !event.Other?
  {
    if EventKeyOf(event) in events then events else events[EventKeyOf(event) := EventRowOf(event)]
  }

  /** Rows are told apart by time, transaction and log index together. */
  lemma SameEventKey(x: ParsedEvent, y: ParsedEvent)
    ensures EventKeyOf(x) == EventKeyOf(y) <==>
            && x.metadata.blockTimestamp == y.metadata.blockTimestamp
            && x.metadata.transactionHash == y.metadata.transactionHash
            && x.metadata.logIndex == y.metadata.logIndex
  {
  }

  class KgMarketRepo {
    var vaults: Vaults
    var positions: Positions
    var events: EventRows

    constructor ()
      ensures vaults == map[] && positions == map[] && events == map[]
    {
      vaults, positions, events := map[], map[], map[];
    }

    method UpsertVaultOnDeposit(vault: VaultKey, assetsAfterFees: nat)
      modifies this`vaults
      ensures vaults == old(vaults)[vault := VaultOnDeposit(Lookup(old(vaults), vault), assetsAfterFees)]
    {
      if vault in vaults {
        var row := vaults[vault];
        vaults := vaults[vault := row.(totalDeposits := row.totalDeposits + assetsAfterFees)];
      } else {
        vaults := vaults[vault := VaultRow(0, assetsAfterFees, 0, 0, None, 0, 0)];
      }
    }

    method UpsertVaultOnRedeem(vault: VaultKey, assets: nat)
      modifies this`vaults
      ensures vaults == old(vaults)[vault := VaultOnRedeem(Lookup(old(vaults), vault), assets)]
    {
      if vault in vaults {
        var row := vaults[vault];
        vaults := vaults[vault := row.(totalDeposits := row.totalDeposits - assets,
                                       totalRedemptions := row.totalRedemptions + assets)];
      } else {
        vaults := vaults[vault := VaultRow(0, 0, assets, 0, None, 0, 0)];
      }
    }

    method UpdateVaultPrice(vault: VaultKey, sharePrice: nat, totalAssets: nat, totalShares: nat, marketCap: nat)
      modifies this`vaults
      ensures vaults == old(vaults)[vault := VaultOnPrice(Lookup(old(vaults), vault), sharePrice, totalAssets,
                                                          totalShares, marketCap)]
    {
      if vault in vaults {
        vaults := vaults[vault := vaults[vault].(sharePrice := sharePrice, totalAssets := Some(totalAssets),
                                                 totalShares := totalShares, marketCap := marketCap)];
      } else {
        vaults := vaults[vault := VaultRow(totalShares, 0, 0, sharePrice, Some(totalAssets), marketCap, 0)];
      }
    }

    method UpsertPositionOnDeposit(key: PositionKey, shares: nat, deposits: nat)
      modifies this`positions
      ensures positions == old(positions)[key := PositionOnDeposit(Lookup(old(positions), key), shares, deposits)]
    {
      if key in positions {
        var row := positions[key];
        positions := positions[key := row.(shares := row.shares + shares,
                                           totalDeposits := row.totalDeposits + deposits)];
      } else {
        positions := positions[key := PositionRow(shares, deposits, 0)];
      }
    }

    method DecrementPositionOnRedeem(key: PositionKey, shares: nat, redemptions: nat)
      modifies this`positions
      ensures Lookup(positions, key) == PositionOnRedeem(Lookup(old(positions), key), shares, redemptions)
      ensures positions - {key} == old(positions) - {key}
    {
      if key in positions {
        var row := positions[key];
        positions := positions[key := row.(shares := row.shares - shares,
                                           totalRedemptions := row.totalRedemptions + redemptions)];
      }
    }

    method PruneZeroPositions(key: PositionKey)
      modifies this`positions
      ensures Lookup(positions, key) == Pruned(Lookup(old(positions), key))
      ensures positions - {key} == old(positions) - {key}
    {
      if key in positions && positions[key].shares <= 0 {
        positions := positions - {key};
      }
    }

    /** COUNT of the positions with shares, written to the row if there is one. */
    method RefreshHolderCount(vault: VaultKey)
      modifies this`vaults
      ensures vaults == if vault in old(vaults)
                        then old(vaults)[vault := old(vaults)[vault].(holderCount := |Holders(positions, vault)|)]
                        else old(vaults)
    {
      if vault in vaults {
        vaults := vaults[vault := vaults[vault].(holderCount := |Holders(positions, vault)|)];
      }
    }

    method InsertMarketEvent(event: ParsedEvent)
      requires !event.Other?
      modifies this`events
      ensures events == InsertEvent(old(events), event)
    {
      if EventKeyOf(event) !in events {
        events := events[EventKeyOf(event) := EventRowOf(event)];
      }
    }
  }
}
