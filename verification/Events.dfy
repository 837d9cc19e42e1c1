/**
 Chain events as the indexer stores them: the generic record with its JSON data
 (`crates/rindexer-ingestion/src/handlers.rs`), the typed columns, and the two shapes in which
 the readers hand them out.
 */
module Events {
  import opened Wrappers

  datatype EventType =
    | AtomCreated | AtomContextRegistered | TripleCreated | Deposited | Redeemed
    | SharePriceChanged | ProtocolFeeAccrued

  /** Where on the chain an event was emitted. */
  datatype Envelope = Envelope(
    blockNumber: int, blockTimestamp: int, blockHash: string, transactionHash: string, logIndex: int)

  /** The typed columns; identifiers are their hex text, amounts are exact. */
  datatype Columns =
    | Atom(creator: string, termId: string, atomData: string, atomWallet: string)
    | Context(registrant: string, termId: string, uris: seq<string>)
    | Triple(creator: string, termId: string, subjectId: string, predicateId: string, objectId: string)
    | Deposit(sender: string, receiver: string, termId: string, curveId: nat, assets: nat,
              assetsAfterFees: nat, shares: nat, totalShares: nat, vaultType: nat)
    | Redemption(sender: string, receiver: string, termId: string, curveId: nat, shares: nat,
                 totalShares: nat, assets: nat, fees: nat, vaultType: nat)
    | Price(termId: string, curveId: nat, sharePrice: nat, totalAssets: nat, totalShares: nat, vaultType: nat)
    | Fee(epoch: nat, sender: string, amount: nat)

  function TypeOf(columns: Columns): EventType {
    match columns
    case Atom(_, _, _, _) => AtomCreated
    case Context(_, _, _) => AtomContextRegistered
    case Triple(_, _, _, _, _) => TripleCreated
    case Deposit(_, _, _, _, _, _, _, _, _) => Deposited
    case Redemption(_, _, _, _, _, _, _, _, _) => Redeemed
    case Price(_, _, _, _, _, _) => SharePriceChanged
    case Fee(_, _, _) => ProtocolFeeAccrued
  }

  /** JSON values; a decimal is the text of an exact number. */
  datatype Json = Text(text: string) | Decimal(value: nat) | Number(number: nat) | List(items: seq<string>)

  type JsonObject = map<string, Json>

  /** The `event_data` that the handlers write. */
  function HandlerData(columns: Columns): JsonObject {
    match columns
    case Atom(creator, termId, atomData, atomWallet) =>
      map["creator" := Text(creator), "term_id" := Text(termId),
          "atom_data" := Text(atomData), "atom_wallet" := Text(atomWallet)]
    case Context(registrant, termId, uris) =>
      map["term_id" := Text(termId), "registrant" := Text(registrant), "uris" := List(uris)]
    case Triple(creator, termId, subjectId, predicateId, objectId) =>
      map["creator" := Text(creator), "term_id" := Text(termId), "subject_id" := Text(subjectId),
          "predicate_id" := Text(predicateId), "object_id" := Text(objectId)]
    case Deposit(sender, receiver, termId, curveId, assets, assetsAfterFees, shares, totalShares, vaultType) =>
      map["sender" := Text(sender), "receiver" := Text(receiver), "term_id" := Text(termId),
          "curve_id" := Decimal(curveId), "assets" := Decimal(assets),
          "assets_after_fees" := Decimal(assetsAfterFees), "shares" := Decimal(shares),
          "total_shares" := Decimal(totalShares), "vault_type" := Number(vaultType)]
    case Redemption(sender, receiver, termId, curveId, shares, totalShares, assets, fees, vaultType) =>
      map["sender" := Text(sender), "receiver" := Text(receiver), "term_id" := Text(termId),
          "curve_id" := Decimal(curveId), "shares" := Decimal(shares), "total_shares" := Decimal(totalShares),
          "assets" := Decimal(assets), "fees" := Decimal(fees), "vault_type" := Number(vaultType)]
    case Price(termId, curveId, sharePrice, totalAssets, totalShares, vaultType) =>
      map["term_id" := Text(termId), "curve_id" := Decimal(curveId), "share_price" := Decimal(sharePrice),
          "total_assets" := Decimal(totalAssets), "total_shares" := Decimal(totalShares),
          "vault_type" := Number(vaultType)]
    case Fee(epoch, sender, amount) =>
      map["epoch" := Decimal(epoch), "sender" := Text(sender), "amount" := Decimal(amount)]
  }

  /** `data->>'field'`, for the text fields it is used on. */
  function TextField(data: JsonObject, field: string): Option<string> {
    if field in data && data[field].Text? then Some(data[field].text) else None
  }

  /** One row as a reader returns it. */
  datatype StoredEvent = StoredEvent(
    sequence: nat, envelope: Envelope, eventType: EventType, data: JsonObject,
    termId: Option<string>, entityId: Option<string>, isCanonical: bool, ingestedAt: int)

  /** A row of `event_store`. */
  datatype StoreRow = StoreRow(
    sequence: nat, envelope: Envelope, eventType: EventType, data: JsonObject, isCanonical: bool, ingestedAt: int)

  /** A row of a typed table. */
  datatype TypedRow = TypedRow(sequence: nat, envelope: Envelope, columns: Columns)

  /** A row of `event_store` with its two generated columns. */
  function FromStore(row: StoreRow): StoredEvent {
    StoredEvent(
      row.sequence, row.envelope, row.eventType, row.data,
      TextField(row.data, "term_id"),
      match row.eventType
      case Deposited => TextField(row.data, "receiver")
      case AtomCreated => TextField(row.data, "receiver")
      case Redeemed => TextField(row.data, "sender")
      case _ => None,
      row.isCanonical, row.ingestedAt)
  }

  /** The select list of the typed reader. */
  function FromTyped(row: TypedRow): StoredEvent {
    var (data, termId, entityId) := Select(row.columns);
    StoredEvent(
      row.sequence, row.envelope, TypeOf(row.columns), data, termId, entityId, true, row.envelope.blockTimestamp)
  }

  function Select(columns: Columns): (JsonObject, Option<string>, Option<string>) {
    match columns
    case Atom(creator, termId, atomData, atomWallet) =>
      (map["creator" := Text(creator), "term_id" := Text(termId), "atom_data" := Text(atomData),
           "atom_wallet" := Text(atomWallet)], Some(termId), None)
    case Context(registrant, termId, uris) =>
      (map["registrant" := Text(registrant), "term_id" := Text(termId), "uris" := List(uris)], Some(termId), None)
    case Triple(creator, termId, subjectId, predicateId, objectId) =>
      (map["creator" := Text(creator), "term_id" := Text(termId), "subject_id" := Text(subjectId),
           "predicate_id" := Text(predicateId), "object_id" := Text(objectId)], Some(termId), None)
    case Deposit(sender, receiver, termId, curveId, assets, assetsAfterFees, shares, totalShares, vaultType) =>
      (map["sender" := Text(sender), "receiver" := Text(receiver), "term_id" := Text(termId),
           "curve_id" := Decimal(curveId), "assets" := Decimal(assets),
           "assets_after_fees" := Decimal(assetsAfterFees), "shares" := Decimal(shares),
           "total_shares" := Decimal(totalShares), "vault_type" := Number(vaultType)], Some(termId), Some(receiver))
    case Redemption(sender, receiver, termId, curveId, shares, totalShares, assets, fees, vaultType) =>
      (map["sender" := Text(sender), "receiver" := Text(receiver), "term_id" := Text(termId),
           "curve_id" := Decimal(curveId), "shares" := Decimal(shares), "total_shares" := Decimal(totalShares),
           "assets" := Decimal(assets), "fees" := Decimal(fees), "vault_type" := Number(vaultType)],
       Some(termId), Some(receiver))
    case Price(termId, curveId, sharePrice, totalAssets, totalShares, vaultType) =>
      (map["term_id" := Text(termId), "curve_id" := Decimal(curveId), "share_price" := Decimal(sharePrice),
           "total_assets" := Decimal(totalAssets), "total_shares" := Decimal(totalShares),
           "vault_type" := Number(vaultType)], Some(termId), None)
    case Fee(epoch, sender, amount) =>
      (map["epoch" := Decimal(epoch), "sender" := Text(sender), "amount" := Decimal(amount)], None, Some(sender))
  }

  /** Everything a projection reads except the entity and the ingestion time. */
  predicate SameEvent(x: StoredEvent, y: StoredEvent) {
    && x.sequence == y.sequence && x.envelope == y.envelope && x.eventType == y.eventType
    && x.data == y.data && x.termId == y.termId && x.isCanonical == y.isCanonical
  }

  /** The typed row was written for the same log, with the same number, as the generic row. */
  predicate Twins(row: StoreRow, typed: TypedRow) {
    && row.sequence == typed.sequence && row.envelope == typed.envelope && row.isCanonical
    && row.eventType == TypeOf(typed.columns) && row.data == HandlerData(typed.columns)
  }

  /** The two readers do not agree on the entity of a fee, nor on that of most redemptions. */
  predicate SameEntity(columns: Columns) {
    match columns
    case Redemption(sender, receiver, _, _, _, _, _, _, _) => sender == receiver
    case Fee(_, _, _) => false
    case _ => true
  }

  /** The JSON that the typed reader builds is the JSON that the handler wrote. */
  lemma SelectRebuildsData(columns: Columns)
    ensures Select(columns).0 == HandlerData(columns)
    ensures Select(columns).1 == TextField(HandlerData(columns), "term_id")
  {
  }

  lemma TwinsReadAlike(row: StoreRow, typed: TypedRow)
    requires Twins(row, typed)
    ensures SameEvent(FromStore(row), FromTyped(typed))
    ensures FromStore(row).entityId == FromTyped(typed).entityId <==> SameEntity(typed.columns)
    ensures FromStore(row).ingestedAt == FromTyped(typed).ingestedAt <==>
            row.ingestedAt == row.envelope.blockTimestamp
  {
    SelectRebuildsData(typed.columns);
    match typed.columns
    case Atom(_, _, _, _) => assert row.data.Keys == HandlerData(typed.columns).Keys;
    case _ =>
  }
}
