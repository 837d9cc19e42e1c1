/**
 Ingestion's dual write (`crates/rindexer-ingestion/src/storage.rs`, `handlers.rs`): every decoded
 log goes to `event_store`, which numbers it, and then, carrying that number, to its typed table.
 The tables are a value, the SQL statements are functions on it, and the Rust loops around them are
 methods of `Storage`.
 */
module DualWrite {
  import opened Wrappers
  import opened Events

  /** A decoded log, which is also the record the typed insert takes. */
  datatype LogEntry = LogEntry(envelope: Envelope, columns: Columns)

  /** The record the generic insert takes. */
  datatype EventRecord = EventRecord(envelope: Envelope, eventType: EventType, data: JsonObject)

  /** UNIQUE (transaction_hash, log_index, block_timestamp). */
  datatype StoreKey = StoreKey(transactionHash: string, logIndex: int, blockTimestamp: int)

  /** The conflict target of a typed table; four of the seven leave the timestamp out. */
  datatype TypedKey = TypedKey(table: EventType, transactionHash: string, logIndex: int, blockTimestamp: Option<int>)

  /** `next` is the BIGSERIAL counter: a skipped row still uses up its number. */
  datatype Tables = Tables(next: nat, store: map<StoreKey, StoreRow>, typed: map<TypedKey, TypedRow>)

  const EMPTY := Tables(1, map[], map[])

  function KeyOf(envelope: Envelope): StoreKey {
    StoreKey(envelope.transactionHash, envelope.logIndex, envelope.blockTimestamp)
  }

  function TypedKeyOf(log: LogEntry): TypedKey {
    var table := TypeOf(log.columns);
    TypedKey(table, log.envelope.transactionHash, log.envelope.logIndex,
             if table in {Deposited, Redeemed, SharePriceChanged} then Some(log.envelope.blockTimestamp) else None)
  }

  function RecordOf(log: LogEntry): EventRecord {
    EventRecord(log.envelope, TypeOf(log.columns), HandlerData(log.columns))
  }

  function Records(logs: seq<LogEntry>): (events: seq<EventRecord>) {
    seq(|logs|, i requires 0 <= i < |logs| => RecordOf(logs[i]))
  }

  // ---- What the statements do

  /** One row of INSERT … ON CONFLICT DO NOTHING into `event_store`. */
  function StoreOne(tables: Tables, event: EventRecord, now: int): Tables {
    var key := KeyOf(event.envelope);
    Tables(
      tables.next + 1,
      if key in tables.store then tables.store
      else tables.store[key := StoreRow(tables.next, event.envelope, event.eventType, event.data, true, now)],
      tables.typed)
  }

  /** The whole INSERT … SELECT FROM UNNEST. */
  function StoreAll(tables: Tables, events: seq<EventRecord>, now: int): Tables
    decreases |events|
  {
    if events == [] then tables else StoreAll(StoreOne(tables, events[0], now), events[1..], now)
  }

  /** One input position of the join: no output row unless the key is stored and canonical. */
  function FetchOne(store: map<StoreKey, StoreRow>, key: StoreKey): seq<nat> {
    if key in store && store[key].isCanonical then [store[key].sequence] else []
  }

  function Fetch(store: map<StoreKey, StoreRow>, keys: seq<StoreKey>): seq<nat>
    decreases |keys|
  {
    if keys == [] then [] else FetchOne(store, keys[0]) + Fetch(store, keys[1..])
  }

  /** One row of the typed insert. */
  function TypedOne(tables: Tables, log: LogEntry, sequence: nat): Tables {
    var key := TypedKeyOf(log);
    if key in tables.typed then tables
    else tables.(typed := tables.typed[key := TypedRow(sequence, log.envelope, log.columns)])
  }

  function TypedAll(tables: Tables, logs: seq<LogEntry>, sequences: seq<nat>): Tables
    requires |sequences| == |logs|
    decreases |logs|
  {
    if logs == [] then tables
    else TypedAll(TypedOne(tables, logs[0], sequences[0]), logs[1..], sequences[1..])
  }

  function Keys(logs: seq<LogEntry>): (keys: seq<StoreKey>)
    ensures |keys| == |logs| && forall i :: 0 <= i < |logs| ==> keys[i] == KeyOf(logs[i].envelope)
  {
    seq(|logs|, i requires 0 <= i < |logs| => KeyOf(logs[i].envelope))
  }

  // ---- The reference: one log at a time

  /** A log is stored, its number looked up, and its typed row written. */
  function WriteOne(tables: Tables, log: LogEntry, now: int): Tables {
    var stored := StoreOne(tables, RecordOf(log), now);
    TypedOne(stored, log, stored.store[KeyOf(log.envelope)].sequence)
  }

  function WriteEach(tables: Tables, logs: seq<LogEntry>, now: int): Tables
    decreases |logs|
  {
    if logs == [] then tables else WriteEach(WriteOne(tables, logs[0], now), logs[1..], now)
  }

  ghost predicate Canonical(tables: Tables) {
    forall key <- tables.store :: tables.store[key].isCanonical
  }

  /** Every stored row stays as it is. */
  ghost predicate Keeps(before: map<StoreKey, StoreRow>, after: map<StoreKey, StoreRow>) {
    forall key <- before :: key in after && after[key] == before[key]
  }

  // ---- Alignment

  lemma {:induction false} FetchIsAligned(store: map<StoreKey, StoreRow>, keys: seq<StoreKey>)
    ensures |Fetch(store, keys)| <= |keys|
    ensures |Fetch(store, keys)| == |keys| <==>
            forall i :: 0 <= i < |keys| ==> keys[i] in store && store[keys[i]].isCanonical
    ensures |Fetch(store, keys)| == |keys| ==>
              forall i :: 0 <= i < |keys| ==> Fetch(store, keys)[i] == store[keys[i]].sequence
    decreases |keys|
  {
    if keys != [] {
      var rest := keys[1..];
      FetchIsAligned(store, rest);
      assert forall i :: 1 <= i < |keys| ==> keys[i] == rest[i - 1];
      if forall i :: 0 <= i < |keys| ==> keys[i] in store && store[keys[i]].isCanonical {
        assert forall i :: 0 <= i < |rest| ==> rest[i] == keys[i + 1];
      }
    }
  }

  lemma {:induction false} FetchAppend(store: map<StoreKey, StoreRow>, front: seq<StoreKey>, back: seq<StoreKey>)
    ensures Fetch(store, front + back) == Fetch(store, front) + Fetch(store, back)
    decreases |front|
  {
    if front == [] {
      assert front + back == back;
    } else {
      assert (front + back)[1..] == front[1..] + back;
      FetchAppend(store, front[1..], back);
    }
  }

  lemma {:induction false} StoreAppend(tables: Tables, front: seq<EventRecord>, back: seq<EventRecord>, now: int)
    ensures StoreAll(tables, front + back, now) == StoreAll(StoreAll(tables, front, now), back, now)
    decreases |front|
  {
    if front == [] {
      assert front + back == back;
    } else {
      assert (front + back)[1..] == front[1..] + back;
      StoreAppend(StoreOne(tables, front[0], now), front[1..], back, now);
    }
  }

  lemma {:induction false} TypedAppend(
    tables: Tables, front: seq<LogEntry>, back: seq<LogEntry>, frontSeqs: seq<nat>, backSeqs: seq<nat>)
    requires |frontSeqs| == |front| && |backSeqs| == |back|
    ensures TypedAll(tables, front + back, frontSeqs + backSeqs)
         == TypedAll(TypedAll(tables, front, frontSeqs), back, backSeqs)
    decreases |front|
  {
    if front == [] {
      assert front + back == back && frontSeqs + backSeqs == backSeqs;
    } else {
      assert (front + back)[1..] == front[1..] + back;
      assert (frontSeqs + backSeqs)[1..] == frontSeqs[1..] + backSeqs;
      TypedAppend(TypedOne(tables, front[0], frontSeqs[0]), front[1..], back, frontSeqs[1..], backSeqs);
    }
  }

  /** After the generic insert every key of the batch is there, and nothing stored before has moved. */
  lemma {:induction false} StoreAllStores(tables: Tables, events: seq<EventRecord>, now: int)
    requires Canonical(tables)
    ensures var after := StoreAll(tables, events, now);
            && Canonical(after) && Keeps(tables.store, after.store) && after.typed == tables.typed
            && after.next == tables.next + |events|
            && forall i :: 0 <= i < |events| ==> KeyOf(events[i].envelope) in after.store
    decreases |events|
  {
    if events != [] {
      var once := StoreOne(tables, events[0], now);
      StoreAllStores(once, events[1..], now);
      assert KeyOf(events[0].envelope) in once.store;
      assert forall i :: 1 <= i < |events| ==> events[i] == events[1..][i - 1];
    }
  }

  /** The numbers fetched after the generic insert line up with the typed records. */
  lemma FetchAfterStore(tables: Tables, logs: seq<LogEntry>, now: int)
    requires Canonical(tables)
    ensures var after := StoreAll(tables, Records(logs), now);
            && |Fetch(after.store, Keys(logs))| == |logs|
            && forall i :: 0 <= i < |logs| ==>
                 && KeyOf(logs[i].envelope) in after.store
                 && Fetch(after.store, Keys(logs))[i] == after.store[KeyOf(logs[i].envelope)].sequence
  {
    var after := StoreAll(tables, Records(logs), now);
    StoreAllStores(tables, Records(logs), now);
    forall i | 0 <= i < |logs| ensures Keys(logs)[i] in after.store {
      assert Records(logs)[i].envelope == logs[i].envelope;
    }
    FetchIsAligned(after.store, Keys(logs));
  }

  /** One transaction of a dual-write method. */
  ghost function DualInsert(tables: Tables, logs: seq<LogEntry>, now: int): Tables
    requires Canonical(tables)
  {
    var stored := StoreAll(tables, Records(logs), now);
    FetchAfterStore(tables, logs, now);
    TypedAll(stored, logs, Fetch(stored.store, Keys(logs)))
  }

  /** The typed insert does not touch the store, so it may be delayed past later generic inserts. */
  lemma {:induction false} TypedCommutesWithStore(tables: Tables, log: LogEntry, sequence: nat,
                                                  events: seq<EventRecord>, now: int)
    ensures StoreAll(TypedOne(tables, log, sequence), events, now)
         == TypedOne(StoreAll(tables, events, now), log, sequence)
    ensures StoreAll(tables, events, now).typed == tables.typed
    decreases |events|
  {
    if events != [] {
      TypedCommutesWithStore(StoreOne(tables, events[0], now), log, sequence, events[1..], now);
    }
  }

  /** The three passes over a batch write what one pass, log by log, writes. */
  lemma {:induction false} BatchIsLogByLog(tables: Tables, logs: seq<LogEntry>, now: int)
    requires Canonical(tables)
    ensures DualInsert(tables, logs, now) == WriteEach(tables, logs, now)
    decreases |logs|
  {
    if logs == [] {
      assert Records(logs) == [];
    } else {
      var log, rest := logs[0], logs[1..];
      var once := StoreOne(tables, RecordOf(log), now);
      var number := once.store[KeyOf(log.envelope)].sequence;
      var all := StoreAll(tables, Records(logs), now);
      assert Records(logs)[1..] == Records(rest);
      assert all == StoreAll(once, Records(rest), now);
      FetchAfterStore(tables, logs, now);
      StoreAllStores(once, Records(rest), now);
      assert Keys(logs)[1..] == Keys(rest);
      assert all.store[KeyOf(log.envelope)].sequence == number;
      var fetched := Fetch(all.store, Keys(logs));
      assert fetched[0] == number;
      assert Fetch(all.store, Keys(logs)) == FetchOne(all.store, Keys(logs)[0]) + Fetch(all.store, Keys(rest));
      assert fetched[1..] == Fetch(all.store, Keys(rest));
      TypedCommutesWithStore(once, log, number, Records(rest), now);
      var written := TypedOne(once, log, number);
      assert TypedOne(all, log, number) == StoreAll(written, Records(rest), now);
      assert Canonical(written);
      BatchIsLogByLog(written, rest, now);
    }
  }

  lemma {:induction false} WriteAppend(tables: Tables, front: seq<LogEntry>, back: seq<LogEntry>, now: int)
    ensures WriteEach(tables, front + back, now) == WriteEach(WriteEach(tables, front, now), back, now)
    decreases |front|
  {
    if front == [] {
      assert front + back == back;
    } else {
      assert (front + back)[1..] == front[1..] + back;
      WriteAppend(WriteOne(tables, front[0], now), front[1..], back, now);
    }
  }

  lemma {:induction false} WriteKeepsCanonical(tables: Tables, logs: seq<LogEntry>, now: int)
    requires Canonical(tables)
    ensures Canonical(WriteEach(tables, logs, now))
    ensures Keeps(tables.store, WriteEach(tables, logs, now).store)
    decreases |logs|
  {
    if logs != [] {
      WriteKeepsCanonical(WriteOne(tables, logs[0], now), logs[1..], now);
    }
  }

  // ---- What every run keeps

  /** A transaction commits, or rolls back after using up some sequence numbers. */
  datatype Step = Commit(logs: seq<LogEntry>, now: int) | RollBack(used: nat)

  function Perform(tables: Tables, step: Step): Tables {
    match step
    case Commit(logs, now) => WriteEach(tables, logs, now)
    case RollBack(used) => tables.(next := tables.next + used)
  }

  function Run(tables: Tables, steps: seq<Step>): Tables
    decreases |steps|
  {
    if steps == [] then tables else Run(Perform(tables, steps[0]), steps[1..])
  }

  /** The log a typed row was written for. */
  function LogOf(row: TypedRow): LogEntry {
    LogEntry(row.envelope, row.columns)
  }

  /** Distinct numbers, all given out by the counter; every typed row carries the number of the
      generic row with its transaction, log index and timestamp. */
  ghost predicate Numbered(tables: Tables) {
    && Canonical(tables)
    && (forall key <- tables.store ::
          KeyOf(tables.store[key].envelope) == key && tables.store[key].sequence < tables.next)
    && (forall a, b :: a in tables.store && b in tables.store && tables.store[a].sequence == tables.store[b].sequence
          ==> a == b)
    && (forall key <- tables.typed :: Carried(tables, key))
  }

  ghost predicate Carried(tables: Tables, key: TypedKey)
    requires key in tables.typed
  {
    var row := tables.typed[key];
    && TypedKeyOf(LogOf(row)) == key
    && KeyOf(row.envelope) in tables.store && tables.store[KeyOf(row.envelope)].sequence == row.sequence
  }

  lemma StoreKeepsNumbered(tables: Tables, event: EventRecord, now: int)
    requires Numbered(tables)
    ensures Numbered(StoreOne(tables, event, now)) && KeyOf(event.envelope) in StoreOne(tables, event, now).store
  {
    hide TypedKeyOf;
    var after := StoreOne(tables, event, now);
    forall key <- after.typed ensures Carried(after, key) {
      assert Carried(tables, key);
    }
  }

  lemma TypedKeepsNumbered(tables: Tables, log: LogEntry)
    requires Numbered(tables) && KeyOf(log.envelope) in tables.store
    ensures Numbered(TypedOne(tables, log, tables.store[KeyOf(log.envelope)].sequence))
  {
    hide TypedKeyOf;
    var after := TypedOne(tables, log, tables.store[KeyOf(log.envelope)].sequence);
    forall key <- after.typed ensures Carried(after, key) {
      if key in tables.typed {
        assert Carried(tables, key);
      }
    }
  }

  lemma WriteOneKeepsNumbered(tables: Tables, log: LogEntry, now: int)
    requires Numbered(tables)
    ensures Numbered(WriteOne(tables, log, now))
  {
    hide TypeOf, HandlerData, Numbered;
    StoreKeepsNumbered(tables, RecordOf(log), now);
    TypedKeepsNumbered(StoreOne(tables, RecordOf(log), now), log);
  }

  lemma {:induction false} WriteKeepsNumbered(tables: Tables, logs: seq<LogEntry>, now: int)
    requires Numbered(tables)
    ensures Numbered(WriteEach(tables, logs, now))
    decreases |logs|
  {
    if logs != [] {
      WriteOneKeepsNumbered(tables, logs[0], now);
      WriteKeepsNumbered(WriteOne(tables, logs[0], now), logs[1..], now);
    }
  }

  lemma {:induction false} RunKeepsNumbered(tables: Tables, steps: seq<Step>)
    requires Numbered(tables)
    ensures Numbered(Run(tables, steps))
    decreases |steps|
  {
    if steps != [] {
      match steps[0] {
        case Commit(logs, now) => WriteKeepsNumbered(tables, logs, now);
        case RollBack(used) =>
          var after := Perform(tables, steps[0]);
          forall key <- after.typed ensures Carried(after, key) {
            assert Carried(tables, key);
          }
      }
      RunKeepsNumbered(Perform(tables, steps[0]), steps[1..]);
    }
  }

  // ---- Replay

  ghost predicate Recorded(tables: Tables, log: LogEntry) {
    KeyOf(log.envelope) in tables.store && TypedKeyOf(log) in tables.typed
  }

  lemma {:induction false} RecordedForGood(tables: Tables, log: LogEntry, steps: seq<Step>)
    requires Recorded(tables, log)
    ensures Recorded(Run(tables, steps), log)
    decreases |steps|
  {
    if steps != [] {
      if steps[0].Commit? {
        WriteRecords(tables, steps[0].logs, steps[0].now, log);
      }
      RecordedForGood(Perform(tables, steps[0]), log, steps[1..]);
    }
  }

  lemma {:induction false} WriteRecords(tables: Tables, logs: seq<LogEntry>, now: int, log: LogEntry)
    requires Recorded(tables, log) || log in logs
    ensures Recorded(WriteEach(tables, logs, now), log)
    decreases |logs|
  {
    if logs != [] {
      var once := WriteOne(tables, logs[0], now);
      assert Recorded(once, logs[0]);
      assert Recorded(tables, log) ==> Recorded(once, log);
      WriteRecords(once, logs[1..], now, log);
    }
  }

  /** Delivering logs again leaves both tables as they were exactly when all of them are recorded;
      only the sequence counter moves. */
  lemma {:induction false} RedeliveryIsInvisible(tables: Tables, logs: seq<LogEntry>, now: int)
    ensures (forall log <- logs :: Recorded(tables, log)) <==>
            WriteEach(tables, logs, now) == tables.(next := tables.next + |logs|)
    decreases |logs|
  {
    if forall log <- logs :: Recorded(tables, log) {
      if logs != [] {
        assert Recorded(tables, logs[0]);
        var once := WriteOne(tables, logs[0], now);
        assert once == tables.(next := tables.next + 1);
        forall log <- logs[1..] ensures Recorded(once, log) {
          assert Recorded(tables, log);
        }
        RedeliveryIsInvisible(once, logs[1..], now);
      }
    } else {
      var log :| log in logs && !Recorded(tables, log);
      WriteRecords(tables, logs, now, log);
    }
  }

  /** Whatever a run committed, in whatever order and grouping it comes back, at any later time. */
  lemma ReplayOfACommittedBatch(tables: Tables, logs: seq<LogEntry>, now: int, steps: seq<Step>,
                                again: seq<LogEntry>, later: int)
    requires forall log <- again :: log in logs
    ensures var after := Run(WriteEach(tables, logs, now), steps);
            WriteEach(after, again, later) == after.(next := after.next + |again|)
  {
    var committed := WriteEach(tables, logs, now);
    var after := Run(committed, steps);
    forall log <- again ensures Recorded(after, log) {
      WriteRecords(tables, logs, now, log);
      RecordedForGood(committed, log, steps);
    }
    RedeliveryIsInvisible(after, again, later);
  }

  // ---- One chain: both tables tell the same story

  datatype Location = Location(transactionHash: string, logIndex: int)

  function LocationOf(envelope: Envelope): Location {
    Location(envelope.transactionHash, envelope.logIndex)
  }

  /** What the chain holds at each location: in particular one timestamp and one type. */
  type Chain = map<Location, LogEntry>

  ghost predicate OnChain(chain: Chain, log: LogEntry) {
    var location := LocationOf(log.envelope);
    location in chain && chain[location] == log
  }

  ghost predicate StepOnChain(chain: Chain, step: Step) {
    step.Commit? ==> forall log <- step.logs :: OnChain(chain, log)
  }

  /** A generic row that is the record of a log on the chain whose typed row is written too. */
  ghost predicate Mirrored(chain: Chain, tables: Tables, key: StoreKey)
    requires key in tables.store
  {
    var row, location := tables.store[key], Location(key.transactionHash, key.logIndex);
    && location in chain
    && EventRecord(row.envelope, row.eventType, row.data) == RecordOf(chain[location])
    && TypedKeyOf(chain[location]) in tables.typed
  }

  ghost predicate Faithful(chain: Chain, tables: Tables) {
    && Numbered(tables)
    && (forall key <- tables.store :: Mirrored(chain, tables, key))
    && (forall key <- tables.typed :: OnChain(chain, LogOf(tables.typed[key])))
  }

  lemma WriteKeepsMirrored(chain: Chain, tables: Tables, log: LogEntry, now: int, key: StoreKey)
    requires OnChain(chain, log) && (key in tables.store ==> Mirrored(chain, tables, key))
    requires key in WriteOne(tables, log, now).store
    ensures Mirrored(chain, WriteOne(tables, log, now), key)
  {
    hide TypeOf, HandlerData, TypedKeyOf;
  }

  lemma WriteKeepsFaithful(chain: Chain, tables: Tables, log: LogEntry, now: int)
    requires Faithful(chain, tables) && OnChain(chain, log)
    ensures Faithful(chain, WriteOne(tables, log, now))
  {
    hide TypeOf, HandlerData, Numbered, Mirrored, RecordOf, TypedKeyOf;
    var after := WriteOne(tables, log, now);
    WriteOneKeepsNumbered(tables, log, now);
    forall key <- after.store ensures Mirrored(chain, after, key) {
      WriteKeepsMirrored(chain, tables, log, now, key);
    }
    forall key <- after.typed ensures OnChain(chain, LogOf(after.typed[key])) {
      assert key in tables.typed ==> OnChain(chain, LogOf(tables.typed[key]));
    }
  }

  lemma {:induction false} WriteEachKeepsFaithful(chain: Chain, tables: Tables, logs: seq<LogEntry>, now: int)
    requires Faithful(chain, tables) && forall log <- logs :: OnChain(chain, log)
    ensures Faithful(chain, WriteEach(tables, logs, now))
    decreases |logs|
  {
    if logs != [] {
      WriteKeepsFaithful(chain, tables, logs[0], now);
      WriteEachKeepsFaithful(chain, WriteOne(tables, logs[0], now), logs[1..], now);
    }
  }

  lemma {:induction false} RunKeepsFaithful(chain: Chain, tables: Tables, steps: seq<Step>)
    requires Faithful(chain, tables) && forall step <- steps :: StepOnChain(chain, step)
    ensures Faithful(chain, Run(tables, steps))
    decreases |steps|
  {
    if steps != [] {
      match steps[0] {
        case Commit(logs, now) =>
          assert StepOnChain(chain, steps[0]);
          WriteEachKeepsFaithful(chain, tables, logs, now);
        case RollBack(used) =>
          var after := Perform(tables, steps[0]);
          assert Run(tables, [steps[0]]) == after;
          RunKeepsNumbered(tables, [steps[0]]);
          forall key <- after.store ensures Mirrored(chain, after, key) {
            assert Mirrored(chain, tables, key);
          }
      }
      RunKeepsFaithful(chain, Perform(tables, steps[0]), steps[1..]);
    }
  }

  /** Every typed row has its generic twin. */
  lemma TypedRowHasTwin(chain: Chain, tables: Tables, key: TypedKey)
    requires Faithful(chain, tables) && key in tables.typed
    ensures var row := tables.typed[key];
            KeyOf(row.envelope) in tables.store && Twins(tables.store[KeyOf(row.envelope)], row)
  {
    hide TypeOf, HandlerData, TypedKeyOf;
    assert Carried(tables, key);
    var row := tables.typed[key];
    assert OnChain(chain, LogOf(row));
    assert Mirrored(chain, tables, KeyOf(row.envelope));
  }

  /** Every generic row has its typed twin, under the key of the log at its place on the chain. */
  lemma StoredRowHasTwin(chain: Chain, tables: Tables, key: StoreKey)
    requires Faithful(chain, tables) && key in tables.store
    ensures Location(key.transactionHash, key.logIndex) in chain
    ensures var log := chain[Location(key.transactionHash, key.logIndex)];
            && TypedKeyOf(log) in tables.typed && Twins(tables.store[key], tables.typed[TypedKeyOf(log)])
  {
    hide TypeOf, HandlerData;
    assert Mirrored(chain, tables, key);
    var log := chain[Location(key.transactionHash, key.logIndex)];
    var row := tables.typed[TypedKeyOf(log)];
    assert Carried(tables, TypedKeyOf(log));
    assert OnChain(chain, LogOf(row));
    assert LogOf(row) == log;
  }

  /** When the node reports no timestamp the handler substitutes its own clock. A recorded log that
      comes back under a timestamp not seen before is stored a second time, under a new number; a
      typed row with that number appears only in the tables whose key has the timestamp. */
  lemma RestampedLog(tables: Tables, log: LogEntry, stamp: int, now: int)
    requires Numbered(tables) && Recorded(tables, log)
    requires KeyOf(log.envelope).(blockTimestamp := stamp) !in tables.store
    ensures var again := log.(envelope := log.envelope.(blockTimestamp := stamp));
            var after := WriteOne(tables, again, now);
            && after.store[KeyOf(again.envelope)].sequence == tables.next
            && after.store == tables.store[KeyOf(again.envelope) := after.store[KeyOf(again.envelope)]]
            && ((exists key <- after.typed :: after.typed[key].sequence == tables.next) <==>
                TypeOf(log.columns) in {Deposited, Redeemed, SharePriceChanged})
  {
    hide TypeOf, HandlerData;
    var again := log.(envelope := log.envelope.(blockTimestamp := stamp));
    var after := WriteOne(tables, again, now);
    forall key <- tables.typed ensures tables.typed[key].sequence < tables.next {
      assert Carried(tables, key);
    }
    if TypedKeyOf(again) in tables.typed {
      assert Carried(tables, TypedKeyOf(again));
    } else {
      assert after.typed[TypedKeyOf(again)].sequence == tables.next;
    }
  }

  /** A log that is new to both tables gets the next number in both, and the time of its ingestion. */
  lemma NewLog(tables: Tables, log: LogEntry, now: int)
    requires KeyOf(log.envelope) !in tables.store && TypedKeyOf(log) !in tables.typed
    ensures var after := WriteOne(tables, log, now);
            && KeyOf(log.envelope) in after.store && TypedKeyOf(log) in after.typed
            && Twins(after.store[KeyOf(log.envelope)], after.typed[TypedKeyOf(log)])
            && after.store[KeyOf(log.envelope)].sequence == tables.next
            && after.store[KeyOf(log.envelope)].ingestedAt == now
            && LogOf(after.typed[TypedKeyOf(log)]) == log
  {
    hide TypeOf, HandlerData, TypedKeyOf;
  }

  ghost predicate Positive(tables: Tables) {
    tables.next >= 1 && forall key <- tables.store :: tables.store[key].sequence >= 1
  }

  lemma {:induction false} WriteKeepsPositive(tables: Tables, logs: seq<LogEntry>, now: int)
    requires Positive(tables)
    ensures Positive(WriteEach(tables, logs, now))
    decreases |logs|
  {
    if logs != [] {
      hide TypedKeyOf, HandlerData, TypeOf;
      WriteKeepsPositive(WriteOne(tables, logs[0], now), logs[1..], now);
    }
  }

  lemma {:induction false} RunKeepsPositive(tables: Tables, steps: seq<Step>)
    requires Positive(tables)
    ensures Positive(Run(tables, steps))
    decreases |steps|
  {
    if steps != [] {
      if steps[0].Commit? {
        WriteKeepsPositive(tables, steps[0].logs, steps[0].now);
      }
      RunKeepsPositive(Perform(tables, steps[0]), steps[1..]);
    }
  }

  /** Numbers start at 1, so that a reader that starts after 0 sees every row. */
  lemma NumbersStartAtOne(steps: seq<Step>, log: LogEntry, now: int)
    ensures WriteOne(EMPTY, log, now).store[KeyOf(log.envelope)].sequence == 1
    ensures forall key <- Run(EMPTY, steps).store :: Run(EMPTY, steps).store[key].sequence > 0
  {
    RunKeepsPositive(EMPTY, steps);
  }

  // ---- Timestamps over whole runs

  function Restamped(log: LogEntry, stamp: int): LogEntry {
    log.(envelope := log.envelope.(blockTimestamp := stamp))
  }

  /** A log of the chain, but for its timestamp. */
  ghost predicate OnChainButStamp(chain: Chain, log: LogEntry) {
    var location := LocationOf(log.envelope);
    location in chain && Restamped(chain[location], log.envelope.blockTimestamp) == log
  }

  ghost predicate StepOnChainButStamp(chain: Chain, step: Step) {
    step.Commit? ==> forall log <- step.logs :: OnChainButStamp(chain, log)
  }

  predicate KeyedByStamp(columns: Columns) {
    TypeOf(columns) in {Deposited, Redeemed, SharePriceChanged}
  }

  /** The log that a stored key stands for. */
  ghost predicate Attested(chain: Chain, tables: Tables, key: StoreKey) {
    var location := Location(key.transactionHash, key.logIndex);
    location in chain && TypedKeyOf(Restamped(chain[location], key.blockTimestamp)) in tables.typed
  }

  ghost predicate Stamped(chain: Chain, tables: Tables) {
    && Numbered(tables)
    && (forall location <- chain :: LocationOf(chain[location].envelope) == location)
    && (forall key <- tables.store :: Attested(chain, tables, key))
    && (forall key <- tables.typed :: OnChainButStamp(chain, LogOf(tables.typed[key])))
  }

  lemma WriteKeepsStamped(chain: Chain, tables: Tables, log: LogEntry, now: int)
    requires Stamped(chain, tables) && OnChainButStamp(chain, log)
    ensures Stamped(chain, WriteOne(tables, log, now))
  {
    hide TypeOf, HandlerData, Numbered, TypedKeyOf, RecordOf;
    var after := WriteOne(tables, log, now);
    WriteOneKeepsNumbered(tables, log, now);
    forall key <- after.store ensures Attested(chain, after, key) {
      assert key in tables.store ==> Attested(chain, tables, key);
      assert RecordOf(log).envelope == log.envelope by {
        RecordEnvelope(log);
      }
    }
    forall key <- after.typed ensures OnChainButStamp(chain, LogOf(after.typed[key])) {
      assert key in tables.typed ==> OnChainButStamp(chain, LogOf(tables.typed[key]));
    }
  }

  lemma RecordEnvelope(log: LogEntry)
    ensures RecordOf(log).envelope == log.envelope
  {
  }

  lemma {:induction false} WriteEachKeepsStamped(chain: Chain, tables: Tables, logs: seq<LogEntry>, now: int)
    requires Stamped(chain, tables) && forall log <- logs :: OnChainButStamp(chain, log)
    ensures Stamped(chain, WriteEach(tables, logs, now))
    decreases |logs|
  {
    if logs != [] {
      WriteKeepsStamped(chain, tables, logs[0], now);
      WriteEachKeepsStamped(chain, WriteOne(tables, logs[0], now), logs[1..], now);
    }
  }

  lemma RollBackKeepsStamped(chain: Chain, tables: Tables, used: nat)
    requires Stamped(chain, tables)
    ensures Stamped(chain, Perform(tables, RollBack(used)))
  {
    var after := Perform(tables, RollBack(used));
    assert Run(tables, [RollBack(used)]) == after;
    RunKeepsNumbered(tables, [RollBack(used)]);
    forall key <- after.store ensures Attested(chain, after, key) {
      assert Attested(chain, tables, key);
    }
  }

  lemma {:induction false} RunKeepsStamped(chain: Chain, tables: Tables, steps: seq<Step>)
    requires Stamped(chain, tables) && forall step <- steps :: StepOnChainButStamp(chain, step)
    ensures Stamped(chain, Run(tables, steps))
    decreases |steps|
  {
    if steps != [] {
      hide Stamped;
      match steps[0] {
        case Commit(logs, now) =>
          assert StepOnChainButStamp(chain, steps[0]);
          WriteEachKeepsStamped(chain, tables, logs, now);
        case RollBack(used) => RollBackKeepsStamped(chain, tables, used);
      }
      RunKeepsStamped(chain, Perform(tables, steps[0]), steps[1..]);
    }
  }

  ghost predicate HasTypedRow(tables: Tables, key: StoreKey)
    requires key in tables.store
  {
    exists typed <- tables.typed :: tables.typed[typed].sequence == tables.store[key].sequence
  }

  /** Two stored rows of one log, in a table that cannot tell them apart. */
  ghost predicate Doubled(chain: Chain, tables: Tables, x: StoreKey, y: StoreKey) {
    var location := Location(x.transactionHash, x.logIndex);
    && x in tables.store && y in tables.store && x != y
    && Location(y.transactionHash, y.logIndex) == location
    && location in chain && !KeyedByStamp(chain[location].columns)
  }

  /** The typed row for a stored key carries the number of a row of the same log. */
  lemma TypedRowOf(chain: Chain, tables: Tables, key: StoreKey) returns (own: StoreKey, typed: TypedKey)
    requires Stamped(chain, tables) && key in tables.store
    ensures Location(key.transactionHash, key.logIndex) in chain
    ensures var log := chain[Location(key.transactionHash, key.logIndex)];
            && typed == TypedKeyOf(Restamped(log, key.blockTimestamp))
            && typed in tables.typed && own in tables.store
            && tables.typed[typed].sequence == tables.store[own].sequence
            && own.transactionHash == key.transactionHash && own.logIndex == key.logIndex
            && (KeyedByStamp(log.columns) ==> own == key)
  {
    hide HandlerData;
    assert Attested(chain, tables, key);
    var log := chain[Location(key.transactionHash, key.logIndex)];
    typed := TypedKeyOf(Restamped(log, key.blockTimestamp));
    assert Carried(tables, typed);
    own := KeyOf(tables.typed[typed].envelope);
  }

  lemma TypedRowIsOwn(chain: Chain, tables: Tables, key: StoreKey)
    requires Stamped(chain, tables) && key in tables.store && HasTypedRow(tables, key)
    ensures Location(key.transactionHash, key.logIndex) in chain
    ensures var typed := TypedKeyOf(Restamped(chain[Location(key.transactionHash, key.logIndex)], key.blockTimestamp));
            typed in tables.typed && tables.typed[typed].sequence == tables.store[key].sequence
  {
    hide HandlerData, TypeOf;
    var typed :| typed in tables.typed && tables.typed[typed].sequence == tables.store[key].sequence;
    assert Carried(tables, typed);
    assert KeyOf(tables.typed[typed].envelope) == key;
    assert OnChainButStamp(chain, LogOf(tables.typed[typed]));
  }

  lemma DoubledLacksARow(chain: Chain, tables: Tables, x: StoreKey, y: StoreKey)
    requires Stamped(chain, tables) && Doubled(chain, tables, x, y)
    ensures !HasTypedRow(tables, x) || !HasTypedRow(tables, y)
  {
    hide HandlerData, HasTypedRow;
    if HasTypedRow(tables, x) && HasTypedRow(tables, y) {
      TypedRowIsOwn(chain, tables, x);
      TypedRowIsOwn(chain, tables, y);
    }
  }

  /** Every stored row has a typed row with its number exactly if no log of the four tables without the
      timestamp is stored under two. */
  lemma TypedRowsIffNotDoubled(chain: Chain, tables: Tables)
    requires Stamped(chain, tables)
    ensures (forall key <- tables.store :: HasTypedRow(tables, key)) <==>
            forall x, y :: !Doubled(chain, tables, x, y)
  {
    hide Stamped;
    if forall x, y :: !Doubled(chain, tables, x, y) {
      forall key <- tables.store ensures HasTypedRow(tables, key) {
        var own, typed := TypedRowOf(chain, tables, key);
        assert !Doubled(chain, tables, key, own);
      }
    }
    if x, y :| Doubled(chain, tables, x, y) {
      DoubledLacksARow(chain, tables, x, y);
    }
  }

  predicate CommittedUnder(steps: seq<Step>, key: StoreKey) {
    exists step <- steps :: step.Commit? && exists log <- step.logs :: KeyOf(log.envelope) == key
  }

  lemma {:induction false} StoredByWrite(tables: Tables, logs: seq<LogEntry>, now: int, key: StoreKey)
    ensures key in WriteEach(tables, logs, now).store <==>
            key in tables.store || exists log <- logs :: KeyOf(log.envelope) == key
    decreases |logs|
  {
    if logs != [] {
      hide HandlerData, TypeOf, TypedKeyOf;
      StoredByWrite(WriteOne(tables, logs[0], now), logs[1..], now, key);
      assert logs == [logs[0]] + logs[1..];
      assert logs[0] in logs;
    }
  }

  lemma {:induction false} StoredIsCommitted(tables: Tables, steps: seq<Step>, key: StoreKey)
    ensures key in Run(tables, steps).store <==> key in tables.store || CommittedUnder(steps, key)
    decreases |steps|
  {
    if steps != [] {
      hide WriteEach, KeyOf;
      StoredIsCommitted(Perform(tables, steps[0]), steps[1..], key);
      assert steps == [steps[0]] + steps[1..];
      assert steps[0] in steps;
      if steps[0].Commit? {
        StoredByWrite(tables, steps[0].logs, steps[0].now, key);
      }
    }
  }

  /** Two timestamps under which one log of a table without timestamp was committed. */
  ghost predicate CommittedTwice(chain: Chain, steps: seq<Step>, x: StoreKey, y: StoreKey) {
    var location := Location(x.transactionHash, x.logIndex);
    && CommittedUnder(steps, x) && CommittedUnder(steps, y) && x != y
    && Location(y.transactionHash, y.logIndex) == location
    && location in chain && !KeyedByStamp(chain[location].columns)
  }

  /** Over every run: all generic rows have typed rows exactly when no log of those tables was committed
      under two timestamps. */
  lemma TypedRowsOverRuns(chain: Chain, steps: seq<Step>)
    requires forall location <- chain :: LocationOf(chain[location].envelope) == location
    requires forall step <- steps :: StepOnChainButStamp(chain, step)
    ensures var tables := Run(EMPTY, steps);
            (forall key <- tables.store :: HasTypedRow(tables, key)) <==>
            forall x, y :: !CommittedTwice(chain, steps, x, y)
  {
    var tables := Run(EMPTY, steps);
    assert Stamped(chain, EMPTY);
    RunKeepsStamped(chain, EMPTY, steps);
    TypedRowsIffNotDoubled(chain, tables);
    hide Run, CommittedUnder, KeyedByStamp, HasTypedRow;
    forall x, y ensures CommittedTwice(chain, steps, x, y) <==> Doubled(chain, tables, x, y) {
      StoredIsCommitted(EMPTY, steps, x);
      StoredIsCommitted(EMPTY, steps, y);
    }
  }

  // ---- The methods

  class Storage {
    const bulkChunkSize: nat
    const handlerChunkSize: nat
    var tables: Tables

    ghost predicate Valid()
      reads this
    {
      bulkChunkSize >= 1 && handlerChunkSize >= 1 && Canonical(tables)
    }

    constructor (bulkChunkSize: nat, handlerChunkSize: nat)
      requires bulkChunkSize >= 1 && handlerChunkSize >= 1
      ensures Valid() && tables == EMPTY
      ensures this.bulkChunkSize == bulkChunkSize && this.handlerChunkSize == handlerChunkSize
    {
      this.bulkChunkSize := bulkChunkSize;
      this.handlerChunkSize := handlerChunkSize;
      tables := EMPTY;
    }

    method BulkInsertEventStore(events: seq<EventRecord>, now: int)
      requires Valid()
      modifies this
      ensures Valid() && tables == StoreAll(old(tables), events, now)
    {
      var start := 0;
      while start < |events|
        invariant start <= |events|
        invariant tables == StoreAll(old(tables), events[..start], now)
      {
        var end := if start + bulkChunkSize < |events| then start + bulkChunkSize else |events|;
        StoreAppend(old(tables), events[..start], events[start..end], now);
        assert events[..end] == events[..start] + events[start..end];
        tables := StoreAll(tables, events[start..end], now);
        start := end;
      }
      assert events[..start] == events;
      StoreAllStores(old(tables), events, now);
    }

    /** The numbers of the canonical rows with these keys, in the order of the input. */
    method FetchSequenceNumbers(transactionHashes: seq<string>, logIndices: seq<int>, blockTimestamps: seq<int>)
      returns (sequences: seq<nat>)
      requires Valid()
      requires |transactionHashes| == |logIndices| == |blockTimestamps|
      ensures sequences == Fetch(tables.store, Zip(transactionHashes, logIndices, blockTimestamps))
    {
      sequences := [];
      var start := 0;
      ghost var keys := Zip(transactionHashes, logIndices, blockTimestamps);
      while start < |transactionHashes|
        invariant start <= |transactionHashes|
        invariant sequences == Fetch(tables.store, keys[..start])
      {
        var end := if start + bulkChunkSize < |transactionHashes| then start + bulkChunkSize else |transactionHashes|;
        var chunk := Zip(transactionHashes[start..end], logIndices[start..end], blockTimestamps[start..end]);
        assert chunk == keys[start..end];
        FetchAppend(tables.store, keys[..start], keys[start..end]);
        assert keys[..end] == keys[..start] + keys[start..end];
        sequences := sequences + Fetch(tables.store, chunk);
        start := end;
      }
      assert keys[..start] == keys;
    }

    /** The insert into the typed table, a chunk of rows and its slice of the numbers at a time. */
    method InsertTyped(typed: seq<LogEntry>, sequences: seq<nat>)
      requires Valid() && |sequences| == |typed|
      modifies this
      ensures tables == TypedAll(old(tables), typed, sequences)
    {
      hide TypedOne;
      var offset := 0;
      while offset < |typed|
        invariant offset <= |typed|
        invariant tables == TypedAll(old(tables), typed[..offset], sequences[..offset])
      {
        var end := if offset + bulkChunkSize < |typed| then offset + bulkChunkSize else |typed|;
        TypedAppend(old(tables), typed[..offset], typed[offset..end], sequences[..offset], sequences[offset..end]);
        assert typed[..end] == typed[..offset] + typed[offset..end];
        assert sequences[..end] == sequences[..offset] + sequences[offset..end];
        tables := TypedAll(tables, typed[offset..end], sequences[offset..end]);
        offset := end;
      }
      assert typed[..offset] == typed && sequences[..offset] == sequences;
    }

    /** One of the seven dual-write methods, given records that correspond position by position. */
    method InsertEvents(events: seq<EventRecord>, typed: seq<LogEntry>, now: int)
      requires Valid() && events == Records(typed)
      modifies this
      ensures Valid() && tables == WriteEach(old(tables), typed, now)
    {
      hide StoreAll, Fetch, TypedAll, WriteOne;
      if events == [] {
        return;
      }
      ghost var before := tables;
      BulkInsertEventStore(events, now);
      var transactionHashes := seq(|typed|, i requires 0 <= i < |typed| => typed[i].envelope.transactionHash);
      var logIndices := seq(|typed|, i requires 0 <= i < |typed| => typed[i].envelope.logIndex);
      var blockTimestamps := seq(|typed|, i requires 0 <= i < |typed| => typed[i].envelope.blockTimestamp);
      var sequences := FetchSequenceNumbers(transactionHashes, logIndices, blockTimestamps);
      assert Keys(typed) == Zip(transactionHashes, logIndices, blockTimestamps);
      FetchAfterStore(before, typed, now);
      InsertTyped(typed, sequences);
      BatchIsLogByLog(before, typed, now);
      WriteKeepsCanonical(before, typed, now);
    }

    /** An event handler: builds both records of every log, a bounded number of logs at a time. A failing
        insert rolls back and ends the call; what was committed before it stays. */
    method Handle(results: seq<LogEntry>, now: int, fault: Option<Fault>) returns (done: nat)
      requires Valid()
      modifies this
      ensures Valid() && done <= |results|
      ensures done == |results| <==> fault.None? || fault.value.at >= |results|
      ensures done == |results| ==> tables == WriteEach(old(tables), results, now)
      ensures done < |results| ==>
                && done <= fault.value.at < done + handlerChunkSize
                && tables == Run(old(tables), [Commit(results[..done], now), RollBack(fault.value.used)])
    {
      hide WriteOne, RecordOf, WriteEach;
      done := 0;
      WriteNothing(tables, results[..0], now);
      while done < |results|
        invariant done <= |results| && Valid()
        invariant fault.Some? && fault.value.at < |results| ==> done <= fault.value.at
        invariant tables == WriteEach(old(tables), results[..done], now)
      {
        var end := if done + handlerChunkSize < |results| then done + handlerChunkSize else |results|;
        var chunk := results[done..end];
        var events, typed := [], [];
        for i := 0 to |chunk|
          invariant typed == chunk[..i] && events == Records(typed)
        {
          events := events + [RecordOf(chunk[i])];
          typed := typed + [chunk[i]];
        }
        assert typed == chunk;
        if fault.Some? && fault.value.at < end {
          tables := tables.(next := tables.next + fault.value.used);
          RunOfTwo(old(tables), Commit(results[..done], now), RollBack(fault.value.used));
          return;
        }
        WriteAppend(old(tables), results[..done], chunk, now);
        assert results[..end] == results[..done] + chunk;
        InsertEvents(events, typed, now);
        done := end;
      }
      assert results[..done] == results;
    }
  }

  /** The insert of the sub-batch with this log fails, after using up some sequence numbers. */
  datatype Fault = Fault(at: nat, used: nat)

  lemma WriteNothing(tables: Tables, logs: seq<LogEntry>, now: int)
    requires logs == []
    ensures WriteEach(tables, logs, now) == tables
  {
  }

  lemma RunOfTwo(tables: Tables, first: Step, second: Step)
    ensures Run(tables, [first, second]) == Perform(Perform(tables, first), second)
  {
    hide Perform;
    assert [first, second][1..] == [second] && [second][1..] == [];
    assert Run(Perform(tables, first), [second]) == Run(Perform(Perform(tables, first), second), []);
  }

  /** UNNEST of three arrays. */
  function Zip(transactionHashes: seq<string>, logIndices: seq<int>, blockTimestamps: seq<int>): (keys: seq<StoreKey>)
    requires |transactionHashes| == |logIndices| == |blockTimestamps|
    ensures |keys| == |transactionHashes|
  {
    seq(|transactionHashes|, i requires 0 <= i < |transactionHashes| =>
      StoreKey(transactionHashes[i], logIndices[i], blockTimestamps[i]))
  }
}
