/**
 Checkpoints (`crates/projections/src/resilience/checkpoint.rs`) and the worker loop around them
 (`crates/projections/src/worker/pg.rs`), driving `vault_state:dual`. The loop is a state machine in
 which the process may die, or a commit fail, between any two steps.
 */
module Checkpoint {
  import opened Wrappers
  import opened ShardKey
  import opened KgMarket
  import opened Projections

  // ---- The table

  /** The stored key joins the two names with a colon; the pair itself is kept here. */
  datatype CheckpointKey = CheckpointKey(projection: string, sink: string)

  datatype Saved = Saved(sequence: nat, blockNumber: int)

  class CheckpointStore {
    var rows: map<CheckpointKey, Saved>

    constructor ()
      ensures rows == map[]
    {
      rows := map[];
    }

    /** The last saved sequence number, or 0. */
    method GetCheckpoint(projection: string, sink: string) returns (sequence: nat)
      ensures sequence == LastSequence(rows, CheckpointKey(projection, sink))
    {
      var key := CheckpointKey(projection, sink);
      sequence := if key in rows then rows[key].sequence else 0;
    }

    method SaveCheckpoint(projection: string, sink: string, sequence: nat, blockNumber: int)
      modifies this
      ensures rows == old(rows)[CheckpointKey(projection, sink) := Saved(sequence, blockNumber)]
    {
      rows := rows[CheckpointKey(projection, sink) := Saved(sequence, blockNumber)];
    }
  }

  function LastSequence(rows: map<CheckpointKey, Saved>, key: CheckpointKey): nat {
    match Lookup(rows, key) case None => 0 case Some(row) => row.sequence
  }

  // ---- The worker

  datatype Memory = Idle | Loaded(batch: seq<ParsedEvent>) | Applied(batch: seq<ParsedEvent>)

  /** `log` is what readers can see, by sequence number; `high` is how far into it any batch has got. */
  datatype Worker = Worker(log: seq<ParsedEvent>, market: Market, saved: nat, memory: Memory, high: nat)

  datatype Step =
    | Appear(event: ParsedEvent)   // a row becomes visible
    | Read(size: nat)              // the events after the checkpoint
    | Apply                        // both databases commit
    | ApplyKgOnly                  // the second commit fails: the batch will be retried
    | Save                         // the checkpoint moves to the end of the applied batch
    | Crash                        // or the checkpoint cannot be saved: back to the poll

  function Insert(log: seq<ParsedEvent>, event: ParsedEvent): seq<ParsedEvent> {
    if log == [] || log[|log| - 1].metadata.sequence < event.metadata.sequence then log + [event]
    else Insert(log[..|log| - 1], event) + [log[|log| - 1]]
  }

  /** WHERE sequence_number > saved. */
  function Unread(log: seq<ParsedEvent>, saved: nat): seq<ParsedEvent> {
    if log == [] then []
    else (if log[0].metadata.sequence > saved then [log[0]] else []) + Unread(log[1..], saved)
  }

  function Limit(events: seq<ParsedEvent>, size: nat): seq<ParsedEvent> {
    if |events| <= size then events else events[..size]
  }

  function Max(a: nat, b: nat): nat {
    if a < b then b else a
  }

  /** Steps that make no sense in a state leave it alone. */
  function Advance(shard: Shard, worker: Worker, step: Step): Worker {
    match step
    case Appear(event) => worker.(log := Insert(worker.log, event))
    case Read(size) =>
      var batch := Limit(Unread(worker.log, worker.saved), size);
      if worker.memory.Idle? && batch != [] then worker.(memory := Loaded(batch)) else worker
    case Apply =>
      if worker.memory.Loaded? then Committed(shard, worker).(memory := Applied(worker.memory.batch)) else worker
    case ApplyKgOnly =>
      if worker.memory.Loaded? then Committed(shard, worker) else worker
    case Save =>
      if worker.memory.Applied? && worker.memory.batch != []
      then worker.(saved := worker.memory.batch[|worker.memory.batch| - 1].metadata.sequence, memory := Idle)
      else worker
    case Crash => worker.(memory := Idle)
  }

  function Committed(shard: Shard, worker: Worker): Worker
    requires worker.memory.Loaded?
  {
    var end := |worker.log| - |Unread(worker.log, worker.saved)| + |worker.memory.batch|;
    worker.(market := VaultStateBatch(worker.market, shard, worker.memory.batch),
            high := if end < 0 then worker.high else Max(worker.high, end))
  }

  function Execute(shard: Shard, worker: Worker, steps: seq<Step>): Worker
    decreases |steps|
  {
    if steps == [] then worker else Execute(shard, Advance(shard, worker, steps[0]), steps[1..])
  }

  const START := Worker([], EMPTY_MARKET, 0, Idle, 0)

  /** Rows become visible in the order of their numbers, which start at 1. */
  predicate Orderly(shard: Shard, worker: Worker, steps: seq<Step>)
    decreases |steps|
  {
    steps == []
    || ((steps[0].Appear? ==> steps[0].event.metadata.sequence > LastOf(worker.log))
        && Orderly(shard, Advance(shard, worker, steps[0]), steps[1..]))
  }

  function LastOf(log: seq<ParsedEvent>): nat {
    if log == [] then 0 else log[|log| - 1].metadata.sequence
  }

  // ---- The part of the tables that replay must not disturb

  /** Columns that only price events set. */
  datatype Snapshot = Snapshot(totalShares: int, sharePrice: int, totalAssets: Option<int>, marketCap: int)

  const BLANK := Snapshot(0, 0, None, 0)

  function SnapshotOf(row: Option<VaultRow>): Option<Snapshot> {
    match row
    case None => None
    case Some(r) => Some(Snapshot(r.totalShares, r.sharePrice, r.totalAssets, r.marketCap))
  }

  /** One vault's snapshot, and the whole of `market.events`. */
  datatype View = View(snapshot: Option<Snapshot>, events: EventRows)

  function ViewOf(market: Market, vault: VaultKey): View {
    View(SnapshotOf(Lookup(market.vaults, vault)), market.events)
  }

  function Seen(snapshot: Option<Snapshot>, event: ParsedEvent): Option<Snapshot> {
    match event
    case SharePriceChanged(_, _, sharePrice, totalAssets, totalShares, marketCap) =>
      Some(Snapshot(totalShares, sharePrice, Some(totalAssets), marketCap))
    case _ => if snapshot.None? then Some(BLANK) else snapshot
  }

  function ViewAfter(view: View, shard: Shard, vault: VaultKey, event: ParsedEvent): View {
    if event.Other? || !Owns(shard, event.vault) then view
    else View(if event.vault == vault then Seen(view.snapshot, event) else view.snapshot,
              InsertEvent(view.events, event))
  }

  function ViewFold(view: View, shard: Shard, vault: VaultKey, events: seq<ParsedEvent>): View
    decreases |events|
  {
    if events == [] then view else ViewFold(ViewAfter(view, shard, vault, events[0]), shard, vault, events[1..])
  }

  lemma {:induction false} ApplyAllByView(market: Market, shard: Shard, vault: VaultKey, events: seq<ParsedEvent>)
    ensures ViewOf(ApplyAll(market, shard, events), vault) == ViewFold(ViewOf(market, vault), shard, vault, events)
    decreases |events|
  {
    if events != [] {
      hide Owns, EventKeyOf, EventRowOf;
      assert ViewOf(ApplyToMarket(market, shard, events[0]), vault)
          == ViewAfter(ViewOf(market, vault), shard, vault, events[0]);
      ApplyAllByView(ApplyToMarket(market, shard, events[0]), shard, vault, events[1..]);
    }
  }

  /** The refresh of holder counts at the end of a batch is not in the view. */
  lemma BatchByView(market: Market, shard: Shard, vault: VaultKey, batch: seq<ParsedEvent>)
    ensures ViewOf(VaultStateBatch(market, shard, batch), vault) == ViewFold(ViewOf(market, vault), shard, vault, batch)
  {
    hide ApplyAll, Touched, Holders, ViewFold;
    ApplyAllByView(market, shard, vault, batch);
  }

  lemma {:induction false} ViewAppend(view: View, shard: Shard, vault: VaultKey,
                                      front: seq<ParsedEvent>, back: seq<ParsedEvent>)
    ensures ViewFold(view, shard, vault, front + back)
         == ViewFold(ViewFold(view, shard, vault, front), shard, vault, back)
    decreases |front|
  {
    if front == [] {
      assert front + back == back;
    } else {
      hide ViewAfter;
      assert (front + back)[1..] == front[1..] + back;
      ViewAppend(ViewAfter(view, shard, vault, front[0]), shard, vault, front[1..], back);
    }
  }

  /** Some row for every event, and a snapshot if the vault is among them. */
  ghost predicate Covers(view: View, shard: Shard, vault: VaultKey, events: seq<ParsedEvent>) {
    forall event <- events :: Counts(shard, event) ==>
      EventKeyOf(event) in view.events && (event.vault == vault ==> view.snapshot.Some?)
  }

  lemma {:induction false} FoldCovers(view: View, shard: Shard, vault: VaultKey,
                                      before: seq<ParsedEvent>, events: seq<ParsedEvent>)
    requires Covers(view, shard, vault, before)
    ensures Covers(ViewFold(view, shard, vault, events), shard, vault, before)
    ensures Covers(ViewFold(view, shard, vault, events), shard, vault, events)
    decreases |events|
  {
    if events != [] {
      hide Owns, EventKeyOf, EventRowOf;
      var next := ViewAfter(view, shard, vault, events[0]);
      assert Covers(next, shard, vault, before + [events[0]]);
      FoldCovers(next, shard, vault, before + [events[0]], events[1..]);
      var after := ViewFold(view, shard, vault, events);
      forall event <- before ensures event in before + [events[0]] {}
      forall event <- events ensures event in before + [events[0]] || event in events[1..] {}
    }
  }

  /** What the last price event about the vault says. */
  function LastPrice(shard: Shard, vault: VaultKey, events: seq<ParsedEvent>): Option<Snapshot> {
    if events == [] then None
    else
      var later := LastPrice(shard, vault, events[1..]);
      if later.None? && Counts(shard, events[0]) && events[0].vault == vault && events[0].SharePriceChanged?
      then Seen(None, events[0]) else later
  }

  lemma {:induction false} LastPriceWins(view: View, shard: Shard, vault: VaultKey, events: seq<ParsedEvent>)
    requires LastPrice(shard, vault, events).Some?
    ensures ViewFold(view, shard, vault, events).snapshot == LastPrice(shard, vault, events)
    decreases |events|
  {
    hide Owns, EventKeyOf, EventRowOf;
    var next := ViewAfter(view, shard, vault, events[0]);
    if LastPrice(shard, vault, events[1..]).Some? {
      LastPriceWins(next, shard, vault, events[1..]);
    } else {
      NoPriceKeeps(next, shard, vault, events[1..]);
    }
  }

  lemma {:induction false} NoPriceKeeps(view: View, shard: Shard, vault: VaultKey, events: seq<ParsedEvent>)
    requires LastPrice(shard, vault, events).None? && view.snapshot.Some?
    ensures ViewFold(view, shard, vault, events).snapshot == view.snapshot
    decreases |events|
  {
    if events != [] {
      hide Owns, EventKeyOf, EventRowOf;
      NoPriceKeeps(ViewAfter(view, shard, vault, events[0]), shard, vault, events[1..]);
    }
  }

  lemma {:induction false} RevisitedEvents(view: View, shard: Shard, vault: VaultKey, events: seq<ParsedEvent>)
    requires Covers(view, shard, vault, events)
    ensures ViewFold(view, shard, vault, events).events == view.events
    ensures view.snapshot.None? ==> ViewFold(view, shard, vault, events).snapshot.None?
    ensures view.snapshot.None? ==> LastPrice(shard, vault, events).None?
    decreases |events|
  {
    if events != [] {
      hide Owns, EventKeyOf, EventRowOf;
      var next := ViewAfter(view, shard, vault, events[0]);
      assert events[0] in events;
      assert next.events == view.events && (view.snapshot.None? ==> next.snapshot.None?);
      forall event <- events[1..]
        ensures Counts(shard, event) ==>
                  EventKeyOf(event) in next.events && (event.vault == vault ==> next.snapshot.Some?)
      {
        assert event in events;
      }
      RevisitedEvents(next, shard, vault, events[1..]);
    }
  }

  /** Applying a batch a second time changes nothing in the view. */
  lemma ReplayIsInvisible(view: View, shard: Shard, vault: VaultKey, events: seq<ParsedEvent>)
    ensures var once := ViewFold(view, shard, vault, events);
            ViewFold(once, shard, vault, events) == once
  {
    hide ViewFold, Counts, Covers, ViewAfter;
    var once := ViewFold(view, shard, vault, events);
    var twice := ViewFold(once, shard, vault, events);
    NothingCovered(view, shard, vault);
    FoldCovers(view, shard, vault, [], events);
    RevisitedEvents(once, shard, vault, events);
    if LastPrice(shard, vault, events).Some? {
      LastPriceWins(view, shard, vault, events);
      LastPriceWins(once, shard, vault, events);
    } else if once.snapshot.Some? {
      NoPriceKeeps(once, shard, vault, events);
    }
  }

  lemma NothingCovered(view: View, shard: Shard, vault: VaultKey)
    ensures Covers(view, shard, vault, [])
  {
  }

  // ---- What every orderly run keeps

  predicate Ordered(log: seq<ParsedEvent>) {
    && (forall i :: 0 <= i < |log| ==> log[i].metadata.sequence > 0)
    && forall i, j :: 0 <= i < j < |log| ==> log[i].metadata.sequence < log[j].metadata.sequence
  }

  function SequenceAt(log: seq<ParsedEvent>, place: nat): nat
    requires place <= |log|
  {
    LastOf(log[..place])
  }

  lemma {:induction false} UnreadSplit(log: seq<ParsedEvent>, saved: nat, place: nat)
    requires place <= |log|
    requires forall i :: 0 <= i < place ==> log[i].metadata.sequence <= saved
    requires forall i :: place <= i < |log| ==> log[i].metadata.sequence > saved
    ensures Unread(log, saved) == log[place..]
    decreases |log|
  {
    if log != [] {
      UnreadSplit(log[1..], saved, if place == 0 then 0 else place - 1);
      if place == 0 {
        assert log == [log[0]] + log[1..];
      }
    }
  }

  lemma UnreadFrom(log: seq<ParsedEvent>, place: nat)
    requires Ordered(log) && place <= |log|
    ensures Unread(log, SequenceAt(log, place)) == log[place..]
  {
    var saved := SequenceAt(log, place);
    forall i | 0 <= i < |log| ensures log[i].metadata.sequence <= saved <==> i < place {
      if place > 0 {
        assert saved == log[place - 1].metadata.sequence;
      }
    }
    hide Ordered, SequenceAt;
    UnreadSplit(log, saved, place);
  }

  const UNSEEN := View(None, map[])

  /** Going on from this place would end, at the high mark, where one pass over the log ends. */
  ghost predicate Resumes(shard: Shard, worker: Worker, vault: VaultKey, place: nat) {
    && place <= worker.high <= |worker.log|
    && ViewFold(ViewOf(worker.market, vault), shard, vault, worker.log[place..worker.high])
       == ViewFold(UNSEEN, shard, vault, worker.log[..worker.high])
  }

  /** The batch in memory starts where the checkpoint is. */
  ghost predicate Held(worker: Worker, place: nat) {
    !worker.memory.Idle? ==>
      var end := place + |worker.memory.batch|;
      && worker.memory.batch != [] && end <= |worker.log| && worker.memory.batch == worker.log[place..end]
      && (worker.memory.Applied? ==> end <= worker.high)
  }

  ghost predicate Restorable(shard: Shard, worker: Worker, vault: VaultKey, place: nat) {
    && Resumes(shard, worker, vault, place)
    && (worker.memory.Applied? ==> Resumes(shard, worker, vault, place + |worker.memory.batch|))
    && Covers(ViewOf(worker.market, vault), shard, vault, worker.log[..worker.high])
  }

  ghost predicate Safe(shard: Shard, worker: Worker, place: nat) {
    && Ordered(worker.log) && place <= worker.high <= |worker.log|
    && worker.saved == SequenceAt(worker.log, place)
    && Held(worker, place)
    && forall vault :: Restorable(shard, worker, vault, place)
  }

  lemma CommitResumes(shard: Shard, vault: VaultKey, view: View, log: seq<ParsedEvent>, place: nat, end: nat, high: nat)
    requires place <= end <= |log| && place <= high <= |log|
    requires ViewFold(view, shard, vault, log[place..high]) == ViewFold(UNSEEN, shard, vault, log[..high])
    ensures var after, top := ViewFold(view, shard, vault, log[place..end]), Max(high, end);
            && ViewFold(after, shard, vault, log[end..top]) == ViewFold(UNSEEN, shard, vault, log[..top])
            && ViewFold(after, shard, vault, log[place..top]) == ViewFold(UNSEEN, shard, vault, log[..top])
  {
    hide ViewFold, ViewAfter;
    var batch := log[place..end];
    var after := ViewFold(view, shard, vault, batch);
    ReplayIsInvisible(view, shard, vault, batch);
    if end <= high {
      assert log[place..high] == batch + log[end..high];
      ViewAppend(view, shard, vault, batch, log[end..high]);
      ViewAppend(after, shard, vault, batch, log[end..high]);
    } else {
      assert batch == log[place..high] + log[high..end] && log[..end] == log[..high] + log[high..end];
      ViewAppend(view, shard, vault, log[place..high], log[high..end]);
      ViewAppend(UNSEEN, shard, vault, log[..high], log[high..end]);
      FoldNothing(after, shard, vault, log[end..end]);
    }
  }

  lemma FoldNothing(view: View, shard: Shard, vault: VaultKey, events: seq<ParsedEvent>)
    requires events == []
    ensures ViewFold(view, shard, vault, events) == view
  {
  }

  lemma CommitCovers(shard: Shard, vault: VaultKey, view: View, log: seq<ParsedEvent>, place: nat, end: nat, high: nat)
    requires place <= end <= |log| && place <= high <= |log|
    requires Covers(view, shard, vault, log[..high])
    ensures Covers(ViewFold(view, shard, vault, log[place..end]), shard, vault, log[..Max(high, end)])
  {
    hide ViewFold, Counts;
    FoldCovers(view, shard, vault, log[..high], log[place..end]);
    forall event <- log[..Max(high, end)] ensures event in log[..high] || event in log[place..end] {
      var i :| 0 <= i < Max(high, end) && log[i] == event;
      if i < high {
        assert log[..high][i] == event;
      } else {
        assert log[place..end][i - place] == event;
      }
    }
  }

  lemma CommitKeepsSafe(shard: Shard, worker: Worker, place: nat, step: Step)
    requires Safe(shard, worker, place) && worker.memory.Loaded? && (step.Apply? || step.ApplyKgOnly?)
    ensures Safe(shard, Advance(shard, worker, step), place)
  {
    hide ViewFold, Covers, Ordered, ViewOf, VaultStateBatch;
    var after := Advance(shard, worker, step);
    UnreadFrom(worker.log, place);
    var end := place + |worker.memory.batch|;
    assert after.high == Max(worker.high, end);
    forall vault ensures Restorable(shard, after, vault, place) {
      assert Restorable(shard, worker, vault, place);
      BatchByView(worker.market, shard, vault, worker.memory.batch);
      CommitResumes(shard, vault, ViewOf(worker.market, vault), worker.log, place, end, worker.high);
      CommitCovers(shard, vault, ViewOf(worker.market, vault), worker.log, place, end, worker.high);
    }
  }

  lemma AppearKeepsSafe(shard: Shard, worker: Worker, place: nat, event: ParsedEvent)
    requires Safe(shard, worker, place) && event.metadata.sequence > LastOf(worker.log)
    ensures Safe(shard, Advance(shard, worker, Appear(event)), place)
  {
    hide ViewFold, Covers, ViewOf;
    var after := Advance(shard, worker, Appear(event));
    assert after.log == worker.log + [event];
    assert after.log[..place] == worker.log[..place] && after.log[..worker.high] == worker.log[..worker.high];
    forall vault ensures Restorable(shard, after, vault, place) {
      assert Restorable(shard, worker, vault, place);
      assert after.log[place..worker.high] == worker.log[place..worker.high];
      if worker.memory.Applied? {
        var end := place + |worker.memory.batch|;
        assert after.log[end..worker.high] == worker.log[end..worker.high];
      }
    }
  }

  lemma ReadKeepsSafe(shard: Shard, worker: Worker, place: nat, size: nat)
    requires Safe(shard, worker, place)
    ensures Safe(shard, Advance(shard, worker, Read(size)), place)
  {
    hide ViewFold, Covers, Ordered, ViewOf;
    UnreadFrom(worker.log, place);
    var after := Advance(shard, worker, Read(size));
    forall vault ensures Restorable(shard, after, vault, place) {
      assert Restorable(shard, worker, vault, place);
    }
  }

  lemma SaveKeepsSafe(shard: Shard, worker: Worker, place: nat)
    requires Safe(shard, worker, place) && worker.memory.Applied?
    ensures Safe(shard, Advance(shard, worker, Save), place + |worker.memory.batch|)
  {
    hide ViewFold, Covers, Ordered, ViewOf;
    var after := Advance(shard, worker, Save);
    var end := place + |worker.memory.batch|;
    assert worker.log[..end][end - 1] == worker.memory.batch[|worker.memory.batch| - 1];
    forall vault ensures Restorable(shard, after, vault, end) {
      assert Restorable(shard, worker, vault, place);
    }
  }

  lemma CrashKeepsSafe(shard: Shard, worker: Worker, place: nat)
    requires Safe(shard, worker, place)
    ensures Safe(shard, Advance(shard, worker, Crash), place)
  {
    hide ViewFold, Covers, Ordered, ViewOf;
    var after := Advance(shard, worker, Crash);
    forall vault ensures Restorable(shard, after, vault, place) {
      assert Restorable(shard, worker, vault, place);
    }
  }

  lemma StepKeepsSafe(shard: Shard, worker: Worker, place: nat, step: Step) returns (next: nat)
    requires Safe(shard, worker, place)
    requires step.Appear? ==> step.event.metadata.sequence > LastOf(worker.log)
    ensures place <= next && Safe(shard, Advance(shard, worker, step), next)
  {
    hide Safe;
    next := place;
    match step
    case Appear(event) => AppearKeepsSafe(shard, worker, place, event);
    case Read(size) => ReadKeepsSafe(shard, worker, place, size);
    case Save =>
      if worker.memory.Applied? && worker.memory.batch != [] {
        SaveKeepsSafe(shard, worker, place);
        next := place + |worker.memory.batch|;
      }
    case Crash => CrashKeepsSafe(shard, worker, place);
    case _ =>
      if worker.memory.Loaded? {
        CommitKeepsSafe(shard, worker, place, step);
      }
  }

  lemma {:induction false} RunKeepsSafe(shard: Shard, worker: Worker, place: nat, steps: seq<Step>) returns (next: nat)
    requires Safe(shard, worker, place) && Orderly(shard, worker, steps)
    ensures place <= next && Safe(shard, Execute(shard, worker, steps), next)
    decreases |steps|
  {
    next := place;
    if steps != [] {
      hide Safe;
      next := StepKeepsSafe(shard, worker, place, steps[0]);
      next := RunKeepsSafe(shard, Advance(shard, worker, steps[0]), next, steps[1..]);
    }
  }

  lemma StartIsSafe(shard: Shard)
    ensures Safe(shard, START, 0)
  {
  }

  /** With the checkpoint at the head, the event rows and every price snapshot are those of one pass. */
  lemma AtHeadIsOnePass(shard: Shard, steps: seq<Step>, vault: VaultKey)
    requires Orderly(shard, START, steps)
    requires Execute(shard, START, steps).saved == LastOf(Execute(shard, START, steps).log)
    ensures var worker := Execute(shard, START, steps);
            ViewOf(worker.market, vault) == ViewOf(VaultStateBatch(EMPTY_MARKET, shard, worker.log), vault)
  {
    hide Execute, Orderly, Held, ViewFold, Covers, VaultStateBatch;
    var worker := Execute(shard, START, steps);
    StartIsSafe(shard);
    var place := RunKeepsSafe(shard, START, 0, steps);
    assert Restorable(shard, worker, vault, place);
    AtHead(worker.log, place);
    assert worker.log[..worker.high] == worker.log;
    FoldNothing(ViewOf(worker.market, vault), shard, vault, worker.log[place..worker.high]);
    BatchByView(EMPTY_MARKET, shard, vault, worker.log);
  }

  lemma AtHead(log: seq<ParsedEvent>, place: nat)
    requires Ordered(log) && place <= |log| && SequenceAt(log, place) == LastOf(log)
    ensures place == |log|
  {
  }

  // ---- The loop body

  /** How the last attempt at a batch ends: saved, given up, or applied without its checkpoint. */
  datatype Ending = Saves | GivesUp | SaveFails

  /** `partial` attempts before the last one failed after the KG commit; the batch is tried again. */
  datatype Outcome = Outcome(partial: nat, ending: Ending)

  function Retries(partial: nat): seq<Step> {
    seq(partial, _ => ApplyKgOnly)
  }

  function Finish(ending: Ending): seq<Step> {
    match ending
    case Saves => [Apply, Save]
    case GivesUp => []
    case SaveFails => [Apply]
  }

  /** One turn of the loop, as steps; every turn starts and ends idle. */
  function Turn(size: nat, outcome: Outcome): seq<Step> {
    [Read(size)] + Retries(outcome.partial) + Finish(outcome.ending) + [Crash]
  }

  lemma RunOne(shard: Shard, worker: Worker, step: Step)
    ensures Execute(shard, worker, [step]) == Advance(shard, worker, step)
  {
    hide Advance;
    assert [step][1..] == [];
  }

  lemma RunOfRetries(shard: Shard, worker: Worker, partial: nat)
    ensures Execute(shard, worker, Retries(partial + 1))
         == Advance(shard, Execute(shard, worker, Retries(partial)), ApplyKgOnly)
  {
    hide Advance;
    assert Retries(partial + 1) == Retries(partial) + [ApplyKgOnly];
    RunAppend(shard, worker, Retries(partial), [ApplyKgOnly]);
    RunOne(shard, Execute(shard, worker, Retries(partial)), ApplyKgOnly);
  }

  lemma {:induction false} IdleStays(shard: Shard, worker: Worker, steps: seq<Step>)
    requires worker.memory.Idle? && forall step <- steps :: !step.Appear? && !step.Read?
    ensures Execute(shard, worker, steps) == worker
    decreases |steps|
  {
    if steps != [] {
      assert steps[0] in steps;
      IdleStays(shard, worker, steps[1..]);
    }
  }

  lemma RunOfTurn(shard: Shard, worker: Worker, size: nat, outcome: Outcome)
    ensures var read := Advance(shard, worker, Read(size));
            var retried := Execute(shard, read, Retries(outcome.partial));
            Execute(shard, worker, Turn(size, outcome))
            == match outcome.ending
               case Saves => Advance(shard, Advance(shard, Advance(shard, retried, Apply), Save), Crash)
               case GivesUp => Advance(shard, retried, Crash)
               case SaveFails => Advance(shard, Advance(shard, retried, Apply), Crash)
    ensures var read := Advance(shard, worker, Read(size));
            read.memory.Idle? ==> Execute(shard, worker, Turn(size, outcome)) == read
  {
    hide Advance, Execute;
    var read := Advance(shard, worker, Read(size));
    var retries, finish := Retries(outcome.partial), Finish(outcome.ending);
    assert Turn(size, outcome) == [Read(size)] + (retries + (finish + [Crash]));
    RunAppend(shard, worker, [Read(size)], retries + (finish + [Crash]));
    RunOne(shard, worker, Read(size));
    RunAppend(shard, read, retries, finish + [Crash]);
    var retried := Execute(shard, read, retries);
    RunAppend(shard, retried, finish, [Crash]);
    RunOne(shard, Execute(shard, retried, finish), Crash);
    match outcome.ending {
      case Saves => RunOfTwo(shard, retried, Apply, Save);
      case GivesUp => RunOfNone(shard, retried);
      case SaveFails => RunOne(shard, retried, Apply);
    }
    if read.memory.Idle? {
      IdleStays(shard, read, retries + (finish + [Crash]));
    }
  }

  lemma RunOfNone(shard: Shard, worker: Worker)
    ensures Execute(shard, worker, []) == worker
  {
  }

  class PgWorker {
    const projection: VaultStateDualProjection
    const repo: KgMarketRepo
    const store: CheckpointStore
    const batchSize: nat

    constructor (projection: VaultStateDualProjection, repo: KgMarketRepo, store: CheckpointStore, batchSize: nat)
      ensures this.projection == projection && this.repo == repo && this.store == store
      ensures this.batchSize == batchSize
    {
      this.projection, this.repo, this.store, this.batchSize := projection, repo, store, batchSize;
    }

    /** A shard of several has its own checkpoint. */
    function CheckpointName(): string {
      if projection.totalShards > 1 then "vault_state:dual_s" + NatText(projection.shardId) else "vault_state:dual"
    }

    function ShardOf(): Shard {
      Shard(projection.hash, projection.shardId, projection.totalShards)
    }

    function Between(log: seq<ParsedEvent>, high: nat): Worker
      reads repo, store
    {
      Worker(log, MarketOf(repo), LastSequence(store.rows, CheckpointKey(CheckpointName(), "pg")), Idle, high)
    }

    /** Reads the checkpoint, then a batch, applies it as often as it takes and saves; what fails is given
        by `outcome`. */
    method Poll(log: seq<ParsedEvent>, outcome: Outcome, ghost high: nat) returns (ghost reached: nat)
      modifies repo, store
      ensures Between(log, reached) == Execute(ShardOf(), old(Between(log, high)), Turn(batchSize, outcome))
    {
      hide VaultStateBatch, Unread, CheckpointName, Execute, Retries, Turn;
      ghost var worker, shard := Between(log, high), ShardOf();
      RunOfTurn(shard, worker, batchSize, outcome);
      var saved := store.GetCheckpoint(CheckpointName(), "pg");
      var batch := Limit(Unread(log, saved), batchSize);
      reached := high;
      if batch == [] {
        return;
      }
      ghost var loaded := worker.(memory := Loaded(batch));
      ghost var current := loaded;
      RunOfNoRetries(shard, loaded);
      for i := 0 to outcome.partial
        invariant current == Execute(shard, loaded, Retries(i))
        invariant MarketOf(repo) == current.market && current.memory == loaded.memory
        invariant current.log == log && current.saved == saved
        invariant store.rows == old(store.rows)
      {
        projection.ProcessParsedBatch(repo, batch);
        RunOfRetries(shard, loaded, i);
        current := Advance(shard, current, ApplyKgOnly);
      }
      if !outcome.ending.GivesUp? {
        projection.ProcessParsedBatch(repo, batch);
        current := Advance(shard, current, Apply);
      }
      if outcome.ending.Saves? {
        var last := batch[|batch| - 1].metadata;
        store.SaveCheckpoint(CheckpointName(), "pg", last.sequence, last.blockNumber);
      }
      reached := current.high;
    }
  }

  /** A worker over empty tables begins where the runs of the state machine begin. */
  lemma FreshWorkerStarts(worker: PgWorker)
    requires worker.store.rows == map[] && MarketOf(worker.repo) == EMPTY_MARKET
    ensures worker.Between([], 0) == START
  {
  }

  /** No two shards of a projection share a checkpoint. */
  lemma ShardsHaveOwnCheckpoints(x: PgWorker, y: PgWorker)
    requires x.projection.totalShards == y.projection.totalShards > 1
    requires x.projection.shardId != y.projection.shardId
    ensures x.CheckpointName() != y.CheckpointName()
  {
    var prefix := "vault_state:dual_s";
    var s, t := NatText(x.projection.shardId), NatText(y.projection.shardId);
    if prefix + s == prefix + t {
      assert s == (prefix + s)[|prefix|..] && t == (prefix + t)[|prefix|..];
      NatTextIsInjective(x.projection.shardId, y.projection.shardId);
    }
  }

  lemma RunOfNoRetries(shard: Shard, worker: Worker)
    ensures Execute(shard, worker, Retries(0)) == worker
  {
  }

  lemma RunOfTwo(shard: Shard, worker: Worker, first: Step, second: Step)
    ensures Execute(shard, worker, [first, second]) == Advance(shard, Advance(shard, worker, first), second)
  {
    assert [first, second] == [first, second] + [];
    RunTwo(shard, worker, first, second, []);
  }

  // ---- A worker that stops failing reaches the head

  function Poll(size: nat): seq<Step> {
    [Crash, Read(size), Apply, Save]
  }

  function Polls(size: nat, times: nat): seq<Step> {
    if times == 0 then [] else Poll(size) + Polls(size, times - 1)
  }

  lemma {:induction false} RunAppend(shard: Shard, worker: Worker, front: seq<Step>, back: seq<Step>)
    ensures Execute(shard, worker, front + back) == Execute(shard, Execute(shard, worker, front), back)
    decreases |front|
  {
    if front == [] {
      assert front + back == back;
    } else {
      hide Advance;
      assert (front + back)[1..] == front[1..] + back;
      RunAppend(shard, Advance(shard, worker, front[0]), front[1..], back);
    }
  }

  lemma RunTwo(shard: Shard, worker: Worker, first: Step, second: Step, rest: seq<Step>)
    ensures Execute(shard, worker, [first, second] + rest)
         == Execute(shard, Advance(shard, Advance(shard, worker, first), second), rest)
  {
    hide Advance;
    var steps := [first, second] + rest;
    assert steps[1..] == [second] + rest && steps[1..][1..] == rest;
    assert Execute(shard, worker, steps) == Execute(shard, Advance(shard, worker, first), steps[1..]);
  }

  lemma RunOfPoll(shard: Shard, worker: Worker, size: nat)
    ensures Execute(shard, worker, Poll(size))
         == Advance(shard, Advance(shard, Advance(shard, Advance(shard, worker, Crash), Read(size)), Apply), Save)
  {
    hide Advance;
    assert Poll(size) == [Crash, Read(size)] + [Apply, Save] && [Apply, Save] == [Apply, Save] + [];
    RunTwo(shard, worker, Crash, Read(size), [Apply, Save]);
    RunTwo(shard, Advance(shard, Advance(shard, worker, Crash), Read(size)), Apply, Save, []);
  }

  lemma PollAdvances(shard: Shard, worker: Worker, place: nat, size: nat) returns (next: nat)
    requires Safe(shard, worker, place) && size > 0
    ensures Safe(shard, Execute(shard, worker, Poll(size)), next)
    ensures next == if place + size < |worker.log| then place + size else |worker.log|
    ensures Execute(shard, worker, Poll(size)).log == worker.log
  {
    hide Restorable, Ordered, Execute, VaultStateBatch, Unread, Poll;
    UnreadFrom(worker.log, place);
    CrashKeepsSafe(shard, worker, place);
    var idle := Advance(shard, worker, Crash);
    ReadKeepsSafe(shard, idle, place, size);
    var loaded := Advance(shard, idle, Read(size));
    RunOfPoll(shard, worker, size);
    if place == |worker.log| {
      next := place;
    } else {
      CommitKeepsSafe(shard, loaded, place, Apply);
      SaveKeepsSafe(shard, Advance(shard, loaded, Apply), place);
      next := place + |loaded.memory.batch|;
    }
  }

  lemma {:induction false} CatchesUp(shard: Shard, worker: Worker, place: nat, size: nat, times: nat)
    requires Safe(shard, worker, place) && size > 0 && place + times >= |worker.log|
    ensures Execute(shard, worker, Polls(size, times)).log == worker.log
    ensures Execute(shard, worker, Polls(size, times)).saved == LastOf(worker.log)
    decreases times
  {
    if times == 0 {
      assert worker.log[..place] == worker.log;
    } else {
      hide Safe, Execute, Advance, Poll;
      var next := PollAdvances(shard, worker, place, size);
      RunAppend(shard, worker, Poll(size), Polls(size, times - 1));
      SafePlace(shard, Execute(shard, worker, Poll(size)), next);
      CatchesUp(shard, Execute(shard, worker, Poll(size)), next, size, times - 1);
    }
  }

  lemma SafePlace(shard: Shard, worker: Worker, place: nat)
    requires Safe(shard, worker, place)
    ensures place <= |worker.log|
  {
  }

  // ---- Rows that become visible out of order

  /** The row has a number the checkpoint has passed, and it was not applied. */
  ghost predicate Missed(worker: Worker, late: ParsedEvent) {
    && EventKeyOf(late) !in worker.market.events
    && (forall event <- worker.log :: EventKeyOf(event) == EventKeyOf(late) ==>
          event.metadata.sequence <= worker.saved)
    && (!worker.memory.Idle? ==> forall event <- worker.memory.batch ::
          EventKeyOf(event) != EventKeyOf(late) && event.metadata.sequence > worker.saved)
  }

  predicate Elsewhere(step: Step, late: ParsedEvent) {
    step.Appear? ==> EventKeyOf(step.event) != EventKeyOf(late)
  }

  lemma {:induction false} UnreadIsAfter(log: seq<ParsedEvent>, saved: nat)
    ensures forall event <- Unread(log, saved) :: event in log && event.metadata.sequence > saved
    decreases |log|
  {
    if log != [] {
      UnreadIsAfter(log[1..], saved);
    }
  }

  lemma {:induction false} InsertAdds(log: seq<ParsedEvent>, event: ParsedEvent, other: ParsedEvent)
    ensures other in Insert(log, event) <==> other == event || other in log
    decreases |log|
  {
    if log != [] {
      InsertAdds(log[..|log| - 1], event, other);
      assert log == log[..|log| - 1] + [log[|log| - 1]];
    }
  }

  lemma {:induction false} ApplyAllAdds(market: Market, shard: Shard, events: seq<ParsedEvent>, key: EventKey)
    requires key !in market.events && forall event <- events :: EventKeyOf(event) != key
    ensures key !in ApplyAll(market, shard, events).events
    decreases |events|
  {
    if events != [] {
      hide Owns, EventKeyOf, EventRowOf, RowAfter;
      ApplyAllAdds(ApplyToMarket(market, shard, events[0]), shard, events[1..], key);
    }
  }

  lemma StepKeepsMissed(shard: Shard, worker: Worker, step: Step, late: ParsedEvent)
    requires Missed(worker, late) && Elsewhere(step, late)
    ensures Missed(Advance(shard, worker, step), late)
  {
    hide EventKeyOf, ApplyAll, Touched, Refreshed, Insert, Unread;
    match step
    case Appear(event) =>
      forall other ensures other in Insert(worker.log, event) <==> other == event || other in worker.log {
        InsertAdds(worker.log, event, other);
      }
    case Read(size) => UnreadIsAfter(worker.log, worker.saved);
    case Apply =>
      if worker.memory.Loaded? {
        ApplyAllAdds(worker.market, shard, worker.memory.batch, EventKeyOf(late));
      }
    case ApplyKgOnly =>
      if worker.memory.Loaded? {
        ApplyAllAdds(worker.market, shard, worker.memory.batch, EventKeyOf(late));
      }
    case Save =>
    case Crash =>
  }

  /** Once missed, a row is never applied, whatever the worker does next. */
  lemma {:induction false} MissedForGood(shard: Shard, worker: Worker, steps: seq<Step>, late: ParsedEvent)
    requires Missed(worker, late) && forall step <- steps :: Elsewhere(step, late)
    ensures EventKeyOf(late) !in Execute(shard, worker, steps).market.events
    decreases |steps|
  {
    if steps != [] {
      StepKeepsMissed(shard, worker, steps[0], late);
      MissedForGood(shard, Advance(shard, worker, steps[0]), steps[1..], late);
    }
  }

  // ---- Exactly when nothing is skipped

  /** No counted row up to the checkpoint lacks its row in `market.events`. */
  ghost predicate NoneMissing(shard: Shard, worker: Worker) {
    forall event <- worker.log :: Counts(shard, event) && event.metadata.sequence <= worker.saved ==>
      EventKeyOf(event) in worker.market.events
  }

  /** The step does not put the checkpoint past a row it has not read: rows that appear have numbers above
      the checkpoint, and a checkpoint is saved only if no other row has come to lie below it meanwhile. */
  predicate PassesNoRow(shard: Shard, worker: Worker, step: Step) {
    match step
    case Appear(event) => Counts(shard, event) ==> event.metadata.sequence > worker.saved
    case Save =>
      worker.memory.Applied? ==>
        forall event <- worker.log ::
          Counts(shard, event) && worker.saved < event.metadata.sequence <= LastOf(worker.memory.batch) ==>
            event in worker.memory.batch
    case _ => true
  }

  predicate PassesNone(shard: Shard, worker: Worker, steps: seq<Step>)
    decreases |steps|
  {
    steps == []
    || (PassesNoRow(shard, worker, steps[0]) && PassesNone(shard, Advance(shard, worker, steps[0]), steps[1..]))
  }

  ghost predicate Kept(shard: Shard, worker: Worker) {
    && NoneMissing(shard, worker)
    && (worker.memory.Applied? ==>
          forall event <- worker.memory.batch :: Counts(shard, event) ==> EventKeyOf(event) in worker.market.events)
  }

  lemma {:induction false} ApplyAllHas(market: Market, shard: Shard, events: seq<ParsedEvent>)
    ensures forall key <- market.events :: key in ApplyAll(market, shard, events).events
    ensures forall event <- events :: Counts(shard, event) ==>
              EventKeyOf(event) in ApplyAll(market, shard, events).events
    decreases |events|
  {
    if events != [] {
      hide Owns, EventKeyOf, EventRowOf, RowAfter;
      var next := ApplyToMarket(market, shard, events[0]);
      ApplyAllHas(next, shard, events[1..]);
      forall event <- events ensures event == events[0] || event in events[1..] {
      }
    }
  }

  lemma StepKeepsAll(shard: Shard, worker: Worker, step: Step)
    requires Kept(shard, worker) && PassesNoRow(shard, worker, step)
    ensures Kept(shard, Advance(shard, worker, step))
  {
    hide Counts, EventKeyOf, ApplyAll, Touched, Refreshed, Insert, Unread;
    match step
    case Appear(event) =>
      forall other ensures other in Insert(worker.log, event) <==> other == event || other in worker.log {
        InsertAdds(worker.log, event, other);
      }
    case Apply =>
      if worker.memory.Loaded? {
        ApplyAllHas(worker.market, shard, worker.memory.batch);
      }
    case ApplyKgOnly =>
      if worker.memory.Loaded? {
        ApplyAllHas(worker.market, shard, worker.memory.batch);
      }
    case _ =>
  }

  /** A run that passes no row skips none: crashes and retries included, and in whatever order rows appear. */
  lemma {:induction false} PassingNoneKeepsAll(shard: Shard, worker: Worker, steps: seq<Step>)
    requires Kept(shard, worker) && PassesNone(shard, worker, steps)
    ensures Kept(shard, Execute(shard, worker, steps))
    decreases |steps|
  {
    if steps != [] {
      hide Kept, Advance, PassesNoRow;
      StepKeepsAll(shard, worker, steps[0]);
      PassingNoneKeepsAll(shard, Advance(shard, worker, steps[0]), steps[1..]);
    }
  }

  // For the converse, rows have distinct numbers and distinct keys, as both are unique in event_store.

  predicate FreshStep(worker: Worker, step: Step) {
    step.Appear? ==> forall other <- worker.log ::
      EventKeyOf(other) != EventKeyOf(step.event) && other.metadata.sequence != step.event.metadata.sequence
  }

  predicate FreshRun(shard: Shard, worker: Worker, steps: seq<Step>)
    decreases |steps|
  {
    steps == [] || (FreshStep(worker, steps[0]) && FreshRun(shard, Advance(shard, worker, steps[0]), steps[1..]))
  }

  predicate Increasing(log: seq<ParsedEvent>) {
    forall i, j :: 0 <= i < j < |log| ==> log[i].metadata.sequence < log[j].metadata.sequence
  }

  predicate KeyIn(key: EventKey, log: seq<ParsedEvent>) {
    exists event <- log :: EventKeyOf(event) == key
  }

  /** Rows that came in below the batch in memory, after it was read, have never been applied. */
  ghost predicate Tracked(worker: Worker) {
    && Increasing(worker.log)
    && (forall x, y :: x in worker.log && y in worker.log && EventKeyOf(x) == EventKeyOf(y) ==> x == y)
    && (forall key <- worker.market.events :: KeyIn(key, worker.log))
    && (!worker.memory.Idle? ==>
          && worker.memory.batch != []
          && (forall event <- worker.memory.batch :: event in worker.log && event.metadata.sequence > worker.saved)
          && Unapplied(worker))
  }

  ghost predicate Unapplied(worker: Worker)
    requires !worker.memory.Idle?
  {
    forall event <- worker.log ::
      worker.saved < event.metadata.sequence <= LastOf(worker.memory.batch) && event !in worker.memory.batch ==>
        EventKeyOf(event) !in worker.market.events
  }

  lemma {:induction false} InsertIncreases(log: seq<ParsedEvent>, event: ParsedEvent)
    requires Increasing(log) && forall other <- log :: other.metadata.sequence != event.metadata.sequence
    ensures Increasing(Insert(log, event))
    decreases |log|
  {
    if log != [] && log[|log| - 1].metadata.sequence > event.metadata.sequence {
      var front, last := log[..|log| - 1], log[|log| - 1];
      InsertIncreases(front, event);
      forall other <- Insert(front, event) ensures other.metadata.sequence < last.metadata.sequence {
        InsertAdds(front, event, other);
      }
    }
  }

  lemma {:induction false} UnreadHas(log: seq<ParsedEvent>, saved: nat, event: ParsedEvent)
    requires event in log && event.metadata.sequence > saved
    ensures event in Unread(log, saved)
    decreases |log|
  {
    if event != log[0] {
      UnreadHas(log[1..], saved, event);
    }
  }

  lemma {:induction false} UnreadIncreases(log: seq<ParsedEvent>, saved: nat)
    requires Increasing(log)
    ensures Increasing(Unread(log, saved))
    decreases |log|
  {
    if log != [] {
      UnreadIncreases(log[1..], saved);
      UnreadIsAfter(log[1..], saved);
    }
  }

  /** A batch that was just read has every unread row up to its last. */
  lemma BatchIsInitial(log: seq<ParsedEvent>, saved: nat, size: nat, event: ParsedEvent)
    requires Increasing(log) && event in log
    requires Limit(Unread(log, saved), size) != []
    requires saved < event.metadata.sequence <= LastOf(Limit(Unread(log, saved), size))
    ensures event in Limit(Unread(log, saved), size)
  {
    hide Unread;
    UnreadHas(log, saved, event);
    UnreadIncreases(log, saved);
    var unread, batch := Unread(log, saved), Limit(Unread(log, saved), size);
    var i :| 0 <= i < |unread| && unread[i] == event;
    if i < |batch| {
      assert batch[i] == event;
    }
  }

  lemma AppearKeepsTracked(shard: Shard, worker: Worker, event: ParsedEvent)
    requires Tracked(worker) && FreshStep(worker, Appear(event))
    ensures Tracked(Advance(shard, worker, Appear(event)))
    ensures EventKeyOf(event) !in worker.market.events
  {
    hide EventKeyOf, Insert, Increasing;
    forall other ensures other in Insert(worker.log, event) <==> other == event || other in worker.log {
      InsertAdds(worker.log, event, other);
    }
    InsertIncreases(worker.log, event);
    assert EventKeyOf(event) in worker.market.events ==> KeyIn(EventKeyOf(event), worker.log);
    var after := Advance(shard, worker, Appear(event));
    forall key <- after.market.events ensures KeyIn(key, after.log) {
      assert KeyIn(key, worker.log);
    }
  }

  lemma ReadKeepsTracked(shard: Shard, worker: Worker, size: nat)
    requires Tracked(worker)
    ensures Tracked(Advance(shard, worker, Read(size)))
  {
    hide EventKeyOf, Unread, Increasing, KeyIn;
    var batch := Limit(Unread(worker.log, worker.saved), size);
    if worker.memory.Idle? && batch != [] {
      UnreadIsAfter(worker.log, worker.saved);
      forall event <- batch ensures event in Unread(worker.log, worker.saved) {
      }
      forall event <- worker.log | worker.saved < event.metadata.sequence <= LastOf(batch) ensures event in batch {
        BatchIsInitial(worker.log, worker.saved, size, event);
      }
    }
  }

  lemma CommitKeepsTracked(shard: Shard, worker: Worker, step: Step)
    requires Tracked(worker) && worker.memory.Loaded? && (step.Apply? || step.ApplyKgOnly?)
    ensures Tracked(Advance(shard, worker, step))
  {
    hide EventKeyOf, ApplyAll, Touched, Refreshed, Increasing, Unread;
    var batch := worker.memory.batch;
    var after := ApplyAll(worker.market, shard, batch).events;
    forall key <- after ensures KeyIn(key, worker.log) {
      if !KeyIn(key, worker.log) {
        ApplyAllAdds(worker.market, shard, batch, key);
      }
    }
    forall event <- worker.log
      | worker.saved < event.metadata.sequence <= LastOf(batch) && event !in batch
      ensures EventKeyOf(event) !in after
    {
      ApplyAllAdds(worker.market, shard, batch, EventKeyOf(event));
    }
  }

  lemma StepKeepsTracked(shard: Shard, worker: Worker, step: Step)
    requires Tracked(worker) && FreshStep(worker, step)
    ensures Tracked(Advance(shard, worker, step))
  {
    match step
    case Appear(event) => AppearKeepsTracked(shard, worker, event);
    case Read(size) => ReadKeepsTracked(shard, worker, size);
    case Apply =>
      if worker.memory.Loaded? {
        CommitKeepsTracked(shard, worker, step);
      }
    case ApplyKgOnly =>
      if worker.memory.Loaded? {
        CommitKeepsTracked(shard, worker, step);
      }
    case Save =>
    case Crash =>
  }

  /** A step that passes a row loses it. */
  lemma PassingMisses(shard: Shard, worker: Worker, step: Step) returns (late: ParsedEvent)
    requires Tracked(worker) && FreshStep(worker, step) && !PassesNoRow(shard, worker, step)
    ensures var after := Advance(shard, worker, step);
            late in after.log && Counts(shard, late) && Missed(after, late)
  {
    hide EventKeyOf, Increasing, KeyIn, Insert, Counts;
    match step
    case Appear(event) =>
      late := event;
      AppearKeepsTracked(shard, worker, event);
      forall other ensures other in Insert(worker.log, event) <==> other == event || other in worker.log {
        InsertAdds(worker.log, event, other);
      }
    case Save =>
      late :| late in worker.log && Counts(shard, late)
              && worker.saved < late.metadata.sequence <= LastOf(worker.memory.batch)
              && late !in worker.memory.batch;
  }

  lemma {:induction false} MissedAtTheEnd(shard: Shard, worker: Worker, steps: seq<Step>, late: ParsedEvent)
    requires late in worker.log && Missed(worker, late) && FreshRun(shard, worker, steps)
    ensures var after := Execute(shard, worker, steps); late in after.log && Missed(after, late)
    decreases |steps|
  {
    if steps != [] {
      hide Missed;
      StepKeepsMissed(shard, worker, steps[0], late);
      if steps[0].Appear? {
        InsertAdds(worker.log, steps[0].event, late);
      }
      MissedAtTheEnd(shard, Advance(shard, worker, steps[0]), steps[1..], late);
    }
  }

  lemma {:induction false} PassingNoneIsExact(shard: Shard, worker: Worker, steps: seq<Step>)
    requires Tracked(worker) && FreshRun(shard, worker, steps) && !PassesNone(shard, worker, steps)
    ensures !NoneMissing(shard, Execute(shard, worker, steps))
    decreases |steps|
  {
    hide Tracked, PassesNoRow, FreshStep, Counts, Advance;
    var next := Advance(shard, worker, steps[0]);
    if PassesNoRow(shard, worker, steps[0]) {
      StepKeepsTracked(shard, worker, steps[0]);
      PassingNoneIsExact(shard, next, steps[1..]);
    } else {
      var late := PassingMisses(shard, worker, steps[0]);
      MissedAtTheEnd(shard, next, steps[1..], late);
      assert late.metadata.sequence <= Execute(shard, worker, steps).saved;
    }
  }

  /** Over all runs: no row up to the checkpoint is missing exactly when no step passed one. */
  lemma NothingIsSkippedExactly(shard: Shard, steps: seq<Step>)
    requires FreshRun(shard, START, steps)
    ensures NoneMissing(shard, Execute(shard, START, steps)) <==> PassesNone(shard, START, steps)
  {
    if PassesNone(shard, START, steps) {
      PassingNoneKeepsAll(shard, START, steps);
    } else {
      PassingNoneIsExact(shard, START, steps);
    }
  }

  lemma SafePassesNoRow(shard: Shard, worker: Worker, place: nat, step: Step)
    requires Safe(shard, worker, place)
    requires step.Appear? ==> step.event.metadata.sequence > LastOf(worker.log)
    ensures PassesNoRow(shard, worker, step)
  {
    hide Restorable, Counts;
    match step
    case Appear(event) => assert place > 0 ==> worker.saved == worker.log[place - 1].metadata.sequence;
    case Save =>
      if worker.memory.Applied? {
        var end := place + |worker.memory.batch|;
        assert LastOf(worker.memory.batch) == worker.log[end - 1].metadata.sequence;
        forall event <- worker.log
          | worker.saved < event.metadata.sequence <= LastOf(worker.memory.batch)
          ensures event in worker.memory.batch
        {
          var i :| 0 <= i < |worker.log| && worker.log[i] == event;
          assert place <= i < end;
          assert worker.memory.batch[i - place] == event;
        }
      }
    case _ =>
  }

  lemma {:induction false} OrderlyPassesNone(shard: Shard, worker: Worker, place: nat, steps: seq<Step>)
    requires Safe(shard, worker, place) && Orderly(shard, worker, steps)
    ensures PassesNone(shard, worker, steps)
    decreases |steps|
  {
    if steps != [] {
      hide Safe, PassesNoRow, Advance;
      SafePassesNoRow(shard, worker, place, steps[0]);
      var next := StepKeepsSafe(shard, worker, place, steps[0]);
      OrderlyPassesNone(shard, Advance(shard, worker, steps[0]), next, steps[1..]);
    }
  }

  /** In particular nothing is skipped while rows become visible in the order of their numbers. */
  lemma NothingIsSkipped(shard: Shard, steps: seq<Step>, event: ParsedEvent)
    requires Orderly(shard, START, steps)
    requires event in Execute(shard, START, steps).log && Counts(shard, event)
    requires event.metadata.sequence <= Execute(shard, START, steps).saved
    ensures EventKeyOf(event) in Execute(shard, START, steps).market.events
  {
    hide Execute, Orderly, PassesNone, Safe, Counts;
    StartIsSafe(shard);
    OrderlyPassesNone(shard, START, 0, steps);
    PassingNoneKeepsAll(shard, START, steps);
  }

  // ---- At the head, exactly one pass

  predicate About(shard: Shard, vault: VaultKey, event: ParsedEvent) {
    Counts(shard, event) && event.vault == vault
  }

  predicate Pricing(shard: Shard, vault: VaultKey, event: ParsedEvent) {
    About(shard, vault, event) && event.SharePriceChanged?
  }

  /** Some row about the vault up to this number. */
  ghost predicate AnyBy(shard: Shard, vault: VaultKey, log: seq<ParsedEvent>, number: nat) {
    exists event <- log :: About(shard, vault, event) && event.metadata.sequence <= number
  }

  ghost predicate AnyAfter(shard: Shard, vault: VaultKey, log: seq<ParsedEvent>, number: nat) {
    exists event <- log :: About(shard, vault, event) && event.metadata.sequence > number
  }

  ghost predicate PriceBy(shard: Shard, vault: VaultKey, log: seq<ParsedEvent>, number: nat) {
    exists event <- log :: Pricing(shard, vault, event) && event.metadata.sequence <= number
  }

  ghost predicate PriceAfter(shard: Shard, vault: VaultKey, log: seq<ParsedEvent>, number: nat) {
    exists event <- log :: Pricing(shard, vault, event) && event.metadata.sequence > number
  }

  ghost predicate LatestPrice(shard: Shard, vault: VaultKey, log: seq<ParsedEvent>, number: nat, event: ParsedEvent) {
    && event in log && Pricing(shard, vault, event) && event.metadata.sequence <= number
    && forall other <- log :: Pricing(shard, vault, other) && other.metadata.sequence <= number ==>
         other.metadata.sequence <= event.metadata.sequence
  }

  /** The snapshot that one pass over the rows up to this number leaves. */
  ghost predicate IsCurrent(shard: Shard, vault: VaultKey, log: seq<ParsedEvent>, number: nat,
                            snapshot: Option<Snapshot>) {
    if PriceBy(shard, vault, log, number) then
      exists event <- log :: LatestPrice(shard, vault, log, number, event) && snapshot == Seen(None, event)
    else snapshot == if AnyBy(shard, vault, log, number) then Some(BLANK) else None
  }

  /** Nothing but a later price, or a row that a later event made, can be ahead of the checkpoint. */
  ghost predicate NotBehind(shard: Shard, vault: VaultKey, log: seq<ParsedEvent>, number: nat,
                            snapshot: Option<Snapshot>) {
    !PriceAfter(shard, vault, log, number) ==>
      || IsCurrent(shard, vault, log, number, snapshot)
      || (!AnyBy(shard, vault, log, number) && snapshot == Some(BLANK) && AnyAfter(shard, vault, log, number))
  }

  lemma {:induction false} LastPriceOf(shard: Shard, vault: VaultKey, events: seq<ParsedEvent>)
    requires Increasing(events)
    ensures LastPrice(shard, vault, events).None? ==> forall event <- events :: !Pricing(shard, vault, event)
    ensures LastPrice(shard, vault, events).Some? ==>
              exists event <- events ::
                && Pricing(shard, vault, event) && LastPrice(shard, vault, events) == Seen(None, event)
                && forall other <- events :: Pricing(shard, vault, other) ==>
                     other.metadata.sequence <= event.metadata.sequence
    decreases |events|
  {
    if events != [] {
      hide Owns, Seen;
      assert events == [events[0]] + events[1..];
      LastPriceOf(shard, vault, events[1..]);
      if LastPrice(shard, vault, events[1..]).Some? {
        var last :| last in events[1..] && Pricing(shard, vault, last)
                    && LastPrice(shard, vault, events[1..]) == Seen(None, last)
                    && forall other <- events[1..] :: Pricing(shard, vault, other) ==>
                         other.metadata.sequence <= last.metadata.sequence;
        assert last in events && events[0].metadata.sequence < last.metadata.sequence;
      } else if Pricing(shard, vault, events[0]) {
        assert events[0] in events;
      }
    }
  }

  /** What a batch does to a snapshot. */
  lemma {:induction false} FoldSnapshot(view: View, shard: Shard, vault: VaultKey, events: seq<ParsedEvent>)
    ensures ViewFold(view, shard, vault, events).snapshot
         == if LastPrice(shard, vault, events).Some? then LastPrice(shard, vault, events)
            else if view.snapshot.Some? then view.snapshot
            else if exists event <- events :: About(shard, vault, event) then Some(BLANK)
            else None
    decreases |events|
  {
    if LastPrice(shard, vault, events).Some? {
      LastPriceWins(view, shard, vault, events);
    } else if view.snapshot.Some? {
      NoPriceKeeps(view, shard, vault, events);
    } else if events != [] {
      hide Owns, EventKeyOf, EventRowOf;
      var next := ViewAfter(view, shard, vault, events[0]);
      assert events == [events[0]] + events[1..];
      FoldSnapshot(next, shard, vault, events[1..]);
      assert events[0] in events;
    }
  }

  /** A batch as it was read: rows of the log between two numbers. */
  ghost predicate BatchOf(log: seq<ParsedEvent>, saved: nat, batch: seq<ParsedEvent>) {
    && Increasing(batch)
    && forall event <- batch :: event in log && saved < event.metadata.sequence <= LastOf(batch)
  }

  ghost predicate Whole(shard: Shard, log: seq<ParsedEvent>, saved: nat, batch: seq<ParsedEvent>) {
    forall event <- log ::
      Counts(shard, event) && saved < event.metadata.sequence <= LastOf(batch) ==> event in batch
  }

  lemma ApplyNotBehind(shard: Shard, vault: VaultKey, log: seq<ParsedEvent>, saved: nat, batch: seq<ParsedEvent>,
                       before: View, after: View)
    requires BatchOf(log, saved, batch) && NotBehind(shard, vault, log, saved, before.snapshot)
    requires after == ViewFold(before, shard, vault, batch)
    ensures NotBehind(shard, vault, log, saved, after.snapshot)
  {
    hide Counts, Seen, ViewFold, Increasing;
    FoldSnapshot(before, shard, vault, batch);
    if !PriceAfter(shard, vault, log, saved) {
      LastPriceOf(shard, vault, batch);
      hide IsCurrent;
      assert LastPrice(shard, vault, batch).None?;
      if before.snapshot.None? && after.snapshot.Some? {
        var event :| event in batch && About(shard, vault, event);
        assert AnyAfter(shard, vault, log, saved);
        NothingIsCurrent(shard, vault, log, saved);
      }
    }
  }

  lemma NothingIsCurrent(shard: Shard, vault: VaultKey, log: seq<ParsedEvent>, number: nat)
    requires IsCurrent(shard, vault, log, number, None)
    ensures !AnyBy(shard, vault, log, number)
  {
  }

  lemma ApplyReachesLast(shard: Shard, vault: VaultKey, log: seq<ParsedEvent>, saved: nat, batch: seq<ParsedEvent>,
                         before: View, after: View)
    requires BatchOf(log, saved, batch) && Whole(shard, log, saved, batch) && saved <= LastOf(batch)
    requires NotBehind(shard, vault, log, saved, before.snapshot)
    requires after == ViewFold(before, shard, vault, batch)
    ensures NotBehind(shard, vault, log, LastOf(batch), after.snapshot)
  {
    FoldSnapshot(before, shard, vault, batch);
    LastPriceOf(shard, vault, batch);
    hide Counts, Seen, ViewFold, Increasing, ViewAfter;
    if LastPrice(shard, vault, batch).Some? {
      BatchHasLatest(shard, vault, log, saved, batch);
    } else if !PriceAfter(shard, vault, log, LastOf(batch)) {
      forall event <- log | Pricing(shard, vault, event) ensures event.metadata.sequence <= saved {
        assert event in batch || event.metadata.sequence <= saved;
      }
      NoPriceInBatch(shard, vault, log, saved, batch, before.snapshot, after.snapshot);
    }
  }

  lemma BatchHasLatest(shard: Shard, vault: VaultKey, log: seq<ParsedEvent>, saved: nat, batch: seq<ParsedEvent>)
    requires BatchOf(log, saved, batch) && Whole(shard, log, saved, batch)
    requires LastPrice(shard, vault, batch).Some?
    ensures IsCurrent(shard, vault, log, LastOf(batch), LastPrice(shard, vault, batch))
  {
    hide Counts, Seen, Increasing;
    LastPriceOf(shard, vault, batch);
    var event :| event in batch && Pricing(shard, vault, event) && LastPrice(shard, vault, batch) == Seen(None, event)
                 && forall other <- batch :: Pricing(shard, vault, other) ==>
                      other.metadata.sequence <= event.metadata.sequence;
    assert LatestPrice(shard, vault, log, LastOf(batch), event);
  }

  lemma NoPriceInBatch(shard: Shard, vault: VaultKey, log: seq<ParsedEvent>, saved: nat, batch: seq<ParsedEvent>,
                       before: Option<Snapshot>, after: Option<Snapshot>)
    requires BatchOf(log, saved, batch) && Whole(shard, log, saved, batch) && saved <= LastOf(batch)
    requires forall event <- log :: Pricing(shard, vault, event) ==> event.metadata.sequence <= saved
    requires NotBehind(shard, vault, log, saved, before)
    requires after == if before.Some? then before
                      else if exists event <- batch :: About(shard, vault, event) then Some(BLANK) else None
    ensures NotBehind(shard, vault, log, LastOf(batch), after)
  {
    hide Counts, Seen, Increasing;
    var last := LastOf(batch);
    assert PriceBy(shard, vault, log, last) <==> PriceBy(shard, vault, log, saved);
    assert !PriceAfter(shard, vault, log, saved);
    if IsCurrent(shard, vault, log, saved, before) {
      if PriceBy(shard, vault, log, saved) {
        var event :| event in log && LatestPrice(shard, vault, log, saved, event) && before == Seen(None, event);
        assert LatestPrice(shard, vault, log, last, event);
        SeenIsSome(event);
      } else {
        AboutInBatch(shard, vault, log, saved, batch);
      }
    } else if !AnyBy(shard, vault, log, last) {
      var event :| event in log && About(shard, vault, event) && event.metadata.sequence > saved;
    }
  }

  lemma SeenIsSome(event: ParsedEvent)
    ensures Seen(None, event).Some?
  {
  }

  lemma AboutInBatch(shard: Shard, vault: VaultKey, log: seq<ParsedEvent>, saved: nat, batch: seq<ParsedEvent>)
    requires BatchOf(log, saved, batch) && Whole(shard, log, saved, batch) && saved <= LastOf(batch)
    ensures AnyBy(shard, vault, log, LastOf(batch)) <==>
            AnyBy(shard, vault, log, saved) || exists event <- batch :: About(shard, vault, event)
  {
    hide Counts, Increasing;
    if event :| event in log && About(shard, vault, event) && event.metadata.sequence <= LastOf(batch) {
      assert event.metadata.sequence <= saved || event in batch;
    }
    if event :| event in batch && About(shard, vault, event) {
      assert event in log;
    }
  }

  /** A row above the number does not matter, except that there is one. */
  lemma AppearNotBehind(shard: Shard, vault: VaultKey, log: seq<ParsedEvent>, more: seq<ParsedEvent>,
                        event: ParsedEvent, number: nat, snapshot: Option<Snapshot>)
    requires forall other :: other in more <==> other == event || other in log
    requires Counts(shard, event) ==> event.metadata.sequence > number
    requires NotBehind(shard, vault, log, number, snapshot)
    ensures NotBehind(shard, vault, more, number, snapshot)
  {
    hide Counts, Seen;
    if !PriceAfter(shard, vault, more, number) {
      assert !PriceAfter(shard, vault, log, number);
      assert PriceBy(shard, vault, more, number) <==> PriceBy(shard, vault, log, number);
      assert AnyBy(shard, vault, more, number) <==> AnyBy(shard, vault, log, number);
      if IsCurrent(shard, vault, log, number, snapshot) && PriceBy(shard, vault, log, number) {
        var latest :| latest in log && LatestPrice(shard, vault, log, number, latest) && snapshot == Seen(None, latest);
        assert LatestPrice(shard, vault, more, number, latest);
      }
      assert AnyAfter(shard, vault, log, number) ==> AnyAfter(shard, vault, more, number);
    }
  }

  function SnapshotIn(worker: Worker, vault: VaultKey): Option<Snapshot> {
    ViewOf(worker.market, vault).snapshot
  }

  /** The event rows are those of logs, and the snapshots are not behind the checkpoint, nor behind an applied
      batch that it may move past. */
  ghost predicate Ready(shard: Shard, worker: Worker) {
    && (forall key <- worker.market.events :: RowOfLog(shard, worker.log, key, worker.market.events[key]))
    && (forall vault :: NotBehind(shard, vault, worker.log, worker.saved, SnapshotIn(worker, vault)))
    && (worker.memory.Applied? && Whole(shard, worker.log, worker.saved, worker.memory.batch) ==>
          forall vault :: NotBehind(shard, vault, worker.log, LastOf(worker.memory.batch), SnapshotIn(worker, vault)))
    && (!worker.memory.Idle? ==> BatchOf(worker.log, worker.saved, worker.memory.batch))
  }

  ghost predicate RowOfLog(shard: Shard, log: seq<ParsedEvent>, key: EventKey, row: EventRow) {
    exists event <- log :: Counts(shard, event) && EventKeyOf(event) == key && row == EventRowOf(event)
  }

  lemma AppearKeepsReady(shard: Shard, worker: Worker, event: ParsedEvent)
    requires Tracked(worker) && Ready(shard, worker) && PassesNoRow(shard, worker, Appear(event))
    requires FreshStep(worker, Appear(event))
    ensures Ready(shard, Advance(shard, worker, Appear(event)))
  {
    hide NotBehind, Insert, Increasing, EventKeyOf, EventRowOf, SnapshotIn, Counts, Unapplied;
    var more := Insert(worker.log, event);
    forall other ensures other in more <==> other == event || other in worker.log {
      InsertAdds(worker.log, event, other);
    }
    forall key <- worker.market.events ensures RowOfLog(shard, more, key, worker.market.events[key]) {
      assert RowOfLog(shard, worker.log, key, worker.market.events[key]);
    }
    forall vault ensures NotBehind(shard, vault, more, worker.saved, SnapshotIn(worker, vault)) {
      AppearNotBehind(shard, vault, worker.log, more, event, worker.saved, SnapshotIn(worker, vault));
    }
    if worker.memory.Applied? && Whole(shard, more, worker.saved, worker.memory.batch) {
      forall vault ensures NotBehind(shard, vault, more, LastOf(worker.memory.batch), SnapshotIn(worker, vault)) {
        assert Whole(shard, worker.log, worker.saved, worker.memory.batch);
        AppearNotBehind(shard, vault, worker.log, more, event, LastOf(worker.memory.batch), SnapshotIn(worker, vault));
      }
    }
    SnapshotsSame(worker, Advance(shard, worker, Appear(event)));
  }

  lemma SnapshotsSame(x: Worker, y: Worker)
    requires x.market == y.market
    ensures forall vault :: SnapshotIn(x, vault) == SnapshotIn(y, vault)
  {
  }

  lemma CommitKeepsReady(shard: Shard, worker: Worker, step: Step)
    requires Tracked(worker) && Ready(shard, worker) && worker.memory.Loaded? && (step.Apply? || step.ApplyKgOnly?)
    ensures Ready(shard, Advance(shard, worker, step))
  {
    hide NotBehind, Increasing, EventKeyOf, EventRowOf, Counts, Unapplied, VaultStateBatch, Unread, Whole, KeyIn,
         ViewOf;
    var after, batch := Advance(shard, worker, step), worker.memory.batch;
    CommitKeepsRows(shard, worker.log, worker.market, batch);
    assert batch[|batch| - 1] in batch;
    forall vault
      ensures NotBehind(shard, vault, worker.log, worker.saved, SnapshotIn(after, vault))
      ensures Whole(shard, worker.log, worker.saved, batch) ==>
                NotBehind(shard, vault, worker.log, LastOf(batch), SnapshotIn(after, vault))
    {
      assert NotBehind(shard, vault, worker.log, worker.saved, SnapshotIn(worker, vault));
      BatchByView(worker.market, shard, vault, batch);
      var x, y := ViewOf(worker.market, vault), ViewOf(after.market, vault);
      ApplyNotBehind(shard, vault, worker.log, worker.saved, batch, x, y);
      if Whole(shard, worker.log, worker.saved, batch) {
        ApplyReachesLast(shard, vault, worker.log, worker.saved, batch, x, y);
      }
    }
  }

  lemma CommitKeepsRows(shard: Shard, log: seq<ParsedEvent>, market: Market, batch: seq<ParsedEvent>)
    requires forall key <- market.events :: RowOfLog(shard, log, key, market.events[key])
    requires forall event <- batch :: event in log
    ensures var after := VaultStateBatch(market, shard, batch).events;
            forall key <- after :: RowOfLog(shard, log, key, after[key])
  {
    hide ApplyAll, Touched, Refreshed, EventKeyOf, EventRowOf, Owns;
    var after := ApplyAll(market, shard, batch).events;
    forall key <- after ensures RowOfLog(shard, log, key, after[key]) {
      ApplyAllByEvent(market, shard, batch, key);
      if key in market.events {
        assert RowOfLog(shard, log, key, market.events[key]);
      } else {
        FirstRowIs(shard, batch, key);
        var i :| 0 <= i < |batch| && Counts(shard, batch[i]) && EventKeyOf(batch[i]) == key
                 && FirstRow(shard, batch, key) == Some(EventRowOf(batch[i]));
        assert batch[i] in log;
      }
    }
  }

  lemma ReadKeepsReady(shard: Shard, worker: Worker, size: nat)
    requires Tracked(worker) && Ready(shard, worker)
    ensures Ready(shard, Advance(shard, worker, Read(size)))
  {
    hide NotBehind, Unread, EventKeyOf, EventRowOf, Counts, Unapplied, SnapshotIn, RowOfLog;
    var after := Advance(shard, worker, Read(size));
    SnapshotsSame(worker, after);
    if after != worker {
      var unread := Unread(worker.log, worker.saved);
      UnreadIsAfter(worker.log, worker.saved);
      UnreadIncreases(worker.log, worker.saved);
      InitialBatch(worker.log, worker.saved, unread, Limit(unread, size));
    }
  }

  lemma InitialBatch(log: seq<ParsedEvent>, saved: nat, unread: seq<ParsedEvent>, batch: seq<ParsedEvent>)
    requires Increasing(unread) && batch <= unread && batch != []
    requires forall event <- unread :: event in log && event.metadata.sequence > saved
    ensures BatchOf(log, saved, batch)
  {
    forall event <- batch ensures event in log && saved < event.metadata.sequence <= LastOf(batch) {
      var i :| 0 <= i < |batch| && batch[i] == event;
      assert unread[i] == event && event in unread;
    }
  }

  lemma StepKeepsReady(shard: Shard, worker: Worker, step: Step)
    requires Tracked(worker) && Ready(shard, worker) && FreshStep(worker, step) && PassesNoRow(shard, worker, step)
    ensures Ready(shard, Advance(shard, worker, step))
  {
    match step
    case Appear(event) => AppearKeepsReady(shard, worker, event);
    case Read(size) => ReadKeepsReady(shard, worker, size);
    case Apply =>
      if worker.memory.Loaded? {
        CommitKeepsReady(shard, worker, step);
      }
    case ApplyKgOnly =>
      if worker.memory.Loaded? {
        CommitKeepsReady(shard, worker, step);
      }
    case Save => SaveKeepsReady(shard, worker);
    case Crash => SnapshotsSame(worker, Advance(shard, worker, Crash));
  }

  lemma SaveKeepsReady(shard: Shard, worker: Worker)
    requires Tracked(worker) && Ready(shard, worker) && PassesNoRow(shard, worker, Save)
    ensures Ready(shard, Advance(shard, worker, Save))
  {
    hide NotBehind, SnapshotIn, RowOfLog, Counts, Increasing, KeyIn, EventKeyOf, Unapplied;
    var after := Advance(shard, worker, Save);
    SnapshotsSame(worker, after);
    if after != worker {
      assert Whole(shard, worker.log, worker.saved, worker.memory.batch);
      assert after.saved == LastOf(worker.memory.batch);
    }
  }

  lemma {:induction false} RunKeepsReady(shard: Shard, worker: Worker, steps: seq<Step>)
    requires Tracked(worker) && Kept(shard, worker) && Ready(shard, worker)
    requires FreshRun(shard, worker, steps) && PassesNone(shard, worker, steps)
    ensures var after := Execute(shard, worker, steps); Tracked(after) && Kept(shard, after) && Ready(shard, after)
    decreases |steps|
  {
    if steps != [] {
      hide Tracked, Kept, Ready, FreshStep, PassesNoRow, Advance;
      StepKeepsTracked(shard, worker, steps[0]);
      StepKeepsAll(shard, worker, steps[0]);
      StepKeepsReady(shard, worker, steps[0]);
      RunKeepsReady(shard, Advance(shard, worker, steps[0]), steps[1..]);
    }
  }

  lemma StartIsReady(shard: Shard)
    ensures Tracked(START) && Kept(shard, START) && Ready(shard, START)
  {
  }

  lemma AtHeadBy(log: seq<ParsedEvent>, event: ParsedEvent)
    requires Increasing(log) && event in log
    ensures event.metadata.sequence <= LastOf(log)
  {
  }

  lemma HeadSnapshot(shard: Shard, worker: Worker, vault: VaultKey)
    requires Tracked(worker) && Ready(shard, worker) && worker.saved == LastOf(worker.log)
    ensures ViewOf(worker.market, vault).snapshot
         == ViewOf(VaultStateBatch(EMPTY_MARKET, shard, worker.log), vault).snapshot
  {
    hide VaultStateBatch, Seen, Counts, ViewOf, KeyIn, EventKeyOf, RowOfLog, Unapplied;
    var log := worker.log;
    forall event <- log ensures event.metadata.sequence <= worker.saved {
      AtHeadBy(log, event);
    }
    assert NotBehind(shard, vault, log, worker.saved, SnapshotIn(worker, vault));
    assert IsCurrent(shard, vault, log, worker.saved, SnapshotIn(worker, vault));
    BatchByView(EMPTY_MARKET, shard, vault, log);
    EmptyView(vault);
    PassIsCurrent(shard, vault, log);
    CurrentIsUnique(shard, vault, log, worker.saved, SnapshotIn(worker, vault),
                    ViewFold(UNSEEN, shard, vault, log).snapshot);
  }

  lemma EmptyView(vault: VaultKey)
    ensures ViewOf(EMPTY_MARKET, vault) == UNSEEN
  {
  }

  lemma PassIsCurrent(shard: Shard, vault: VaultKey, log: seq<ParsedEvent>)
    requires Increasing(log)
    ensures IsCurrent(shard, vault, log, LastOf(log), ViewFold(UNSEEN, shard, vault, log).snapshot)
  {
    hide Counts, Seen, ViewFold, ViewAfter;
    FoldSnapshot(UNSEEN, shard, vault, log);
    LastPriceOf(shard, vault, log);
    forall event <- log ensures event.metadata.sequence <= LastOf(log) {
      AtHeadBy(log, event);
    }
    hide Increasing;
    if LastPrice(shard, vault, log).Some? {
      var event :| event in log && Pricing(shard, vault, event) && LastPrice(shard, vault, log) == Seen(None, event)
                   && forall other <- log :: Pricing(shard, vault, other) ==>
                        other.metadata.sequence <= event.metadata.sequence;
      assert LatestPrice(shard, vault, log, LastOf(log), event);
    }
  }

  lemma CurrentIsUnique(shard: Shard, vault: VaultKey, log: seq<ParsedEvent>, number: nat,
                        x: Option<Snapshot>, y: Option<Snapshot>)
    requires Increasing(log)
    requires IsCurrent(shard, vault, log, number, x) && IsCurrent(shard, vault, log, number, y)
    ensures x == y
  {
    hide Pricing, About, Seen;
    if PriceBy(shard, vault, log, number) {
      var e :| e in log && LatestPrice(shard, vault, log, number, e) && x == Seen(None, e);
      var f :| f in log && LatestPrice(shard, vault, log, number, f) && y == Seen(None, f);
      var i :| 0 <= i < |log| && log[i] == e;
      var j :| 0 <= j < |log| && log[j] == f;
      assert e.metadata.sequence == f.metadata.sequence;
      assert i == j;
    }
  }

  lemma TrackedKeys(worker: Worker)
    requires Tracked(worker)
    ensures DistinctKeys(worker.log)
  {
    hide EventKeyOf, KeyIn, Unapplied;
    var log := worker.log;
    forall i, j | 0 <= i < j < |log| ensures EventKeyOf(log[i]) != EventKeyOf(log[j]) {
      assert log[i] in log && log[j] in log && log[i] != log[j];
    }
  }

  lemma HeadEvents(shard: Shard, worker: Worker)
    requires Tracked(worker) && Kept(shard, worker) && Ready(shard, worker) && worker.saved == LastOf(worker.log)
    ensures worker.market.events == VaultStateBatch(EMPTY_MARKET, shard, worker.log).events
  {
    hide EventKeyOf, Counts, ApplyAll, Touched, Refreshed, NotBehind, KeyIn, Unapplied, DistinctKeys, RowOfLog,
         Increasing, BatchOf, Whole, FirstRow;
    var log, events := worker.log, worker.market.events;
    TrackedKeys(worker);
    forall event <- log ensures event.metadata.sequence <= worker.saved {
      AtHeadBy(log, event);
    }
    forall key ensures Lookup(events, key) == FirstRow(shard, log, key) {
      HeadRow(shard, log, events, key);
    }
    var pass := ApplyAll(EMPTY_MARKET, shard, log).events;
    forall key ensures Lookup(events, key) == Lookup(pass, key) {
      ApplyAllByEvent(EMPTY_MARKET, shard, log, key);
    }
    SameTable(events, pass);
  }

  lemma HeadRow(shard: Shard, log: seq<ParsedEvent>, events: EventRows, key: EventKey)
    requires DistinctKeys(log)
    requires key in events ==> RowOfLog(shard, log, key, events[key])
    requires forall event <- log :: Counts(shard, event) ==> EventKeyOf(event) in events
    ensures Lookup(events, key) == FirstRow(shard, log, key)
  {
    hide EventKeyOf, EventRowOf, Owns, DistinctKeys, FirstRow;
    if key in events {
      var event :| event in log && Counts(shard, event) && EventKeyOf(event) == key && events[key] == EventRowOf(event);
      var i :| 0 <= i < |log| && log[i] == event;
      FirstRowOf(shard, log, i);
    } else if FirstRow(shard, log, key).Some? {
      FirstRowIs(shard, log, key);
    }
  }

  /** With the checkpoint at the head the event rows and every snapshot are those of one pass, exactly when no
      step passed a row that was not read; rows may have appeared in any order above the checkpoint. */
  lemma AtHeadIsOnePassExactly(shard: Shard, steps: seq<Step>)
    requires FreshRun(shard, START, steps)
    requires Execute(shard, START, steps).saved == LastOf(Execute(shard, START, steps).log)
    ensures var worker := Execute(shard, START, steps);
            PassesNone(shard, START, steps) <==>
            forall vault ::
              ViewOf(worker.market, vault) == ViewOf(VaultStateBatch(EMPTY_MARKET, shard, worker.log), vault)
  {
    hide VaultStateBatch, Execute, FreshRun, PassesNone, Tracked, Kept, Ready, NoneMissing;
    var worker := Execute(shard, START, steps);
    if PassesNone(shard, START, steps) {
      StartIsReady(shard);
      RunKeepsReady(shard, START, steps);
      HeadEvents(shard, worker);
      forall vault
        ensures ViewOf(worker.market, vault) == ViewOf(VaultStateBatch(EMPTY_MARKET, shard, worker.log), vault)
      {
        HeadSnapshot(shard, worker, vault);
      }
    } else {
      NothingIsSkippedExactly(shard, steps);
      MissingIsNotOnePass(shard, worker);
      var vault := VaultKey("", BigDecimal(0, 0));
      assert ViewOf(worker.market, vault).events
          != ViewOf(VaultStateBatch(EMPTY_MARKET, shard, worker.log), vault).events;
    }
  }

  lemma MissingIsNotOnePass(shard: Shard, worker: Worker)
    requires !NoneMissing(shard, worker)
    ensures worker.market.events != VaultStateBatch(EMPTY_MARKET, shard, worker.log).events
  {
    hide ApplyAll, Counts, EventKeyOf, Touched, Refreshed;
    ApplyAllHas(EMPTY_MARKET, shard, worker.log);
  }

  /** It happens: number 1 is committed after number 2 was read, applied and saved. */
  lemma LateRowIsMissed(shard: Shard, late: ParsedEvent, early: ParsedEvent)
    requires 0 < late.metadata.sequence < early.metadata.sequence && EventKeyOf(late) != EventKeyOf(early)
    ensures var worker := Execute(shard, START, [Appear(early), Read(1), Apply, Save, Appear(late)]);
            late in worker.log && Missed(worker, late)
  {
    hide ApplyAll, Owns, Touched, Refreshed;
    var seen := Advance(shard, START, Appear(early));
    assert seen.log == [early];
    assert Unread([early], 0) == [early] by {
      assert [early][1..] == [];
    }
    var loaded := Advance(shard, seen, Read(1));
    assert loaded.memory == Loaded([early]);
    var saved := Advance(shard, Advance(shard, loaded, Apply), Save);
    ApplyAllAdds(EMPTY_MARKET, shard, [early], EventKeyOf(late));
    var worker := Advance(shard, saved, Appear(late));
    assert Insert([early], late) == Insert([], late) + [early] == [late, early] by {
      assert [early][..0] == [];
    }
    RunOfFive(shard, early, late);
  }

  lemma RunOfFive(shard: Shard, early: ParsedEvent, late: ParsedEvent)
    ensures Execute(shard, START, [Appear(early), Read(1), Apply, Save, Appear(late)])
         == Advance(shard, Advance(shard, Advance(shard, Advance(shard, Advance(shard, START, Appear(early)), Read(1)),
                                                  Apply), Save), Appear(late))
  {
    hide Advance;
    var rest := [Apply, Save, Appear(late)];
    assert [Appear(early), Read(1), Apply, Save, Appear(late)] == [Appear(early), Read(1)] + rest;
    RunTwo(shard, START, Appear(early), Read(1), rest);
    var loaded := Advance(shard, Advance(shard, START, Appear(early)), Read(1));
    assert rest == [Apply, Save] + [Appear(late)];
    RunTwo(shard, loaded, Apply, Save, [Appear(late)]);
    assert [Appear(late)][1..] == [];
  }
}
