/**
 The two sources of event batches: one filter, sort and limit over `event_store`
 (`crates/projections/src/event/reader.rs`), and a UNION ALL over the typed tables with the sort
 and limit repeated inside every branch (`typed_reader.rs`). Query results are multisets of rows.
 */
module Readers {
  import opened Wrappers
  import opened Events
  import opened DualWrite

  type Rows = multiset<StoredEvent>

  // ---- ORDER BY sequence_number LIMIT n

  ghost predicate Least(first: StoredEvent, rows: Rows) {
    first in rows && forall row <- rows :: first.sequence <= row.sequence
  }

  lemma LeastOfMore(first: StoredEvent, rest: Rows, row: StoredEvent)
    requires Least(first, rest)
    ensures Least(if row.sequence <= first.sequence then row else first, rest + multiset{row})
  {
  }

  lemma {:induction false} LeastExists(rows: Rows)
    requires rows != multiset{}
    ensures exists first :: Least(first, rows)
    decreases |rows|
  {
    var row :| row in rows;
    var rest := rows - multiset{row};
    assert rows == rest + multiset{row};
    if rest == multiset{} {
      assert Least(row, rows);
    } else {
      LeastExists(rest);
      var first :| Least(first, rest);
      LeastOfMore(first, rest, row);
    }
  }

  /** A row with the smallest number; rows with the same number come in any order. */
  ghost function First(rows: Rows): (first: StoredEvent)
    requires rows != multiset{}
    ensures Least(first, rows)
  {
    LeastExists(rows);
    var first :| Least(first, rows);
    first
  }

  ghost function Rest(rows: Rows): Rows
    requires rows != multiset{}
  {
    rows - multiset{First(rows)}
  }

  ghost function OrderLimit(rows: Rows, limit: nat): seq<StoredEvent>
    decreases limit
  {
    if limit == 0 || rows == multiset{} then [] else [First(rows)] + OrderLimit(Rest(rows), limit - 1)
  }

  /** A number identifies a row. */
  ghost predicate Identified(rows: Rows) {
    forall x, y :: x in rows && y in rows && x.sequence == y.sequence ==> x == y
  }

  ghost predicate InOrder(batch: seq<StoredEvent>) {
    forall i, j :: 0 <= i < j < |batch| ==> batch[i].sequence <= batch[j].sequence
  }

  ghost predicate SkipsNone(batch: seq<StoredEvent>, rows: Rows) {
    forall taken, skipped :: taken in batch && multiset(batch)[skipped] < rows[skipped] ==>
      taken.sequence <= skipped.sequence
  }

  /** `batch` holds only rows, in order, as many as allowed, and passes over none that comes earlier. */
  ghost predicate FirstOf(batch: seq<StoredEvent>, rows: Rows, limit: nat) {
    && |batch| == (if limit <= |rows| then limit else |rows|)
    && multiset(batch) <= rows && InOrder(batch) && SkipsNone(batch, rows)
  }

  lemma FirstOfNothing(rows: Rows, limit: nat)
    requires limit == 0 || rows == multiset{}
    ensures OrderLimit(rows, limit) == [] && FirstOf([], rows, limit)
  {
  }

  lemma LeastGoesFirst(first: StoredEvent, batch: seq<StoredEvent>, rows: Rows)
    requires InOrder(batch) && multiset(batch) <= rows && Least(first, rows)
    ensures InOrder([first] + batch)
  {
    forall row | row in batch ensures first.sequence <= row.sequence {
      assert row in multiset(batch);
    }
  }

  lemma FirstOfStep(first: StoredEvent, batch: seq<StoredEvent>, rest: Rows, rows: Rows, limit: nat)
    requires FirstOf(batch, rest, limit) && Least(first, rows) && rows == rest + multiset{first}
    ensures FirstOf([first] + batch, rows, limit + 1)
  {
    hide InOrder;
    var whole := [first] + batch;
    assert multiset(whole) == multiset{first} + multiset(batch);
    LeastGoesFirst(first, batch, rows);
    forall taken, skipped | taken in whole && multiset(whole)[skipped] < rows[skipped]
      ensures taken.sequence <= skipped.sequence
    {
      assert multiset(batch)[skipped] < rest[skipped];
    }
  }

  lemma OrderLimitStep(rows: Rows, limit: nat)
    requires limit != 0 && rows != multiset{}
    ensures OrderLimit(rows, limit) == [First(rows)] + OrderLimit(Rest(rows), limit - 1)
  {
  }

  lemma {:induction false} OrderLimitMeaning(rows: Rows, limit: nat)
    ensures FirstOf(OrderLimit(rows, limit), rows, limit)
    decreases limit
  {
    hide *;
    if limit == 0 || rows == multiset{} {
      FirstOfNothing(rows, limit);
    } else {
      var rest, fewer: nat := Rest(rows), limit - 1;
      OrderLimitStep(rows, limit);
      RestCount(rows);
      OrderLimitMeaning(rest, fewer);
      FirstOfStep(First(rows), OrderLimit(rest, fewer), rest, rows, fewer);
    }
  }

  // ---- The limit may be pushed into the branches

  lemma RestCount(rows: Rows)
    requires rows != multiset{}
    ensures rows == Rest(rows) + multiset{First(rows)}
    ensures Identified(rows) ==> Identified(Rest(rows))
  {
  }

  lemma FirstInBranch(branch: Rows, whole: Rows)
    requires Identified(whole) && branch <= whole && whole != multiset{} && First(whole) in branch
    ensures First(branch) == First(whole) && Rest(branch) <= Rest(whole)
  {
    assert Least(First(branch), branch);
    assert Least(First(whole), whole);
  }

  lemma FirstElsewhere(branch: Rows, whole: Rows)
    requires branch <= whole && whole != multiset{} && First(whole) !in branch
    ensures branch <= Rest(whole)
  {
  }

  /** Multiplicity of a row in the limited result. */
  ghost function Taken(rows: Rows, limit: nat, row: StoredEvent): nat {
    multiset(OrderLimit(rows, limit))[row]
  }

  lemma TakenStep(rows: Rows, limit: nat, row: StoredEvent)
    requires limit != 0 && rows != multiset{}
    ensures Taken(rows, limit, row) == Taken(Rest(rows), limit - 1, row) + if row == First(rows) then 1 else 0
    ensures rows[row] == Rest(rows)[row] + if row == First(rows) then 1 else 0
  {
    assert multiset(OrderLimit(rows, limit)) == multiset{First(rows)} + multiset(OrderLimit(Rest(rows), limit - 1));
    RestCount(rows);
  }

  lemma TakenNothing(rows: Rows, limit: nat, row: StoredEvent)
    requires limit == 0 || rows == multiset{}
    ensures Taken(rows, limit, row) == 0
  {
  }

  lemma {:induction false} LongerBatch(rows: Rows, limit: nat, row: StoredEvent)
    ensures Taken(rows, limit, row) <= Taken(rows, limit + 1, row)
    decreases limit
  {
    hide *;
    if limit == 0 || rows == multiset{} {
      TakenNothing(rows, limit, row);
    } else {
      TakenStep(rows, limit, row);
      TakenStep(rows, limit + 1, row);
      LongerBatch(Rest(rows), limit - 1, row);
    }
  }

  /** A row that the whole query keeps is kept by the limited query of its branch. */
  lemma {:induction false} BranchKeeps(branch: Rows, whole: Rows, limit: nat, row: StoredEvent)
    requires Identified(whole) && branch <= whole
    ensures Taken(branch, limit, row) >= branch[row] || Taken(branch, limit, row) >= Taken(whole, limit, row)
    decreases limit
  {
    hide *;
    if limit == 0 || whole == multiset{} {
      TakenNothing(whole, limit, row);
    } else {
      TakenStep(whole, limit, row);
      RestCount(whole);
      if First(whole) in branch {
        FirstInBranch(branch, whole);
        TakenStep(branch, limit, row);
        BranchKeeps(Rest(branch), Rest(whole), limit - 1, row);
      } else {
        FirstElsewhere(branch, whole);
        BranchKeeps(branch, Rest(whole), limit - 1, row);
        LongerBatch(branch, limit - 1, row);
      }
    }
  }

  /** `narrow` still holds everything that the limited query takes from `wide`. */
  ghost predicate Suffices(narrow: Rows, wide: Rows, limit: nat) {
    narrow <= wide && forall row :: Taken(wide, limit, row) <= narrow[row]
  }

  lemma SufficesStep(narrow: Rows, wide: Rows, limit: nat)
    requires Identified(wide) && limit != 0 && wide != multiset{} && Suffices(narrow, wide, limit)
    ensures First(wide) in narrow && First(narrow) == First(wide)
    ensures Suffices(Rest(narrow), Rest(wide), limit - 1)
  {
    hide First, Rest, Identified, Taken;
    TakenStep(wide, limit, First(wide));
    FirstInBranch(narrow, wide);
    forall row ensures Taken(Rest(wide), limit - 1, row) <= Rest(narrow)[row] {
      TakenStep(wide, limit, row);
      TakenStep(narrow, limit, row);
    }
  }

  lemma SufficesNothing(narrow: Rows, wide: Rows, limit: nat)
    requires Suffices(narrow, wide, limit) && (limit == 0 || wide == multiset{})
    ensures OrderLimit(narrow, limit) == OrderLimit(wide, limit) == []
  {
    assert limit == 0 || narrow == multiset{};
  }

  /** Then the result is the same. */
  lemma {:induction false} Narrow(narrow: Rows, wide: Rows, limit: nat)
    requires Identified(wide) && Suffices(narrow, wide, limit)
    ensures OrderLimit(narrow, limit) == OrderLimit(wide, limit)
    decreases limit
  {
    hide *;
    if limit == 0 || wide == multiset{} {
      SufficesNothing(narrow, wide, limit);
    } else {
      var fewer: nat := limit - 1;
      SufficesStep(narrow, wide, limit);
      RestCount(wide);
      Narrow(Rest(narrow), Rest(wide), fewer);
      OrderLimitStep(wide, limit);
      OrderLimitStep(narrow, limit);
    }
  }

  ghost function UnionAll(branches: seq<Rows>): Rows {
    if branches == [] then multiset{} else branches[0] + UnionAll(branches[1..])
  }

  ghost function LimitedUnion(branches: seq<Rows>, limit: nat): Rows {
    if branches == [] then multiset{}
    else multiset(OrderLimit(branches[0], limit)) + LimitedUnion(branches[1..], limit)
  }

  lemma {:induction false} BranchesKeep(branches: seq<Rows>, whole: Rows, limit: nat, row: StoredEvent)
    requires Identified(whole) && UnionAll(branches) <= whole
    ensures LimitedUnion(branches, limit)[row] <= UnionAll(branches)[row]
    ensures || LimitedUnion(branches, limit)[row] >= UnionAll(branches)[row]
            || LimitedUnion(branches, limit)[row] >= Taken(whole, limit, row)
    decreases |branches|
  {
    if branches != [] {
      OrderLimitMeaning(branches[0], limit);
      BranchKeeps(branches[0], whole, limit, row);
      BranchesKeep(branches[1..], whole, limit, row);
    }
  }

  lemma PushDown(branches: seq<Rows>, limit: nat)
    requires Identified(UnionAll(branches))
    ensures OrderLimit(LimitedUnion(branches, limit), limit) == OrderLimit(UnionAll(branches), limit)
  {
    var whole, limited := UnionAll(branches), LimitedUnion(branches, limit);
    OrderLimitMeaning(whole, limit);
    hide OrderLimit, Identified;
    forall row ensures Taken(whole, limit, row) <= limited[row] <= whole[row] {
      BranchesKeep(branches, whole, limit, row);
      assert multiset(OrderLimit(whole, limit))[row] <= whole[row];
    }
    Narrow(limited, whole, limit);
  }

  // ---- The two readers

  datatype QueryError = SyntaxError

  function Name(eventType: EventType): string {
    match eventType
    case AtomCreated => "AtomCreated"
    case AtomContextRegistered => "AtomContextRegistered"
    case TripleCreated => "TripleCreated"
    case Deposited => "Deposited"
    case Redeemed => "Redeemed"
    case SharePriceChanged => "SharePriceChanged"
    case ProtocolFeeAccrued => "ProtocolFeeAccrued"
  }

  const ALL_TYPES := [AtomCreated, AtomContextRegistered, TripleCreated, Deposited, Redeemed, SharePriceChanged,
                      ProtocolFeeAccrued]

  /** The event type with this name, if there is a fragment for it. */
  function Find(types: seq<EventType>, name: string): Option<EventType> {
    if types == [] then None
    else if Name(types[0]) == name then Some(types[0])
    else Find(types[1..], name)
  }

  /** The fragments that `filter_map` keeps. */
  function Known(names: seq<string>): seq<EventType> {
    if names == [] then []
    else (match Find(ALL_TYPES, names[0]) case Some(eventType) => [eventType] case None => []) + Known(names[1..])
  }

  ghost function StoreRows(tables: Tables, names: seq<string>, after: int): set<StoredEvent> {
    set key | key in tables.store && Name(tables.store[key].eventType) in names
              && tables.store[key].sequence > after && tables.store[key].isCanonical
      :: FromStore(tables.store[key])
  }

  ghost function StoreRead(tables: Tables, names: seq<string>, after: int, limit: nat): seq<StoredEvent> {
    OrderLimit(multiset(StoreRows(tables, names, after)), limit)
  }

  ghost function TableRows(tables: Tables, table: EventType, after: int): set<StoredEvent> {
    set key | key in tables.typed && key.table == table && tables.typed[key].sequence > after
      :: FromTyped(tables.typed[key])
  }

  ghost function Branches(tables: Tables, types: seq<EventType>, after: int): seq<Rows> {
    seq(|types|, i requires 0 <= i < |types| => multiset(TableRows(tables, types[i], after)))
  }

  /** One fragment is queried as it is; without any, the text is an ORDER BY with no SELECT. */
  ghost function TypedRead(tables: Tables, names: seq<string>, after: int, limit: nat)
    : Result<seq<StoredEvent>, QueryError>
  {
    if names == [] then Ok([])
    else
      var branches := Branches(tables, Known(names), after);
      if branches == [] then Err(SyntaxError)
      else if |branches| == 1 then Ok(OrderLimit(branches[0], limit))
      else Ok(OrderLimit(LimitedUnion(branches, limit), limit))
  }

  /** The typed reader answers as if the limits were not pushed down. */
  lemma TypedReadIsOneQuery(tables: Tables, names: seq<string>, after: int, limit: nat)
    requires Known(names) != []
    requires Identified(UnionAll(Branches(tables, Known(names), after)))
    ensures TypedRead(tables, names, after, limit)
         == Ok(OrderLimit(UnionAll(Branches(tables, Known(names), after)), limit))
  {
    hide Identified, OrderLimit;
    var branches := Branches(tables, Known(names), after);
    assert names != [];
    if |branches| == 1 {
      assert branches[1..] == [];
      assert UnionAll(branches) == branches[0];
    } else {
      PushDown(branches, limit);
    }
  }

  /** All rows of the typed tables with one of these types. */
  ghost function TypedRows(tables: Tables, types: seq<EventType>, after: int): set<StoredEvent> {
    set key | key in tables.typed && key.table in types && tables.typed[key].sequence > after
      :: FromTyped(tables.typed[key])
  }

  /** A type may be repeated if its table has nothing to read. */
  ghost predicate RepeatsAreEmpty(tables: Tables, types: seq<EventType>, after: int) {
    forall i, j :: 0 <= i < j < |types| && types[i] == types[j] ==> TableRows(tables, types[i], after) == {}
  }

  /** Every row says which table it came from, so branches overlap only by repetition. */
  lemma {:induction false} UnionOfTables(tables: Tables, types: seq<EventType>, after: int)
    requires RepeatsAreEmpty(tables, types, after) && Numbered(tables)
    ensures UnionAll(Branches(tables, types, after)) == multiset(TypedRows(tables, types, after))
    decreases |types|
  {
    if types == [] {
      assert TypedRows(tables, types, after) == {};
    } else {
      hide *;
      var table, others := types[0], types[1..];
      assert types == [table] + others;
      UnionStep(tables, types, after);
      RepeatsOfRest(tables, types, after);
      UnionOfTables(tables, others, after);
      OneMoreTable(tables, table, others, after);
    }
  }

  lemma UnionStep(tables: Tables, types: seq<EventType>, after: int)
    requires types != []
    ensures UnionAll(Branches(tables, types, after))
         == multiset(TableRows(tables, types[0], after)) + UnionAll(Branches(tables, types[1..], after))
  {
    hide TableRows;
    assert Branches(tables, types, after)[1..] == Branches(tables, types[1..], after);
  }

  lemma RepeatsOfRest(tables: Tables, types: seq<EventType>, after: int)
    requires types != [] && RepeatsAreEmpty(tables, types, after)
    ensures RepeatsAreEmpty(tables, types[1..], after)
    ensures types[0] in types[1..] ==> TableRows(tables, types[0], after) == {}
  {
    hide TableRows;
    var others := types[1..];
    assert forall i :: 0 <= i < |others| ==> others[i] == types[i + 1];
    if i :| 0 <= i < |others| && others[i] == types[0] {
      assert types[i + 1] == types[0];
    }
  }

  lemma OneMoreTable(tables: Tables, table: EventType, others: seq<EventType>, after: int)
    requires table in others ==> TableRows(tables, table, after) == {}
    requires Numbered(tables)
    ensures multiset(TypedRows(tables, [table] + others, after))
         == multiset(TableRows(tables, table, after)) + multiset(TypedRows(tables, others, after))
  {
    var front, back, all :=
      TableRows(tables, table, after), TypedRows(tables, others, after), TypedRows(tables, [table] + others, after);
    RowsOfOneMore(tables, table, others, after);
    forall row | row in front && row in back ensures false {
      var key :| key in tables.typed && key.table == table && FromTyped(tables.typed[key]) == row;
      var twin :| twin in tables.typed && twin.table in others && FromTyped(tables.typed[twin]) == row;
      TableOfRow(tables, key);
      TableOfRow(tables, twin);
    }
    DisjointSum(front, back);
  }

  lemma RowsOfOneMore(tables: Tables, table: EventType, others: seq<EventType>, after: int)
    ensures TypedRows(tables, [table] + others, after)
         == TableRows(tables, table, after) + TypedRows(tables, others, after)
  {
    hide FromTyped;
    assert forall other :: other in [table] + others <==> other == table || other in others;
  }

  lemma TableOfRow(tables: Tables, key: TypedKey)
    requires Numbered(tables) && key in tables.typed
    ensures FromTyped(tables.typed[key]).eventType == key.table
  {
    hide Select, TypeOf;
    assert Carried(tables, key);
  }

  lemma DisjointSum(front: set<StoredEvent>, back: set<StoredEvent>)
    requires front !! back
    ensures multiset(front + back) == multiset(front) + multiset(back)
  {
  }

  // ---- They agree

  /** The same event as the two readers report it: the entity agrees only for some logs. */
  ghost predicate Pair(chain: Chain, x: StoredEvent, y: StoredEvent) {
    && SameEvent(x, y)
    && LocationOf(x.envelope) in chain
    && (x.entityId == y.entityId <==> SameEntity(chain[LocationOf(x.envelope)].columns))
  }

  ghost predicate Paired(chain: Chain, xs: set<StoredEvent>, ys: set<StoredEvent>) {
    && (forall x <- xs :: exists y <- ys :: Pair(chain, x, y))
    && (forall y <- ys :: exists x <- xs :: Pair(chain, x, y))
  }

  lemma RestOfSet(rows: set<StoredEvent>)
    requires rows != {}
    ensures var all := multiset(rows);
            && all != multiset{} && First(all) in rows && Rest(all) == multiset(rows - {First(all)})
            && forall row <- rows :: First(all).sequence <= row.sequence
  {
    var all := multiset(rows);
    var row :| row in rows;
    assert row in all;
    assert Least(First(all), all);
    forall other | other in rows ensures First(all).sequence <= other.sequence {
      assert other in all;
    }
  }

  ghost predicate IdentifiedSet(rows: set<StoredEvent>) {
    forall x, y :: x in rows && y in rows && x.sequence == y.sequence ==> x == y
  }

  lemma PairNumber(chain: Chain, x: StoredEvent, y: StoredEvent)
    requires Pair(chain, x, y)
    ensures x.sequence == y.sequence
  {
  }

  ghost predicate LeastOf(first: StoredEvent, rows: set<StoredEvent>) {
    first in rows && forall row <- rows :: first.sequence <= row.sequence
  }

  lemma PartnerIn(chain: Chain, xs: set<StoredEvent>, ys: set<StoredEvent>, a: StoredEvent) returns (y: StoredEvent)
    requires Paired(chain, xs, ys) && a in xs
    ensures y in ys && Pair(chain, a, y) && y.sequence == a.sequence
  {
    hide Pair;
    y :| y in ys && Pair(chain, a, y);
    PairNumber(chain, a, y);
  }

  lemma PartnerOf(chain: Chain, xs: set<StoredEvent>, ys: set<StoredEvent>, b: StoredEvent) returns (x: StoredEvent)
    requires Paired(chain, xs, ys) && b in ys
    ensures x in xs && Pair(chain, x, b) && x.sequence == b.sequence
  {
    hide Pair;
    x :| x in xs && Pair(chain, x, b);
    PairNumber(chain, x, b);
  }

  lemma FirstsArePaired(chain: Chain, xs: set<StoredEvent>, ys: set<StoredEvent>, a: StoredEvent, b: StoredEvent)
    requires Paired(chain, xs, ys) && IdentifiedSet(ys) && LeastOf(a, xs) && LeastOf(b, ys)
    ensures Pair(chain, a, b)
  {
    hide Paired, Pair, IdentifiedSet;
    var y := PartnerIn(chain, xs, ys, a);
    var x := PartnerOf(chain, xs, ys, b);
    SameNumber(ys, y, b);
  }

  lemma SameNumber(rows: set<StoredEvent>, x: StoredEvent, y: StoredEvent)
    requires IdentifiedSet(rows) && x in rows && y in rows && x.sequence == y.sequence
    ensures x == y
  {
  }

  lemma PairedStep(chain: Chain, xs: set<StoredEvent>, ys: set<StoredEvent>, a: StoredEvent, b: StoredEvent)
    requires Paired(chain, xs, ys) && IdentifiedSet(xs) && IdentifiedSet(ys)
    requires a in xs && b in ys && Pair(chain, a, b)
    ensures Paired(chain, xs - {a}, ys - {b}) && IdentifiedSet(xs - {a}) && IdentifiedSet(ys - {b})
  {
    hide Paired, Pair;
    PairNumber(chain, a, b);
    forall x <- xs - {a} ensures exists y <- ys - {b} :: Pair(chain, x, y) {
      var y := PartnerIn(chain, xs, ys, x);
    }
    forall y <- ys - {b} ensures exists x <- xs - {a} :: Pair(chain, x, y) {
      var x := PartnerOf(chain, xs, ys, y);
    }
    PairedIf(chain, xs - {a}, ys - {b});
  }

  lemma PairedIf(chain: Chain, xs: set<StoredEvent>, ys: set<StoredEvent>)
    requires forall x <- xs :: exists y <- ys :: Pair(chain, x, y)
    requires forall y <- ys :: exists x <- xs :: Pair(chain, x, y)
    ensures Paired(chain, xs, ys)
  {
    hide Pair;
  }

  lemma SetStep(rows: set<StoredEvent>, limit: nat) returns (first: StoredEvent, rest: set<StoredEvent>, fewer: nat)
    requires limit != 0 && rows != {}
    ensures LeastOf(first, rows) && rest == rows - {first} && fewer == limit - 1
    ensures OrderLimit(multiset(rows), limit) == [first] + OrderLimit(multiset(rest), fewer)
  {
    hide First, Rest;
    RestOfSet(rows);
    first := First(multiset(rows));
    rest, fewer := rows - {first}, limit - 1;
  }

  lemma BothEmpty(chain: Chain, xs: set<StoredEvent>, ys: set<StoredEvent>)
    requires Paired(chain, xs, ys)
    ensures xs == {} <==> ys == {}
  {
    hide *;
    if x :| x in xs {
      var y := PartnerIn(chain, xs, ys, x);
    }
    if y :| y in ys {
      var x := PartnerOf(chain, xs, ys, y);
    }
  }

  lemma NothingRead(chain: Chain, xs: set<StoredEvent>, ys: set<StoredEvent>, limit: nat)
    requires limit == 0 || (xs == {} && ys == {})
    ensures PairedBatches(chain, OrderLimit(multiset(xs), limit), OrderLimit(multiset(ys), limit))
  {
  }

  ghost predicate PairedBatches(chain: Chain, s: seq<StoredEvent>, t: seq<StoredEvent>) {
    |s| == |t| && forall i :: 0 <= i < |s| ==> Pair(chain, s[i], t[i])
  }

  lemma PairedCons(chain: Chain, a: StoredEvent, s: seq<StoredEvent>, b: StoredEvent, t: seq<StoredEvent>)
    requires Pair(chain, a, b) && PairedBatches(chain, s, t)
    ensures PairedBatches(chain, [a] + s, [b] + t)
  {
    hide Pair;
  }

  lemma {:induction false} PairedRead(chain: Chain, xs: set<StoredEvent>, ys: set<StoredEvent>, limit: nat)
    requires Paired(chain, xs, ys) && IdentifiedSet(xs) && IdentifiedSet(ys)
    ensures PairedBatches(chain, OrderLimit(multiset(xs), limit), OrderLimit(multiset(ys), limit))
    decreases limit
  {
    hide *;
    BothEmpty(chain, xs, ys);
    if limit == 0 || xs == {} {
      NothingRead(chain, xs, ys, limit);
    } else {
      var a, as', fewer := SetStep(xs, limit);
      var b, bs, _ := SetStep(ys, limit);
      FirstsArePaired(chain, xs, ys, a, b);
      LeastIsIn(a, xs);
      LeastIsIn(b, ys);
      PairedStep(chain, xs, ys, a, b);
      PairedRead(chain, as', bs, fewer);
      PairedCons(chain, a, OrderLimit(multiset(as'), fewer), b, OrderLimit(multiset(bs), fewer));
    }
  }

  lemma LeastIsIn(first: StoredEvent, rows: set<StoredEvent>)
    requires LeastOf(first, rows)
    ensures first in rows
  {
  }

  lemma {:induction false} KnownNames(names: seq<string>, eventType: EventType)
    ensures eventType in Known(names) <==> Name(eventType) in names
    decreases |names|
  {
    if names != [] {
      hide Name;
      KnownNames(names[1..], eventType);
      FindFinds(ALL_TYPES, names[0]);
      assert eventType in ALL_TYPES;
      if Find(ALL_TYPES, names[0]).Some? {
        NamesDiffer(eventType, Find(ALL_TYPES, names[0]).value);
      }
      assert names == [names[0]] + names[1..];
    }
  }

  lemma {:induction false} FindFinds(types: seq<EventType>, name: string)
    ensures match Find(types, name)
            case Some(eventType) => Name(eventType) == name
            case None => forall eventType <- types :: Name(eventType) != name
  {
    if types != [] {
      FindFinds(types[1..], name);
    }
  }

  lemma NamesDiffer(x: EventType, y: EventType)
    ensures Name(x) == Name(y) ==> x == y
  {
    assert |Name(x)| == |Name(y)| ==> x == y;
  }

  lemma StoredRowIsPaired(chain: Chain, tables: Tables, names: seq<string>, after: int, key: StoreKey)
    returns (y: StoredEvent)
    requires Faithful(chain, tables) && key in tables.store
    requires Name(tables.store[key].eventType) in names && tables.store[key].sequence > after
    ensures y in TypedRows(tables, Known(names), after) && Pair(chain, FromStore(tables.store[key]), y)
  {
    hide HandlerData, Name, Known, Select, Mirrored, Canonical;
    StoredRowHasTwin(chain, tables, key);
    var log := chain[Location(key.transactionHash, key.logIndex)];
    var row := tables.typed[TypedKeyOf(log)];
    y := FromTyped(row);
    KnownNames(names, TypeOf(log.columns));
    TwinsReadAlike(tables.store[key], row);
    assert Carried(tables, TypedKeyOf(log));
    assert OnChain(chain, LogOf(row));
  }

  lemma TypedRowIsPaired(chain: Chain, tables: Tables, names: seq<string>, after: int, key: TypedKey)
    returns (x: StoredEvent)
    requires Faithful(chain, tables) && key in tables.typed
    requires key.table in Known(names) && tables.typed[key].sequence > after
    ensures x in StoreRows(tables, names, after) && Pair(chain, x, FromTyped(tables.typed[key]))
  {
    hide HandlerData, Name, Known, Select, Mirrored;
    TypedRowHasTwin(chain, tables, key);
    var row := tables.typed[key];
    var stored := tables.store[KeyOf(row.envelope)];
    x := FromStore(stored);
    KnownNames(names, key.table);
    TwinsReadAlike(stored, row);
    assert Carried(tables, key);
    assert OnChain(chain, LogOf(row));
  }

  /** Rows of the two tables correspond one to one. */
  lemma RowsArePaired(chain: Chain, tables: Tables, names: seq<string>, after: int)
    requires Faithful(chain, tables)
    ensures Paired(chain, StoreRows(tables, names, after), TypedRows(tables, Known(names), after))
  {
    hide Faithful, Pair, Name, Known, FromStore, FromTyped;
    var xs, ys := StoreRows(tables, names, after), TypedRows(tables, Known(names), after);
    forall x <- xs ensures exists y <- ys :: Pair(chain, x, y) {
      var key :| key in tables.store && FromStore(tables.store[key]) == x
                 && Name(tables.store[key].eventType) in names && tables.store[key].sequence > after;
      var y := StoredRowIsPaired(chain, tables, names, after, key);
    }
    forall y <- ys ensures exists x <- xs :: Pair(chain, x, y) {
      var key :| key in tables.typed && FromTyped(tables.typed[key]) == y
                 && key.table in Known(names) && tables.typed[key].sequence > after;
      var x := TypedRowIsPaired(chain, tables, names, after, key);
    }
  }

  lemma StoredNumbersIdentify(tables: Tables, names: seq<string>, after: int)
    requires Numbered(tables)
    ensures IdentifiedSet(StoreRows(tables, names, after))
  {
    hide Name, Carried, KeyOf;
  }

  lemma TypedNumbersIdentify(chain: Chain, tables: Tables, types: seq<EventType>, after: int)
    requires Faithful(chain, tables)
    ensures IdentifiedSet(TypedRows(tables, types, after))
    ensures Identified(multiset(TypedRows(tables, types, after)))
  {
    hide Select, HandlerData, Mirrored, TypeOf;
    forall p, q | p in tables.typed && q in tables.typed && tables.typed[p].sequence == tables.typed[q].sequence
      ensures FromTyped(tables.typed[p]) == FromTyped(tables.typed[q])
    {
      assert Carried(tables, p) && Carried(tables, q);
      assert OnChain(chain, LogOf(tables.typed[p])) && OnChain(chain, LogOf(tables.typed[q]));
      assert LogOf(tables.typed[p]) == LogOf(tables.typed[q]);
    }
  }

  /** For any known types, of which only those without rows to read are repeated, the typed reader returns
      the batch of the monolithic reader, event by event; the entity is the same where `SameEntity` says so. */
  lemma ReadersAgree(chain: Chain, tables: Tables, names: seq<string>, after: int, limit: nat)
    requires Faithful(chain, tables) && Known(names) != [] && RepeatsAreEmpty(tables, Known(names), after)
    ensures TypedRead(tables, names, after, limit).Ok?
    ensures PairedBatches(chain, StoreRead(tables, names, after, limit), TypedRead(tables, names, after, limit).value)
  {
    hide Identified, OrderLimit, TypedRead, Paired, PairedBatches, IdentifiedSet, Branches, UnionAll, RepeatsAreEmpty,
         Known, Mirrored, Canonical, StoreRows, TypedRows;
    UnionOfTables(tables, Known(names), after);
    TypedNumbersIdentify(chain, tables, Known(names), after);
    StoredNumbersIdentify(tables, names, after);
    TypedReadIsOneQuery(tables, names, after, limit);
    RowsArePaired(chain, tables, names, after);
    PairedRead(chain, StoreRows(tables, names, after), TypedRows(tables, Known(names), after), limit);
  }

  // ---- And no further

  lemma {:induction false} UnionCovers(tables: Tables, types: seq<EventType>, after: int, row: StoredEvent)
    ensures row in TypedRows(tables, types, after) <==> UnionAll(Branches(tables, types, after))[row] > 0
    decreases |types|
  {
    hide FromTyped;
    if types != [] {
      hide *;
      var table, others := types[0], types[1..];
      assert types == [table] + others;
      UnionStep(tables, types, after);
      UnionCovers(tables, others, after, row);
      RowsOfOneMore(tables, table, others, after);
    }
  }

  lemma {:induction false} RepeatedRow(tables: Tables, types: seq<EventType>, after: int, i: nat, j: nat,
                                       row: StoredEvent)
    requires i < j < |types| && types[i] == types[j] && row in TableRows(tables, types[i], after)
    ensures UnionAll(Branches(tables, types, after))[row] >= 2
    decreases |types|
  {
    hide *;
    var others := types[1..];
    UnionStep(tables, types, after);
    if i == 0 {
      RowOfItsTable(tables, others, after, j - 1, row);
      UnionCovers(tables, others, after, row);
    } else {
      RepeatedRow(tables, others, after, i - 1, j - 1, row);
    }
  }

  lemma RowOfItsTable(tables: Tables, types: seq<EventType>, after: int, i: nat, row: StoredEvent)
    requires i < |types| && row in TableRows(tables, types[i], after)
    ensures row in TypedRows(tables, types, after)
  {
    hide FromTyped;
    var key :| key in tables.typed && key.table == types[i] && tables.typed[key].sequence > after
               && FromTyped(tables.typed[key]) == row;
  }

  lemma CountTwice(rows: set<StoredEvent>, more: Rows, row: StoredEvent)
    requires multiset(rows) <= more && row in rows && more[row] >= 2
    ensures |more| > |rows|
  {
    assert more == multiset(rows) + multiset{row} + (more - multiset(rows) - multiset{row});
  }

  /** With a repeated type that has rows, the batches that hold all rows differ in length. */
  lemma RepeatsDisagree(chain: Chain, tables: Tables, names: seq<string>, after: int) returns (limit: nat)
    requires Faithful(chain, tables) && !RepeatsAreEmpty(tables, Known(names), after)
    ensures TypedRead(tables, names, after, limit).Ok?
    ensures |TypedRead(tables, names, after, limit).value| > |StoreRead(tables, names, after, limit)|
  {
    hide OrderLimit, TypedRead, Paired, Branches, UnionAll, Known, TypedRows, TableRows, StoreRows, Faithful, First,
         Rest, Pair, SkipsNone, InOrder, Identified, IdentifiedSet;
    var types := Known(names);
    var i: nat, j: nat :| i < j < |types| && types[i] == types[j] && TableRows(tables, types[i], after) != {};
    var row :| row in TableRows(tables, types[i], after);
    var all, rows := UnionAll(Branches(tables, types, after)), TypedRows(tables, types, after);
    limit := |all|;
    RepeatedRow(tables, types, after, i, j, row);
    RowOfItsTable(tables, types, after, i, row);
    UnionIdentified(chain, tables, types, after);
    TypedReadIsOneQuery(tables, names, after, limit);
    OrderLimitMeaning(all, limit);
    CountTwice(rows, all, row);
    NumberedOf(chain, tables);
    TypedNumbersIdentify(chain, tables, types, after);
    StoredNumbersIdentify(tables, names, after);
    RowsArePaired(chain, tables, names, after);
    PairedRead(chain, StoreRows(tables, names, after), rows, limit);
    OrderLimitMeaning(multiset(rows), limit);
  }

  lemma NumberedOf(chain: Chain, tables: Tables)
    requires Faithful(chain, tables)
    ensures Numbered(tables)
  {
  }

  lemma UnionIdentified(chain: Chain, tables: Tables, types: seq<EventType>, after: int)
    requires Faithful(chain, tables)
    ensures Identified(UnionAll(Branches(tables, types, after)))
    ensures multiset(TypedRows(tables, types, after)) <= UnionAll(Branches(tables, types, after))
  {
    hide Branches, UnionAll, TypedRows, Faithful;
    TypedNumbersIdentify(chain, tables, types, after);
    forall row ensures row in TypedRows(tables, types, after) <==> UnionAll(Branches(tables, types, after))[row] > 0 {
      UnionCovers(tables, types, after, row);
    }
  }

  /** So the readers agree at every limit exactly when no type with rows to read is repeated. */
  lemma ReadersAgreeExactly(chain: Chain, tables: Tables, names: seq<string>, after: int)
    requires Faithful(chain, tables) && Known(names) != []
    ensures RepeatsAreEmpty(tables, Known(names), after) <==>
            forall limit: nat ::
              && TypedRead(tables, names, after, limit).Ok?
              && PairedBatches(chain, StoreRead(tables, names, after, limit),
                               TypedRead(tables, names, after, limit).value)
  {
    hide Faithful, Known, RepeatsAreEmpty, TypedRead, StoreRead, Pair;
    if RepeatsAreEmpty(tables, Known(names), after) {
      forall limit: nat
        ensures && TypedRead(tables, names, after, limit).Ok?
                && PairedBatches(chain, StoreRead(tables, names, after, limit),
                                 TypedRead(tables, names, after, limit).value)
      {
        ReadersAgree(chain, tables, names, after, limit);
      }
    } else {
      var limit := RepeatsDisagree(chain, tables, names, after);
      assert TypedRead(tables, names, after, limit).Ok?;
    }
  }

  /** So they do after every run of commits, replays and rollbacks that writes logs of one chain. */
  lemma ReadersAgreeAfterEveryRun(chain: Chain, steps: seq<Step>, names: seq<string>, after: int, limit: nat)
    requires forall step <- steps :: StepOnChain(chain, step)
    requires Known(names) != [] && RepeatsAreEmpty(Run(EMPTY, steps), Known(names), after)
    ensures TypedRead(Run(EMPTY, steps), names, after, limit).Ok?
    ensures PairedBatches(chain, StoreRead(Run(EMPTY, steps), names, after, limit),
                          TypedRead(Run(EMPTY, steps), names, after, limit).value)
  {
    hide TypedRead, StoreRead, PairedBatches, Known, RepeatsAreEmpty, Run;
    assert Faithful(chain, EMPTY);
    RunKeepsFaithful(chain, EMPTY, steps);
    ReadersAgree(chain, Run(EMPTY, steps), names, after, limit);
  }

  /** With names but no known one among them the typed reader fails where the other returns nothing. */
  lemma WhenTypedReadFails(tables: Tables, names: seq<string>, after: int, limit: nat)
    ensures TypedRead(tables, names, after, limit).Err? <==> names != [] && Known(names) == []
    ensures Known(names) == [] ==> StoreRead(tables, names, after, limit) == []
  {
    hide OrderLimit, LimitedUnion, Name, Known;
    if Known(names) == [] {
      forall row | row in StoreRows(tables, names, after) ensures false {
        var key :| key in tables.store && FromStore(tables.store[key]) == row
                   && Name(tables.store[key].eventType) in names;
        KnownNames(names, tables.store[key].eventType);
      }
      assert StoreRows(tables, names, after) == {};
      OrderLimitMeaning(multiset(StoreRows(tables, names, after)), limit);
    }
  }

  lemma KnownOfTwo(table: EventType)
    ensures Known([Name(table), Name(table)]) == [table, table]
  {
    hide Name;
    FindFinds(ALL_TYPES, Name(table));
    assert table in ALL_TYPES;
    NamesDiffer(Find(ALL_TYPES, Name(table)).value, table);
    assert Known([Name(table)]) == [table];
  }

  lemma TwiceTheSame(rows: Rows, limit: nat)
    requires Identified(rows) && rows != multiset{} && limit >= 2
    ensures Identified(rows + rows) && UnionAll([rows, rows]) == rows + rows
    ensures var batch := OrderLimit(rows + rows, limit); |batch| >= 2 && batch[0] == batch[1]
  {
    hide OrderLimit;
    var both := rows + rows;
    var first := First(both);
    assert first in rows && first in Rest(both);
    assert Least(first, both) && Least(First(Rest(both)), Rest(both));
    assert First(Rest(both)) == first;
    OrderLimitStep(both, limit);
    OrderLimitStep(Rest(both), limit - 1);
    assert UnionAll([rows]) == rows;
  }

  /** A type named twice makes the typed reader return its first event twice. */
  lemma RepeatedNameReadsTwice(chain: Chain, tables: Tables, table: EventType, after: int, limit: nat)
    requires Faithful(chain, tables) && limit >= 2 && TableRows(tables, table, after) != {}
    ensures TypedRead(tables, [Name(table), Name(table)], after, limit).Ok?
    ensures var batch := TypedRead(tables, [Name(table), Name(table)], after, limit).value;
            |batch| >= 2 && batch[0] == batch[1]
  {
    hide Name, OrderLimit, LimitedUnion, Identified, Faithful, TableRows, Known;
    var rows := TableRows(tables, table, after);
    KnownOfTwo(table);
    OneTableIsItsRows(tables, table, after);
    TypedNumbersIdentify(chain, tables, [table], after);
    assert Branches(tables, [table, table], after) == [multiset(rows), multiset(rows)];
    var row :| row in rows;
    assert row in multiset(rows);
    TwiceTheSame(multiset(rows), limit);
    TypedReadIsOneQuery(tables, [Name(table), Name(table)], after, limit);
  }

  lemma OneTableIsItsRows(tables: Tables, table: EventType, after: int)
    ensures TypedRows(tables, [table], after) == TableRows(tables, table, after)
  {
    hide FromTyped;
    assert forall other :: other in [table] <==> other == table;
  }

  // ---- Which name reads which events

  /** The seven names and what their events carry. */
  predicate Named(name: string, columns: Columns) {
    match columns
    case Atom(_, _, _, _) => name == "AtomCreated"
    case Context(_, _, _) => name == "AtomContextRegistered"
    case Triple(_, _, _, _, _) => name == "TripleCreated"
    case Deposit(_, _, _, _, _, _, _, _, _) => name == "Deposited"
    case Redemption(_, _, _, _, _, _, _, _, _) => name == "Redeemed"
    case Price(_, _, _, _, _, _) => name == "SharePriceChanged"
    case Fee(_, _, _) => name == "ProtocolFeeAccrued"
  }

  lemma NameOfColumns(name: string, columns: Columns)
    ensures Name(TypeOf(columns)) == name <==> Named(name, columns)
  {
  }

  /** Reading one name, each reader has exactly the rows after the given number whose log carries the columns
      of that name. */
  lemma ReadsByName(chain: Chain, tables: Tables, name: string, after: int)
    requires Faithful(chain, tables)
    ensures forall key <- tables.typed ::
              FromTyped(tables.typed[key]) in TypedRows(tables, Known([name]), after) <==>
              Named(name, tables.typed[key].columns) && tables.typed[key].sequence > after
    ensures forall key <- tables.store ::
              && Location(key.transactionHash, key.logIndex) in chain
              && (FromStore(tables.store[key]) in StoreRows(tables, [name], after) <==>
                  && Named(name, chain[Location(key.transactionHash, key.logIndex)].columns)
                  && tables.store[key].sequence > after)
  {
    forall key <- tables.typed
      ensures FromTyped(tables.typed[key]) in TypedRows(tables, Known([name]), after) <==>
              Named(name, tables.typed[key].columns) && tables.typed[key].sequence > after
    {
      TypedByName(chain, tables, name, after, key);
    }
    forall key <- tables.store
      ensures Location(key.transactionHash, key.logIndex) in chain
      ensures FromStore(tables.store[key]) in StoreRows(tables, [name], after) <==>
              && Named(name, chain[Location(key.transactionHash, key.logIndex)].columns)
              && tables.store[key].sequence > after
    {
      StoredByName(chain, tables, name, after, key);
    }
  }

  lemma TypedByName(chain: Chain, tables: Tables, name: string, after: int, key: TypedKey)
    requires Faithful(chain, tables) && key in tables.typed
    ensures FromTyped(tables.typed[key]) in TypedRows(tables, Known([name]), after) <==>
            Named(name, tables.typed[key].columns) && tables.typed[key].sequence > after
  {
    NameOfColumns(name, tables.typed[key].columns);
    KnownNames([name], key.table);
    TableOfRow(tables, key);
    hide Named, Name, Known, Select, Mirrored;
    assert Carried(tables, key);
    var row := FromTyped(tables.typed[key]);
    if row in TypedRows(tables, Known([name]), after) {
      var other :| other in tables.typed && other.table in Known([name]) && tables.typed[other].sequence > after
                   && FromTyped(tables.typed[other]) == row;
      TableOfRow(tables, other);
    }
  }

  lemma StoredByName(chain: Chain, tables: Tables, name: string, after: int, key: StoreKey)
    requires Faithful(chain, tables) && key in tables.store
    ensures Location(key.transactionHash, key.logIndex) in chain
    ensures FromStore(tables.store[key]) in StoreRows(tables, [name], after) <==>
            && Named(name, chain[Location(key.transactionHash, key.logIndex)].columns)
            && tables.store[key].sequence > after
  {
    assert Mirrored(chain, tables, key);
    NameOfColumns(name, chain[Location(key.transactionHash, key.logIndex)].columns);
    hide Named, Name, TypeOf, HandlerData, TextField;
  }

  /** Rows that are not canonical are never read from the store. */
  lemma OnlyCanonicalIsRead(tables: Tables, names: seq<string>, after: int, limit: nat)
    ensures forall row <- StoreRead(tables, names, after, limit) :: row.isCanonical && row.sequence > after
  {
    hide OrderLimit, Name, TextField;
    var rows := StoreRows(tables, names, after);
    OrderLimitMeaning(multiset(rows), limit);
    forall row <- StoreRead(tables, names, after, limit) ensures row in rows {
      assert row in multiset(StoreRead(tables, names, after, limit));
    }
  }
}
