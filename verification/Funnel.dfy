/**
 The funnel jobs (`crates/projections/src/repo/funnel_repo.rs`): each inserts, for every account, the
 first qualifying event of each step and never overwrites. All keys and joins of `funnel_event` fix
 the funnel, so the table is kept here as one table a funnel.
 */
module Funnel {
  import opened Wrappers

  /** A row of a typed event table with its account; it counts from the time it has a number. */
  datatype Row = Row(account: string, time: int, sequence: nat)

  datatype Tables = Tables(atoms: seq<Row>, deposits: seq<Row>, triples: seq<Row>)

  datatype Source = Atoms | Deposits | Triples

  function RowsOf(tables: Tables, source: Source): seq<Row> {
    match source case Atoms => tables.atoms case Deposits => tables.deposits case Triples => tables.triples
  }

  /** (account_id, step_index, completed_at) of `funnel_event`, and its event_id. */
  datatype StepKey = StepKey(account: string, step: nat, completedAt: int)

  type StepTable = map<StepKey, nat>

  /** Time since step 0: not before it (or strictly after it), and at most `length` later. */
  datatype Window = Window(strict: bool, length: nat)

  predicate Contains(window: Window, elapsed: int) {
    (if window.strict then elapsed > 0 else elapsed >= 0) && elapsed <= window.length
  }

  const DAY: nat := 86400

  /** A later step: the event of this rank among an account's events in the window. */
  datatype Stage = Stage(source: Source, window: Window, rank: nat)

  /** Step 0 is the first event of the seed table. */
  datatype Definition = Definition(seed: Source, stages: seq<Stage>)

  const ONBOARDING := Definition(Atoms, [Stage(Deposits, Window(false, 30 * DAY), 1)])
  const ACTIVATION := Definition(Deposits, [Stage(Deposits, Window(true, 7 * DAY), 1)])
  const CREATOR := Definition(
    Atoms, [Stage(Triples, Window(true, 90 * DAY), 1), Stage(Atoms, Window(false, 90 * DAY), 5)])

  // ---- ORDER BY block_timestamp, sequence_number

  predicate Before(x: Row, y: Row) {
    x.time < y.time || (x.time == y.time && x.sequence <= y.sequence)
  }

  predicate InOrder(rows: seq<Row>) {
    forall i, j :: 0 <= i < j < |rows| ==> Before(rows[i], rows[j])
  }

  function Place(sorted: seq<Row>, row: Row): seq<Row> {
    if sorted == [] || Before(sorted[|sorted| - 1], row) then sorted + [row]
    else Place(sorted[..|sorted| - 1], row) + [sorted[|sorted| - 1]]
  }

  function Sort(rows: seq<Row>): seq<Row> {
    if rows == [] then [] else Place(Sort(rows[..|rows| - 1]), rows[|rows| - 1])
  }

  lemma {:induction false} PlaceAdds(sorted: seq<Row>, row: Row)
    ensures multiset(Place(sorted, row)) == multiset(sorted) + multiset{row}
    decreases |sorted|
  {
    if sorted != [] && !Before(sorted[|sorted| - 1], row) {
      hide Before;
      PlaceAdds(sorted[..|sorted| - 1], row);
      assert sorted == sorted[..|sorted| - 1] + [sorted[|sorted| - 1]];
    }
  }

  lemma OrderedThenLast(front: seq<Row>, last: Row)
    requires InOrder(front) && forall row <- front :: Before(row, last)
    ensures InOrder(front + [last])
  {
  }

  lemma {:induction false} PlaceKeepsOrder(sorted: seq<Row>, row: Row)
    requires InOrder(sorted)
    ensures InOrder(Place(sorted, row))
    decreases |sorted|
  {
    if sorted == [] || Before(sorted[|sorted| - 1], row) {
      OrderedThenLast(sorted, row);
    } else {
      var front, last := sorted[..|sorted| - 1], sorted[|sorted| - 1];
      PlaceKeepsOrder(front, row);
      PlaceAdds(front, row);
      forall x | x in Place(front, row) ensures Before(x, last) {
        assert x in multiset(Place(front, row));
      }
      OrderedThenLast(Place(front, row), last);
    }
  }

  lemma {:induction false} SortMeaning(rows: seq<Row>)
    ensures InOrder(Sort(rows)) && multiset(Sort(rows)) == multiset(rows)
    decreases |rows|
  {
    if rows != [] {
      SortMeaning(rows[..|rows| - 1]);
      PlaceKeepsOrder(Sort(rows[..|rows| - 1]), rows[|rows| - 1]);
      PlaceAdds(Sort(rows[..|rows| - 1]), rows[|rows| - 1]);
      assert rows == rows[..|rows| - 1] + [rows[|rows| - 1]];
    }
  }

  // ---- The queries

  function OfAccount(rows: seq<Row>, account: string): seq<Row> {
    if rows == [] then []
    else (if rows[0].account == account then [rows[0]] else []) + OfAccount(rows[1..], account)
  }

  /** ROW_NUMBER() = rank, which for rank 1 is DISTINCT ON. */
  function Nth(rows: seq<Row>, account: string, rank: nat): Option<Row> {
    var sorted := Sort(OfAccount(rows, account));
    if 0 < rank <= |sorted| then Some(sorted[rank - 1]) else None
  }

  function Accounts(rows: seq<Row>): set<string> {
    set row <- rows :: row.account
  }

  function Selected(rows: seq<Row>, rank: nat): map<string, Row> {
    map account <- Accounts(rows) | Nth(rows, account, rank).Some? :: Nth(rows, account, rank).value
  }

  function Copies(row: Row, count: nat): seq<Row> {
    if count == 0 then [] else [row] + Copies(row, count - 1)
  }

  /** Rows of step 0 that a row joins with. */
  function Matches(table: StepTable, row: Row, window: Window): set<StepKey> {
    set key <- table | key.account == row.account && key.step == 0 && Contains(window, row.time - key.completedAt)
  }

  /** JOIN funnel_event: one copy of a row for every match. */
  function Joined(rows: seq<Row>, table: StepTable, window: Window): seq<Row> {
    if rows == [] then []
    else Copies(rows[0], |Matches(table, rows[0], window)|) + Joined(rows[1..], table, window)
  }

  function StepRows(step: nat, selected: map<string, Row>): StepTable {
    map account <- selected :: StepKey(account, step, selected[account].time) := selected[account].sequence
  }

  /** INSERT … ON CONFLICT DO NOTHING: what is there wins. */
  function InsertStep(table: StepTable, step: nat, selected: map<string, Row>): StepTable {
    StepRows(step, selected) + table
  }

  function RunStages(stages: seq<Stage>, step: nat, tables: Tables, table: StepTable): StepTable
    decreases |stages|
  {
    if stages == [] then table
    else
      var stage := stages[0];
      var joined := Joined(RowsOf(tables, stage.source), table, stage.window);
      RunStages(stages[1..], step + 1, tables, InsertStep(table, step, Selected(joined, stage.rank)))
  }

  /** One run of a job. */
  function Compute(funnel: Definition, tables: Tables, table: StepTable): StepTable {
    RunStages(funnel.stages, 1, tables, InsertStep(table, 0, Selected(RowsOf(tables, funnel.seed), 1)))
  }

  // ---- What the table should hold

  /** The rows in the window after their own account's step 0. */
  function InWindow(rows: seq<Row>, starts: map<string, Row>, window: Window): seq<Row> {
    if rows == [] then []
    else
      (if rows[0].account in starts && Contains(window, rows[0].time - starts[rows[0].account].time)
       then [rows[0]] else [])
      + InWindow(rows[1..], starts, window)
  }

  /** Who completes a step, and with which event. */
  function Ideal(funnel: Definition, tables: Tables, step: nat): map<string, Row>
    requires step <= |funnel.stages|
  {
    var starts := Selected(RowsOf(tables, funnel.seed), 1);
    if step == 0 then starts
    else
      var stage := funnel.stages[step - 1];
      Selected(InWindow(RowsOf(tables, stage.source), starts, stage.window), stage.rank)
  }

  predicate Expected(funnel: Definition, tables: Tables, key: StepKey) {
    && key.step <= |funnel.stages|
    && var ideal := Ideal(funnel, tables, key.step);
       key.account in ideal && ideal[key.account].time == key.completedAt
  }

  /** Nothing but expected rows. */
  ghost predicate Sound(funnel: Definition, tables: Tables, table: StepTable) {
    forall key <- table ::
      Expected(funnel, tables, key) && table[key] == Ideal(funnel, tables, key.step)[key.account].sequence
  }

  /** All expected rows of the steps before `bound`. */
  ghost predicate Complete(funnel: Definition, tables: Tables, table: StepTable, bound: nat) {
    forall key :: Expected(funnel, tables, key) && key.step < bound ==> key in table
  }

  ghost predicate Exact(funnel: Definition, tables: Tables, table: StepTable) {
    Sound(funnel, tables, table) && Complete(funnel, tables, table, |funnel.stages| + 1)
  }

  lemma ExactIsUnique(funnel: Definition, tables: Tables, x: StepTable, y: StepTable)
    requires Exact(funnel, tables, x) && Exact(funnel, tables, y)
    ensures x == y
  {
    hide Ideal;
    forall key ensures key in x <==> key in y {
      assert key in x ==> Expected(funnel, tables, key);
      assert key in y ==> Expected(funnel, tables, key);
    }
  }

  /** In a sound table with all of step 0, a row joins with at most its own account's start. */
  lemma MatchesOwnStart(funnel: Definition, tables: Tables, table: StepTable, row: Row, window: Window)
    requires Sound(funnel, tables, table) && Complete(funnel, tables, table, 1)
    ensures var starts := Ideal(funnel, tables, 0);
            |Matches(table, row, window)|
            == if row.account in starts && Contains(window, row.time - starts[row.account].time) then 1 else 0
  {
    hide Contains, Selected;
    var starts := Ideal(funnel, tables, 0);
    if row.account in starts {
      var start := StepKey(row.account, 0, starts[row.account].time);
      assert Expected(funnel, tables, start);
      assert Matches(table, row, window)
          == if Contains(window, row.time - starts[row.account].time) then {start} else {};
    } else {
      assert Matches(table, row, window) == {};
    }
  }

  lemma {:induction false} JoinedIsInWindow(funnel: Definition, tables: Tables, table: StepTable, rows: seq<Row>,
                                            window: Window)
    requires Sound(funnel, tables, table) && Complete(funnel, tables, table, 1)
    ensures Joined(rows, table, window) == InWindow(rows, Ideal(funnel, tables, 0), window)
    decreases |rows|
  {
    if rows != [] {
      hide Sound, Complete, Matches, Contains, Ideal;
      MatchesOwnStart(funnel, tables, table, rows[0], window);
      JoinedIsInWindow(funnel, tables, table, rows[1..], window);
      assert Copies(rows[0], 1) == [rows[0]] + Copies(rows[0], 0);
    }
  }

  /** Inserting the ideal rows of a step keeps a table sound and completes the step. */
  lemma InsertIdeal(funnel: Definition, tables: Tables, table: StepTable, step: nat)
    requires step <= |funnel.stages|
    requires Sound(funnel, tables, table) && Complete(funnel, tables, table, step)
    ensures var after := InsertStep(table, step, Ideal(funnel, tables, step));
            Sound(funnel, tables, after) && Complete(funnel, tables, after, step + 1)
  {
    hide Ideal;
  }

  lemma {:induction false} StagesComplete(funnel: Definition, step: nat, tables: Tables, table: StepTable)
    requires 1 <= step <= |funnel.stages| + 1
    requires Sound(funnel, tables, table) && Complete(funnel, tables, table, step)
    ensures Exact(funnel, tables, RunStages(funnel.stages[step - 1..], step, tables, table))
    decreases |funnel.stages| - step
  {
    if step <= |funnel.stages| {
      var stage := funnel.stages[step - 1];
      JoinedIsInWindow(funnel, tables, table, RowsOf(tables, stage.source), stage.window);
      InsertIdeal(funnel, tables, table, step);
      hide Sound, Complete;
      assert funnel.stages[step - 1..][0] == stage && funnel.stages[step - 1..][1..] == funnel.stages[step..];
      StagesComplete(funnel, step + 1, tables, InsertStep(table, step, Ideal(funnel, tables, step)));
    }
  }

  /** A run from any sound table makes it exact. */
  lemma ComputeIsExact(funnel: Definition, tables: Tables, table: StepTable)
    requires Sound(funnel, tables, table)
    ensures Exact(funnel, tables, Compute(funnel, tables, table))
  {
    InsertIdeal(funnel, tables, table, 0);
    assert funnel.stages[0..] == funnel.stages;
    StagesComplete(funnel, 1, tables, InsertStep(table, 0, Ideal(funnel, tables, 0)));
  }

  // ---- Accounts and windows

  lemma ConcatAssociates(a: seq<Row>, b: seq<Row>, c: seq<Row>)
    ensures a + (b + c) == a + b + c
  {
  }

  lemma {:induction false} OfAccountAppend(front: seq<Row>, back: seq<Row>, account: string)
    ensures OfAccount(front + back, account) == OfAccount(front, account) + OfAccount(back, account)
    decreases |front|
  {
    if front == [] {
      assert front + back == back;
    } else {
      assert (front + back)[1..] == front[1..] + back;
      OfAccountAppend(front[1..], back, account);
      var own := if front[0].account == account then [front[0]] else [];
      ConcatAssociates(own, OfAccount(front[1..], account), OfAccount(back, account));
    }
  }

  lemma {:induction false} InWindowAppend(front: seq<Row>, back: seq<Row>, starts: map<string, Row>, window: Window)
    ensures InWindow(front + back, starts, window) == InWindow(front, starts, window) + InWindow(back, starts, window)
    decreases |front|
  {
    if front == [] {
      assert front + back == back;
    } else {
      hide Contains;
      assert (front + back)[1..] == front[1..] + back;
      InWindowAppend(front[1..], back, starts, window);
    }
  }

  lemma NthOfAccount(rows: seq<Row>, account: string, rank: nat)
    requires Nth(rows, account, rank).Some?
    ensures account in Accounts(rows)
    ensures Nth(rows, account, rank).value in rows && Nth(rows, account, rank).value.account == account
  {
    var own := OfAccount(rows, account);
    var row := Nth(rows, account, rank).value;
    SortMeaning(own);
    assert row in multiset(Sort(own));
    OfAccountFrom(rows, account, row);
  }

  lemma {:induction false} OfAccountFrom(rows: seq<Row>, account: string, row: Row)
    requires row in OfAccount(rows, account)
    ensures row in rows && row.account == account
    decreases |rows|
  {
    if rows[0] != row || rows[0].account != account {
      OfAccountFrom(rows[1..], account, row);
    }
  }

  lemma StartOfSelected(rows: seq<Row>, starts: map<string, Row>, stage: Stage, account: string)
    requires account in Selected(InWindow(rows, starts, stage.window), stage.rank)
    ensures account in starts
    ensures Contains(stage.window,
                     Selected(InWindow(rows, starts, stage.window), stage.rank)[account].time - starts[account].time)
  {
    hide Nth, Contains;
    var inside := InWindow(rows, starts, stage.window);
    NthOfAccount(inside, account, stage.rank);
    InWindowFrom(rows, starts, stage.window, Nth(inside, account, stage.rank).value);
  }

  lemma {:induction false} InWindowFrom(rows: seq<Row>, starts: map<string, Row>, window: Window, row: Row)
    requires row in InWindow(rows, starts, window)
    ensures row.account in starts && Contains(window, row.time - starts[row.account].time)
    decreases |rows|
  {
    hide Contains;
    if row in InWindow(rows[1..], starts, window) {
      InWindowFrom(rows[1..], starts, window, row);
    }
  }

  /** The window may be applied to an account's rows first. */
  lemma {:induction false} WindowOfAccount(rows: seq<Row>, starts: map<string, Row>, window: Window, account: string)
    ensures OfAccount(InWindow(rows, starts, window), account) == InWindow(OfAccount(rows, account), starts, window)
    decreases |rows|
  {
    if rows != [] {
      hide Contains;
      var first, rest := [rows[0]], rows[1..];
      assert rows == first + rest && first[1..] == [];
      WindowOfAccount(rest, starts, window, account);
      InWindowAppend(first, rest, starts, window);
      OfAccountAppend(InWindow(first, starts, window), InWindow(rest, starts, window), account);
      OfAccountAppend(first, rest, account);
      InWindowAppend(OfAccount(first, account), OfAccount(rest, account), starts, window);
    }
  }

  // ---- Every run

  /** A table gets a row, or the job runs. */
  datatype Op = Append(source: Source, row: Row) | Job

  datatype State = State(tables: Tables, table: StepTable)

  const EMPTY := State(Tables([], [], []), map[])

  function Appended(tables: Tables, source: Source, row: Row): Tables {
    match source
    case Atoms => tables.(atoms := tables.atoms + [row])
    case Deposits => tables.(deposits := tables.deposits + [row])
    case Triples => tables.(triples := tables.triples + [row])
  }

  function Perform(funnel: Definition, state: State, op: Op): State {
    match op
    case Append(source, row) => state.(tables := Appended(state.tables, source, row))
    case Job => state.(table := Compute(funnel, state.tables, state.table))
  }

  function Run(funnel: Definition, state: State, ops: seq<Op>): State
    decreases |ops|
  {
    if ops == [] then state else Run(funnel, Perform(funnel, state, ops[0]), ops[1..])
  }

  /** An account's rows reach each table in (time, number) order; accounts and tables need not keep step
      with each other. */
  predicate OrderlyOp(tables: Tables, op: Op) {
    op.Append? ==> forall row <- RowsOf(tables, op.source) :: row.account == op.row.account ==> Before(row, op.row)
  }

  predicate Orderly(funnel: Definition, state: State, ops: seq<Op>)
    decreases |ops|
  {
    ops == []
    || (OrderlyOp(state.tables, ops[0]) && Orderly(funnel, Perform(funnel, state, ops[0]), ops[1..]))
  }

  /** Nobody completes a later step without a row for step 0. */
  ghost predicate Rooted(table: StepTable) {
    forall key <- table :: key.step > 0 ==> exists start <- table :: start.account == key.account && start.step == 0
  }

  lemma ExactIsRooted(funnel: Definition, tables: Tables, table: StepTable)
    requires Exact(funnel, tables, table)
    ensures Rooted(table)
  {
    hide Selected, InWindow, Contains;
    forall key <- table | key.step > 0
      ensures exists start <- table :: start.account == key.account && start.step == 0
    {
      assert Expected(funnel, tables, key);
      var stage, starts := funnel.stages[key.step - 1], Ideal(funnel, tables, 0);
      StartOfSelected(RowsOf(tables, stage.source), starts, stage, key.account);
      var start := StepKey(key.account, 0, starts[key.account].time);
      assert Expected(funnel, tables, start);
    }
  }

  // ---- What a new row leaves alone

  /** The row of this rank. */
  function Pick(rows: seq<Row>, rank: nat): Option<Row> {
    var sorted := Sort(rows);
    if 0 < rank <= |sorted| then Some(sorted[rank - 1]) else None
  }

  ghost predicate NoRepeat(rows: seq<Row>) {
    forall row :: multiset(rows)[row] <= 1
  }

  lemma {:induction false} PlaceLater(sorted: seq<Row>, row: Row, i: nat)
    requires i < |sorted| && Before(sorted[i], row)
    ensures i < |Place(sorted, row)| && Place(sorted, row)[i] == sorted[i]
    decreases |sorted|
  {
    hide Before;
    PlaceAdds(sorted, row);
    if !Before(sorted[|sorted| - 1], row) {
      PlaceLater(sorted[..|sorted| - 1], row, i);
    }
  }

  lemma FrontHasNoRepeat(front: seq<Row>, last: Row)
    requires NoRepeat(front + [last])
    ensures NoRepeat(front) && last !in front
  {
    forall row ensures multiset(front + [last])[row] == multiset(front)[row] + if row == last then 1 else 0 {
    }
    assert last in front ==> multiset(front)[last] >= 1 && multiset(front + [last])[last] >= 2;
  }

  lemma {:induction false} PlaceEarlier(sorted: seq<Row>, row: Row, i: nat)
    requires i < |sorted| && !Before(sorted[i], row) && InOrder(sorted) && NoRepeat(sorted) && row !in sorted
    ensures i < |Place(sorted, row)| && Place(sorted, row)[i] != sorted[i]
    decreases |sorted|
  {
    var front, last := sorted[..|sorted| - 1], sorted[|sorted| - 1];
    assert sorted == front + [last];
    FrontHasNoRepeat(front, last);
    assert !Before(last, row) by {
      assert i == |front| || Before(sorted[i], last);
    }
    hide Before, NoRepeat;
    PlaceAdds(front, row);
    assert |Place(front, row)| == |front| + 1 by {
      assert |multiset(Place(front, row))| == |multiset(front)| + 1;
    }
    if i < |front| {
      PlaceEarlier(front, row, i);
    } else {
      assert Place(front, row)[i] in multiset(Place(front, row));
    }
  }

  /** A row of some rank keeps it exactly if the new row does not come before it. */
  lemma PickAfter(rows: seq<Row>, row: Row, rank: nat)
    requires Pick(rows, rank).Some?
    ensures Before(Pick(rows, rank).value, row) ==> Pick(rows + [row], rank) == Pick(rows, rank)
    ensures NoRepeat(rows) && row !in rows && !Before(Pick(rows, rank).value, row) ==>
              Pick(rows + [row], rank) != Pick(rows, rank)
  {
    var sorted := Sort(rows);
    SortOfMore(rows, row);
    hide Before, Sort, Place, NoRepeat, InOrder;
    if Before(sorted[rank - 1], row) {
      PlaceLater(sorted, row, rank - 1);
    } else if NoRepeat(rows) && row !in rows {
      SortKeepsDistinct(rows, row);
      PlaceEarlier(sorted, row, rank - 1);
    }
  }

  lemma SortOfMore(rows: seq<Row>, row: Row)
    ensures Sort(rows + [row]) == Place(Sort(rows), row)
  {
    assert (rows + [row])[..|rows|] == rows;
  }

  lemma SortKeepsDistinct(rows: seq<Row>, row: Row)
    requires NoRepeat(rows) && row !in rows
    ensures InOrder(Sort(rows)) && NoRepeat(Sort(rows)) && row !in Sort(rows)
  {
    hide InOrder, Sort;
    SortMeaning(rows);
    assert row !in multiset(rows);
  }

  lemma PickIsIn(rows: seq<Row>, rank: nat)
    requires Pick(rows, rank).Some?
    ensures Pick(rows, rank).value in rows
  {
    SortMeaning(rows);
    assert Pick(rows, rank).value in multiset(Sort(rows));
  }

  // ---- The same, one account at a time

  function SourceOf(funnel: Definition, step: nat): Source
    requires step <= |funnel.stages|
  {
    if step == 0 then funnel.seed else funnel.stages[step - 1].source
  }

  function RankOf(funnel: Definition, step: nat): nat
    requires step <= |funnel.stages|
  {
    if step == 0 then 1 else funnel.stages[step - 1].rank
  }

  function Near(rows: seq<Row>, start: int, window: Window): seq<Row> {
    if rows == [] then []
    else (if Contains(window, rows[0].time - start) then [rows[0]] else []) + Near(rows[1..], start, window)
  }

  function Start(funnel: Definition, tables: Tables, account: string): Option<Row> {
    Pick(OfAccount(RowsOf(tables, funnel.seed), account), 1)
  }

  /** The rows among which the step is looked for. */
  function Candidates(funnel: Definition, tables: Tables, step: nat, account: string): seq<Row>
    requires step <= |funnel.stages|
  {
    var own := OfAccount(RowsOf(tables, SourceOf(funnel, step)), account);
    if step == 0 then own
    else
      match Start(funnel, tables, account)
      case None => []
      case Some(start) => Near(own, start.time, funnel.stages[step - 1].window)
  }

  function Chosen(funnel: Definition, tables: Tables, step: nat, account: string): Option<Row>
    requires step <= |funnel.stages|
  {
    Pick(Candidates(funnel, tables, step, account), RankOf(funnel, step))
  }

  lemma {:induction false} NearAppend(front: seq<Row>, back: seq<Row>, start: int, window: Window)
    ensures Near(front + back, start, window) == Near(front, start, window) + Near(back, start, window)
    decreases |front|
  {
    if front == [] {
      assert front + back == back;
    } else {
      hide Contains;
      assert (front + back)[1..] == front[1..] + back;
      NearAppend(front[1..], back, start, window);
      var own := if Contains(window, front[0].time - start) then [front[0]] else [];
      ConcatAssociates(own, Near(front[1..], start, window), Near(back, start, window));
    }
  }

  lemma {:induction false} NearIsInWindow(rows: seq<Row>, starts: map<string, Row>, window: Window, account: string)
    requires forall row <- rows :: row.account == account
    ensures InWindow(rows, starts, window)
         == if account in starts then Near(rows, starts[account].time, window) else []
    decreases |rows|
  {
    if rows != [] {
      hide Contains;
      assert rows[0] in rows;
      NearIsInWindow(rows[1..], starts, window, account);
    }
  }

  lemma SelectedIs(rows: seq<Row>, rank: nat, account: string)
    ensures account in Selected(rows, rank) <==> Pick(OfAccount(rows, account), rank).Some?
    ensures account in Selected(rows, rank) ==>
              && Pick(OfAccount(rows, account), rank) == Some(Selected(rows, rank)[account])
              && Selected(rows, rank)[account].account == account
  {
    assert Nth(rows, account, rank) == Pick(OfAccount(rows, account), rank);
    if Nth(rows, account, rank).Some? {
      NthOfAccount(rows, account, rank);
    }
  }

  lemma ChosenIsIdeal(funnel: Definition, tables: Tables, step: nat, account: string)
    requires step <= |funnel.stages|
    ensures account in Ideal(funnel, tables, step) <==> Chosen(funnel, tables, step, account).Some?
    ensures account in Ideal(funnel, tables, step) ==>
              && Chosen(funnel, tables, step, account) == Some(Ideal(funnel, tables, step)[account])
              && Ideal(funnel, tables, step)[account].account == account
  {
    hide Selected, Pick, Contains;
    var starts := Selected(RowsOf(tables, funnel.seed), 1);
    SelectedIs(RowsOf(tables, funnel.seed), 1, account);
    if step > 0 {
      var stage := funnel.stages[step - 1];
      var rows := RowsOf(tables, stage.source);
      WindowOfAccount(rows, starts, stage.window, account);
      forall row <- OfAccount(rows, account) ensures row.account == account {
        OfAccountFrom(rows, account, row);
      }
      NearIsInWindow(OfAccount(rows, account), starts, stage.window, account);
      SelectedIs(InWindow(rows, starts, stage.window), stage.rank, account);
    }
  }

  function RowAt(key: StepKey, sequence: nat): Row {
    Row(key.account, key.completedAt, sequence)
  }

  ghost predicate Recorded(funnel: Definition, tables: Tables, table: StepTable, key: StepKey)
    requires key in table
  {
    && key.step <= |funnel.stages|
    && Chosen(funnel, tables, key.step, key.account) == Some(RowAt(key, table[key]))
  }

  lemma SoundIsRecorded(funnel: Definition, tables: Tables, table: StepTable)
    ensures Sound(funnel, tables, table) <==> forall key <- table :: Recorded(funnel, tables, table, key)
  {
    hide Ideal, Chosen;
    forall key <- table
      ensures Recorded(funnel, tables, table, key) <==>
                && Expected(funnel, tables, key)
                && table[key] == Ideal(funnel, tables, key.step)[key.account].sequence
    {
      if key.step <= |funnel.stages| {
        ChosenIsIdeal(funnel, tables, key.step, key.account);
      }
    }
  }

  // ---- Displacement

  /** The row would be taken into account for this record, and does not come after it. */
  ghost predicate DisplacesKey(funnel: Definition, table: StepTable, source: Source, row: Row, key: StepKey)
    requires key in table
  {
    && key.account == row.account && key.step <= |funnel.stages| && SourceOf(funnel, key.step) == source
    && (key.step > 0 ==>
          exists start <- table ::
            && start.account == row.account && start.step == 0
            && Contains(funnel.stages[key.step - 1].window, row.time - start.completedAt))
    && !Before(RowAt(key, table[key]), row)
  }

  ghost predicate Displaces(funnel: Definition, table: StepTable, source: Source, row: Row) {
    exists key <- table :: DisplacesKey(funnel, table, source, row, key)
  }

  lemma RowsAfter(tables: Tables, source: Source, row: Row, other: Source, account: string)
    ensures OfAccount(RowsOf(Appended(tables, source, row), other), account)
         == OfAccount(RowsOf(tables, other), account)
            + if other == source && account == row.account then [row] else []
  {
    var rows := RowsOf(tables, other);
    if other == source {
      OfAccountAppend(rows, [row], account);
      assert [row][1..] == [];
      assert OfAccount([row], account) == if account == row.account then [row] else [];
    } else {
      assert OfAccount(rows, account) + [] == OfAccount(rows, account);
    }
  }

  /** What the new row adds to the candidates of a step, if it does not move the account's start. */
  lemma CandidatesAfter(funnel: Definition, tables: Tables, source: Source, row: Row, step: nat, account: string)
    requires step <= |funnel.stages|
    requires step > 0 ==> Start(funnel, Appended(tables, source, row), account) == Start(funnel, tables, account)
    ensures Candidates(funnel, Appended(tables, source, row), step, account)
         == Candidates(funnel, tables, step, account)
            + if SourceOf(funnel, step) == source && account == row.account
                 && (step > 0 ==>
                       && Start(funnel, tables, account).Some?
                       && Contains(funnel.stages[step - 1].window,
                                   row.time - Start(funnel, tables, account).value.time))
              then [row] else []
  {
    hide Start, Contains, Appended, OfAccount;
    RowsAfter(tables, source, row, SourceOf(funnel, step), account);
    if step > 0 && Start(funnel, tables, account).Some? {
      var start, window := Start(funnel, tables, account).value.time, funnel.stages[step - 1].window;
      var own := OfAccount(RowsOf(tables, SourceOf(funnel, step)), account);
      NearAppend(own, [row], start, window);
      NearAppend(own, [], start, window);
      assert [row][1..] == [];
      assert Near([row], start, window) == if Contains(window, row.time - start) then [row] else [];
    }
  }

  /** The start of an account is its recorded one. */
  lemma RecordedStart(funnel: Definition, tables: Tables, table: StepTable, account: string) returns (start: StepKey)
    requires Sound(funnel, tables, table) && Rooted(table)
    requires exists key <- table :: key.account == account
    ensures start in table && start.account == account && start.step == 0
    ensures Start(funnel, tables, account) == Some(RowAt(start, table[start]))
    ensures forall other <- table :: other.account == account && other.step == 0 ==> other == start
  {
    SoundIsRecorded(funnel, tables, table);
    hide Sound, Pick;
    var key :| key in table && key.account == account;
    if key.step == 0 {
      start := key;
    } else {
      start :| start in table && start.account == account && start.step == 0;
    }
    forall other <- table | other.account == account && other.step == 0
      ensures Start(funnel, tables, account) == Some(RowAt(other, table[other]))
    {
      assert Recorded(funnel, tables, table, other);
    }
  }

  /** A start that is not displaced stays; for distinct rows, a displaced one does not. */
  lemma StartAfter(funnel: Definition, tables: Tables, table: StepTable, source: Source, row: Row, start: StepKey)
    requires start in table && start.step == 0
    requires Start(funnel, tables, start.account) == Some(RowAt(start, table[start]))
    ensures !DisplacesKey(funnel, table, source, row, start) ==>
              Start(funnel, Appended(tables, source, row), start.account) == Start(funnel, tables, start.account)
    ensures NoRepeat(RowsOf(tables, source)) && row !in RowsOf(tables, source)
            && DisplacesKey(funnel, table, source, row, start) ==>
              Start(funnel, Appended(tables, source, row), start.account) != Start(funnel, tables, start.account)
  {
    hide Pick, Before, Appended, OfAccount, NoRepeat;
    var own := OfAccount(RowsOf(tables, funnel.seed), start.account);
    RowsAfter(tables, source, row, funnel.seed, start.account);
    PickAfter(own, row, 1);
    OwnRows(RowsOf(tables, funnel.seed), start.account);
    assert own + [] == own;
  }

  lemma {:induction false} OwnRows(rows: seq<Row>, account: string)
    ensures multiset(OfAccount(rows, account)) <= multiset(rows)
    ensures NoRepeat(rows) ==> NoRepeat(OfAccount(rows, account))
    ensures forall row <- OfAccount(rows, account) :: row in rows
    decreases |rows|
  {
    if rows != [] {
      assert rows == [rows[0]] + rows[1..];
      OwnRows(rows[1..], account);
    }
  }

  lemma {:induction false} NearRows(rows: seq<Row>, start: int, window: Window)
    ensures multiset(Near(rows, start, window)) <= multiset(rows)
    ensures NoRepeat(rows) ==> NoRepeat(Near(rows, start, window))
    ensures forall row <- Near(rows, start, window) :: row in rows
    decreases |rows|
  {
    if rows != [] {
      hide Contains;
      assert rows == [rows[0]] + rows[1..];
      NearRows(rows[1..], start, window);
    }
  }

  lemma CandidateRows(funnel: Definition, tables: Tables, step: nat, account: string)
    requires step <= |funnel.stages|
    ensures NoRepeat(RowsOf(tables, SourceOf(funnel, step))) ==> NoRepeat(Candidates(funnel, tables, step, account))
    ensures forall row <- Candidates(funnel, tables, step, account) :: row in RowsOf(tables, SourceOf(funnel, step))
  {
    hide Near, OfAccount, Start;
    var rows := RowsOf(tables, SourceOf(funnel, step));
    OwnRows(rows, account);
    if step > 0 && Start(funnel, tables, account).Some? {
      NearRows(OfAccount(rows, account), Start(funnel, tables, account).value.time, funnel.stages[step - 1].window);
    }
  }

  /** A record whose account keeps its start stays exactly if it is not displaced. */
  lemma RecordAfter(funnel: Definition, tables: Tables, table: StepTable, source: Source, row: Row, start: StepKey,
                    key: StepKey)
    requires key in table && Recorded(funnel, tables, table, key)
    requires start in table && start.step == 0 && start.account == key.account
    requires forall other <- table :: other.account == key.account && other.step == 0 ==> other == start
    requires Start(funnel, tables, key.account) == Some(RowAt(start, table[start]))
    requires Start(funnel, Appended(tables, source, row), key.account) == Start(funnel, tables, key.account)
    ensures !DisplacesKey(funnel, table, source, row, key) ==>
              Recorded(funnel, Appended(tables, source, row), table, key)
    ensures NoRepeat(RowsOf(tables, source)) && row !in RowsOf(tables, source)
            && DisplacesKey(funnel, table, source, row, key) ==>
              !Recorded(funnel, Appended(tables, source, row), table, key)
  {
    hide Pick, Before, Appended, Start, Candidates, NoRepeat, Contains;
    var before := Candidates(funnel, tables, key.step, key.account);
    CandidatesAfter(funnel, tables, source, row, key.step, key.account);
    PickAfter(before, row, RankOf(funnel, key.step));
    CandidateRows(funnel, tables, key.step, key.account);
    assert before + [] == before;
  }

  /** A new row leaves a sound table sound unless it displaces a record; if rows are distinct, only then. */
  lemma SoundAfter(funnel: Definition, tables: Tables, table: StepTable, source: Source, row: Row)
    requires Sound(funnel, tables, table) && Rooted(table)
    ensures !Displaces(funnel, table, source, row) ==> Sound(funnel, Appended(tables, source, row), table)
    ensures NoRepeat(RowsOf(tables, source)) && row !in RowsOf(tables, source) ==>
              (Sound(funnel, Appended(tables, source, row), table) <==> !Displaces(funnel, table, source, row))
  {
    var later := Appended(tables, source, row);
    SoundIsRecorded(funnel, tables, table);
    SoundIsRecorded(funnel, later, table);
    if !Displaces(funnel, table, source, row) {
      forall key <- table ensures Recorded(funnel, later, table, key) {
        RecordKept(funnel, tables, table, source, row, key);
      }
    } else if NoRepeat(RowsOf(tables, source)) && row !in RowsOf(tables, source) {
      var key :| key in table && DisplacesKey(funnel, table, source, row, key);
      var lost := RecordLost(funnel, tables, table, source, row, key);
    }
  }

  lemma RecordKept(funnel: Definition, tables: Tables, table: StepTable, source: Source, row: Row, key: StepKey)
    requires Sound(funnel, tables, table) && Rooted(table) && key in table
    requires !Displaces(funnel, table, source, row)
    ensures Recorded(funnel, Appended(tables, source, row), table, key)
  {
    SoundIsRecorded(funnel, tables, table);
    hide Sound, Rooted, DisplacesKey, Recorded, Start, Appended;
    var start := RecordedStart(funnel, tables, table, key.account);
    StartAfter(funnel, tables, table, source, row, start);
    RecordAfter(funnel, tables, table, source, row, start, key);
  }

  lemma RecordLost(funnel: Definition, tables: Tables, table: StepTable, source: Source, row: Row, key: StepKey)
    returns (lost: StepKey)
    requires Sound(funnel, tables, table) && Rooted(table)
    requires key in table && DisplacesKey(funnel, table, source, row, key)
    requires NoRepeat(RowsOf(tables, source)) && row !in RowsOf(tables, source)
    ensures lost in table && !Recorded(funnel, Appended(tables, source, row), table, lost)
  {
    SoundIsRecorded(funnel, tables, table);
    hide Sound, Rooted, Start, Appended, NoRepeat;
    var start := RecordedStart(funnel, tables, table, key.account);
    StartAfter(funnel, tables, table, source, row, start);
    if DisplacesKey(funnel, table, source, row, start) {
      lost := start;
      StartIsChosen(funnel, Appended(tables, source, row), start.account);
      StartIsChosen(funnel, tables, start.account);
    } else {
      lost := key;
      hide DisplacesKey, Recorded;
      RecordAfter(funnel, tables, table, source, row, start, key);
    }
  }

  lemma StartIsChosen(funnel: Definition, tables: Tables, account: string)
    ensures Chosen(funnel, tables, 0, account) == Start(funnel, tables, account)
  {
  }

  // ---- Incremental and batch

  /** Running the job now leaves what one run on an empty table would. */
  predicate IsBatch(funnel: Definition, state: State) {
    Compute(funnel, state.tables, state.table) == Compute(funnel, state.tables, map[])
  }

  lemma {:induction false} StagesKeepAll(stages: seq<Stage>, step: nat, tables: Tables, table: StepTable)
    ensures forall key <- table ::
              key in RunStages(stages, step, tables, table) && RunStages(stages, step, tables, table)[key] == table[key]
    decreases |stages|
  {
    if stages != [] {
      hide Selected, Joined, StepRows;
      var stage := stages[0];
      var selected := Selected(Joined(RowsOf(tables, stage.source), table, stage.window), stage.rank);
      StagesKeepAll(stages[1..], step + 1, tables, InsertStep(table, step, selected));
    }
  }

  /** It does exactly if the table has nothing but expected rows, in whatever order rows came. */
  lemma BatchIffSound(funnel: Definition, state: State)
    ensures IsBatch(funnel, state) <==> Sound(funnel, state.tables, state.table)
  {
    var tables, table := state.tables, state.table;
    ComputeIsExact(funnel, tables, map[]);
    if Sound(funnel, tables, table) {
      ComputeIsExact(funnel, tables, table);
      hide Exact;
      ExactIsUnique(funnel, tables, Compute(funnel, tables, table), Compute(funnel, tables, map[]));
    }
    if IsBatch(funnel, state) {
      hide Selected, RunStages, Ideal;
      StagesKeepAll(funnel.stages, 1, tables, InsertStep(table, 0, Selected(RowsOf(tables, funnel.seed), 1)));
      var batch := Compute(funnel, tables, map[]);
      forall key <- table
        ensures Expected(funnel, tables, key) && table[key] == Ideal(funnel, tables, key.step)[key.account].sequence
      {
        assert key in batch && batch[key] == table[key];
        assert Expected(funnel, tables, key);
      }
    }
  }

  ghost predicate BatchThroughout(funnel: Definition, state: State, ops: seq<Op>)
    decreases |ops|
  {
    && IsBatch(funnel, state)
    && (ops != [] ==> BatchThroughout(funnel, Perform(funnel, state, ops[0]), ops[1..]))
  }

  ghost predicate DisplacesNothing(funnel: Definition, state: State, op: Op) {
    op.Append? ==> !Displaces(funnel, state.table, op.source, op.row)
  }

  ghost predicate Undisplaced(funnel: Definition, state: State, ops: seq<Op>)
    decreases |ops|
  {
    ops == []
    || (DisplacesNothing(funnel, state, ops[0]) && Undisplaced(funnel, Perform(funnel, state, ops[0]), ops[1..]))
  }

  ghost predicate Kept(funnel: Definition, state: State) {
    Sound(funnel, state.tables, state.table) && Rooted(state.table)
  }

  lemma StepKeeps(funnel: Definition, state: State, op: Op)
    requires Kept(funnel, state) && DisplacesNothing(funnel, state, op)
    ensures Kept(funnel, Perform(funnel, state, op))
  {
    hide Sound, Compute, Rooted, Displaces;
    match op
    case Append(source, row) => SoundAfter(funnel, state.tables, state.table, source, row);
    case Job =>
      ComputeIsExact(funnel, state.tables, state.table);
      ExactIsRooted(funnel, state.tables, Compute(funnel, state.tables, state.table));
  }

  lemma {:induction false} RunKeeps(funnel: Definition, state: State, ops: seq<Op>)
    requires Kept(funnel, state) && Undisplaced(funnel, state, ops)
    ensures Kept(funnel, Run(funnel, state, ops)) && BatchThroughout(funnel, state, ops)
    decreases |ops|
  {
    BatchIffSound(funnel, state);
    if ops != [] {
      StepKeeps(funnel, state, ops[0]);
      hide Kept, Perform, DisplacesNothing;
      RunKeeps(funnel, Perform(funnel, state, ops[0]), ops[1..]);
    }
  }

  /** Rows are distinct, as their numbers are. */
  predicate FreshOp(state: State, op: Op) {
    op.Append? ==> op.row !in RowsOf(state.tables, op.source)
  }

  predicate FreshOps(funnel: Definition, state: State, ops: seq<Op>)
    decreases |ops|
  {
    ops == [] || (FreshOp(state, ops[0]) && FreshOps(funnel, Perform(funnel, state, ops[0]), ops[1..]))
  }

  ghost predicate NoRepeats(tables: Tables) {
    forall source :: NoRepeat(RowsOf(tables, source))
  }

  lemma FreshKeepsDistinct(funnel: Definition, state: State, op: Op)
    requires NoRepeats(state.tables) && FreshOp(state, op)
    ensures NoRepeats(Perform(funnel, state, op).tables)
  {
    hide Compute;
    if op.Append? {
      forall source ensures NoRepeat(RowsOf(Perform(funnel, state, op).tables, source)) {
        assert NoRepeat(RowsOf(state.tables, source));
        var rows := RowsOf(state.tables, source);
        assert multiset(rows + [op.row]) == multiset(rows) + multiset{op.row};
      }
    }
  }

  lemma {:induction false} BatchNeedsUndisplaced(funnel: Definition, state: State, ops: seq<Op>)
    requires Kept(funnel, state) && NoRepeats(state.tables) && FreshOps(funnel, state, ops)
    requires BatchThroughout(funnel, state, ops)
    ensures Undisplaced(funnel, state, ops)
    decreases |ops|
  {
    if ops != [] {
      hide IsBatch, Sound, Rooted, Displaces, NoRepeat;
      var next := Perform(funnel, state, ops[0]);
      assert IsBatch(funnel, next);
      BatchIffSound(funnel, next);
      if ops[0].Append? {
        SoundAfter(funnel, state.tables, state.table, ops[0].source, ops[0].row);
      }
      StepKeeps(funnel, state, ops[0]);
      FreshKeepsDistinct(funnel, state, ops[0]);
      BatchNeedsUndisplaced(funnel, next, ops[1..]);
    }
  }

  lemma NothingYet(funnel: Definition)
    ensures Kept(funnel, EMPTY) && NoRepeats(EMPTY.tables)
  {
  }

  /** Over all runs with distinct rows: the job equals the batch at every moment exactly when no row that is
      appended displaces a recorded one. */
  lemma IncrementalIsBatchExactly(funnel: Definition, ops: seq<Op>)
    requires FreshOps(funnel, EMPTY, ops)
    ensures BatchThroughout(funnel, EMPTY, ops) <==> Undisplaced(funnel, EMPTY, ops)
  {
    hide Kept, BatchThroughout, Undisplaced, FreshOps, NoRepeats;
    NothingYet(funnel);
    if Undisplaced(funnel, EMPTY, ops) {
      RunKeeps(funnel, EMPTY, ops);
    }
    if BatchThroughout(funnel, EMPTY, ops) {
      BatchNeedsUndisplaced(funnel, EMPTY, ops);
    }
  }

  lemma OrderlyDisplacesNothing(funnel: Definition, state: State, op: Op)
    requires Kept(funnel, state) && OrderlyOp(state.tables, op)
    ensures DisplacesNothing(funnel, state, op)
  {
    if op.Append? {
      SoundIsRecorded(funnel, state.tables, state.table);
      hide Sound, Rooted, Before, Pick, Candidates;
      forall key <- state.table ensures !DisplacesKey(funnel, state.table, op.source, op.row, key) {
        assert Recorded(funnel, state.tables, state.table, key);
        PickIsIn(Candidates(funnel, state.tables, key.step, key.account), RankOf(funnel, key.step));
        CandidateRows(funnel, state.tables, key.step, key.account);
      }
    }
  }

  lemma {:induction false} OrderlyIsUndisplaced(funnel: Definition, state: State, ops: seq<Op>)
    requires Kept(funnel, state) && Orderly(funnel, state, ops)
    ensures Undisplaced(funnel, state, ops)
    decreases |ops|
  {
    if ops != [] {
      hide Kept, Perform, OrderlyOp, DisplacesNothing;
      OrderlyDisplacesNothing(funnel, state, ops[0]);
      StepKeeps(funnel, state, ops[0]);
      OrderlyIsUndisplaced(funnel, Perform(funnel, state, ops[0]), ops[1..]);
    }
  }

  /** In particular it does if the rows of every account come in order. */
  lemma IncrementalIsBatch(funnel: Definition, ops: seq<Op>)
    requires Orderly(funnel, EMPTY, ops)
    ensures IsBatch(funnel, Run(funnel, EMPTY, ops)) && BatchThroughout(funnel, EMPTY, ops)
  {
    hide Kept, Run, Orderly, IsBatch, BatchThroughout, Undisplaced;
    NothingYet(funnel);
    OrderlyIsUndisplaced(funnel, EMPTY, ops);
    RunKeeps(funnel, EMPTY, ops);
    BatchAtTheEnd(funnel, Run(funnel, EMPTY, ops));
  }

  lemma BatchAtTheEnd(funnel: Definition, state: State)
    requires Kept(funnel, state)
    ensures IsBatch(funnel, state)
  {
    BatchIffSound(funnel, state);
  }

  /** In every state of such a run an account has at most one row for a step. */
  lemma OneRowAStep(funnel: Definition, ops: seq<Op>, x: StepKey, y: StepKey)
    requires Undisplaced(funnel, EMPTY, ops)
    requires x in Run(funnel, EMPTY, ops).table && y in Run(funnel, EMPTY, ops).table
    ensures x.step <= |funnel.stages|
    ensures x.account == y.account && x.step == y.step ==> x == y
  {
    hide Run, Undisplaced, BatchThroughout, Ideal;
    var state := Run(funnel, EMPTY, ops);
    RunKeeps(funnel, EMPTY, ops);
    assert Expected(funnel, state.tables, x) && Expected(funnel, state.tables, y);
  }

  /** And a later step comes with a step 0 of the same account, inside the window after it. */
  lemma StepsInWindow(funnel: Definition, ops: seq<Op>, key: StepKey) returns (start: StepKey)
    requires Undisplaced(funnel, EMPTY, ops)
    requires key in Run(funnel, EMPTY, ops).table && 0 < key.step <= |funnel.stages|
    ensures start in Run(funnel, EMPTY, ops).table && start.account == key.account && start.step == 0
    ensures Contains(funnel.stages[key.step - 1].window, key.completedAt - start.completedAt)
  {
    hide Run, Undisplaced, BatchThroughout, Selected, InWindow, Contains;
    var state := Run(funnel, EMPTY, ops);
    RunKeeps(funnel, EMPTY, ops);
    start :| start in state.table && start.account == key.account && start.step == 0;
    assert Expected(funnel, state.tables, key) && Expected(funnel, state.tables, start);
    var stage := funnel.stages[key.step - 1];
    StartOfSelected(RowsOf(state.tables, stage.source), Ideal(funnel, state.tables, 0), stage, key.account);
  }

  /** A row that comes in behind the job leaves two rows of step 0 for its account. */
  lemma LateRowAddsAStep(early: Row, late: Row)
    requires late.account == early.account && late.time < early.time
    ensures var table := Run(ACTIVATION, EMPTY, [Append(Deposits, early), Job, Append(Deposits, late), Job]).table;
            StepKey(early.account, 0, early.time) in table && StepKey(early.account, 0, late.time) in table
  {
    hide RunStages, Selected;
    var ops := [Append(Deposits, early), Job, Append(Deposits, late), Job];
    assert ops[1..][1..][1..] == [Job] && [Job][1..] == [] && ops[1..][1..] == [Append(Deposits, late), Job];
    var once := Perform(ACTIVATION, Perform(ACTIVATION, EMPTY, ops[0]), Job);
    var twice := Perform(ACTIVATION, Perform(ACTIVATION, once, ops[2]), Job);
    assert Run(ACTIVATION, EMPTY, ops) == Run(ACTIVATION, once, [Append(Deposits, late), Job]);
    assert [Append(Deposits, late), Job][1..] == [Job];
    assert Run(ACTIVATION, once, [Append(Deposits, late), Job]) == twice;
    FirstOfOne(early);
    FirstOfTwo(early, late);
    assert once.tables.deposits == [early] && twice.tables.deposits == [early, late];
    StepRowsAdded(ACTIVATION, State(once.tables, map[]), early.account, early);
    StagesKeep(ACTIVATION.stages, 1, twice.tables,
               InsertStep(once.table, 0, Selected([early, late], 1)), StepKey(early.account, 0, early.time));
    StepRowsAdded(ACTIVATION, State(twice.tables, once.table), early.account, late);
  }

  lemma FirstOfOne(row: Row)
    ensures row.account in Selected([row], 1) && Selected([row], 1)[row.account] == row
  {
    assert [row][1..] == [] && [row][..0] == [];
    assert OfAccount([row], row.account) == [row];
    assert Sort([row]) == Place(Sort([]), row) == [row];
    assert row in [row];
  }

  lemma FirstOfTwo(early: Row, late: Row)
    requires late.account == early.account && late.time < early.time
    ensures early.account in Selected([early, late], 1) && Selected([early, late], 1)[early.account] == late
  {
    var rows := [early, late];
    assert rows[1..] == [late] && [late][1..] == [] && rows[..1] == [early] && [early][..0] == [];
    assert OfAccount([late], early.account) == [late];
    assert OfAccount(rows, early.account) == rows;
    assert Sort([early]) == Place(Sort([]), early) == [early];
    assert Place([early], late) == Place([], late) + [early] == [late, early];
    assert Sort(rows) == [late, early];
    assert early in rows;
  }

  lemma {:induction false} StagesKeep(stages: seq<Stage>, step: nat, tables: Tables, table: StepTable, key: StepKey)
    requires key in table
    ensures key in RunStages(stages, step, tables, table)
    decreases |stages|
  {
    if stages != [] {
      hide Selected, Joined;
      var stage := stages[0];
      var selected := Selected(Joined(RowsOf(tables, stage.source), table, stage.window), stage.rank);
      StagesKeep(stages[1..], step + 1, tables, InsertStep(table, step, selected), key);
    }
  }

  lemma StepRowsAdded(funnel: Definition, state: State, account: string, row: Row)
    requires account in Selected(RowsOf(state.tables, funnel.seed), 1)
    requires Selected(RowsOf(state.tables, funnel.seed), 1)[account] == row
    ensures StepKey(account, 0, row.time) in Compute(funnel, state.tables, state.table)
  {
    hide Selected;
    var selected := Selected(RowsOf(state.tables, funnel.seed), 1);
    assert StepKey(account, 0, row.time) in StepRows(0, selected);
    StagesKeep(funnel.stages, 1, state.tables, InsertStep(state.table, 0, selected), StepKey(account, 0, row.time));
  }

  // ---- What each job records, in seconds

  /** In the order of time and, at one time, of number. */
  predicate NotAfter(x: Row, y: Row) {
    x.time < y.time || (x.time == y.time && x.sequence <= y.sequence)
  }

  predicate Inside(account: string, low: int, high: int, row: Row) {
    row.account == account && low <= row.time <= high
  }

  /** The account's first row from `low` to `high`, both included. */
  ghost predicate Earliest(rows: seq<Row>, account: string, low: int, high: int, row: Row) {
    && row in rows && Inside(account, low, high, row)
    && forall other <- rows :: Inside(account, low, high, other) ==> NotAfter(row, other)
  }

  ghost predicate First(rows: seq<Row>, account: string, row: Row) {
    && row in rows && row.account == account
    && forall other <- rows :: other.account == account ==> NotAfter(row, other)
  }

  function Within(rows: seq<Row>, account: string, low: int, high: int): seq<Row> {
    if rows == [] then []
    else (if Inside(account, low, high, rows[0]) then [rows[0]] else []) + Within(rows[1..], account, low, high)
  }

  /** `row` ends five rows of the list, in order, before which no other row comes. */
  ghost predicate EndsFive(rows: seq<Row>, five: seq<Row>, row: Row) {
    && |five| == 5 && five[4] == row && multiset(five) <= multiset(rows)
    && (forall i :: 0 <= i < 5 ==> NotAfter(five[i], row))
    && (forall other :: multiset(five)[other] < multiset(rows)[other] ==> NotAfter(row, other))
  }

  /** The account's fifth row from `low` to `high`, both included. */
  ghost predicate Fifth(rows: seq<Row>, account: string, low: int, high: int, row: Row) {
    exists five :: EndsFive(Within(rows, account, low, high), five, row)
  }

  lemma {:induction false} OwnMembers(rows: seq<Row>, account: string, row: Row)
    ensures row in OfAccount(rows, account) <==> row in rows && row.account == account
    decreases |rows|
  {
    if rows != [] {
      OwnMembers(rows[1..], account, row);
      assert rows == [rows[0]] + rows[1..];
    }
  }

  lemma {:induction false} NearMembers(rows: seq<Row>, start: int, window: Window, row: Row)
    ensures row in Near(rows, start, window) <==> row in rows && Contains(window, row.time - start)
    decreases |rows|
  {
    if rows != [] {
      hide Contains;
      NearMembers(rows[1..], start, window, row);
      assert rows == [rows[0]] + rows[1..];
    }
  }

  lemma {:induction false} NearIsWithin(rows: seq<Row>, account: string, start: int, length: nat)
    ensures Near(OfAccount(rows, account), start, Window(false, length)) == Within(rows, account, start, start + length)
    decreases |rows|
  {
    if rows != [] {
      NearIsWithin(rows[1..], account, start, length);
      var own := if rows[0].account == account then [rows[0]] else [];
      NearAppend(own, OfAccount(rows[1..], account), start, Window(false, length));
      assert [rows[0]][1..] == [];
    }
  }

  predicate OneAccount(rows: seq<Row>, account: string) {
    forall row <- rows :: row.account == account
  }

  lemma PickFirst(rows: seq<Row>, account: string, row: Row)
    requires OneAccount(rows, account)
    ensures Pick(rows, 1) == Some(row) <==> row in rows && forall other <- rows :: NotAfter(row, other)
  {
    SortMeaning(rows);
    var sorted := Sort(rows);
    hide Sort;
    assert |sorted| == |rows| by {
      assert |multiset(sorted)| == |multiset(rows)|;
    }
    if rows != [] {
      forall other <- rows ensures NotAfter(sorted[0], other) {
        assert other in multiset(sorted);
        var i :| 0 <= i < |sorted| && sorted[i] == other;
        assert i > 0 ==> Before(sorted[0], sorted[i]);
      }
      assert sorted[0] in multiset(sorted);
      assert sorted[0] in rows;
    }
  }

  lemma MoreRows(x: multiset<Row>, y: multiset<Row>)
    requires x <= y
    ensures |x| <= |y| && (|x| == |y| ==> x == y)
  {
    assert y == x + (y - x);
  }

  lemma PickFifth(rows: seq<Row>, account: string, row: Row)
    requires OneAccount(rows, account)
    ensures Pick(rows, 5) == Some(row) <==> exists five :: EndsFive(rows, five, row)
  {
    SortMeaning(rows);
    if Pick(rows, 5) == Some(row) {
      var sorted := Sort(rows);
      hide Sort;
      SortedEndsFive(rows, sorted, row);
    }
    if five :| EndsFive(rows, five, row) {
      var sorted := Sort(rows);
      hide Sort;
      MoreRows(multiset(five), multiset(rows));
      assert |multiset(sorted)| == |multiset(rows)|;
      NotAfterFifth(rows, sorted, five, row);
      NotBeforeFifth(rows, sorted, five, row);
      assert sorted[4] in multiset(sorted) && row in multiset(five) && row in multiset(rows);
    }
  }

  lemma SortedEndsFive(rows: seq<Row>, sorted: seq<Row>, row: Row)
    requires InOrder(sorted) && multiset(sorted) == multiset(rows) && |sorted| >= 5 && sorted[4] == row
    ensures EndsFive(rows, sorted[..5], row)
  {
    var five, tail := sorted[..5], sorted[5..];
    assert sorted == five + tail;
    forall other | multiset(five)[other] < multiset(rows)[other] ensures NotAfter(row, other) {
      assert other in tail;
      var i :| 0 <= i < |tail| && tail[i] == other;
      assert Before(sorted[4], sorted[i + 5]);
    }
  }

  lemma NotAfterFifth(rows: seq<Row>, sorted: seq<Row>, five: seq<Row>, row: Row)
    requires InOrder(sorted) && multiset(sorted) == multiset(rows) && |sorted| >= 5 && EndsFive(rows, five, row)
    ensures NotAfter(row, sorted[4])
  {
    if !NotAfter(row, sorted[4]) {
      var front := sorted[..5];
      assert sorted == front + sorted[5..];
      forall other <- front ensures !NotAfter(row, other) {
        var i :| 0 <= i < 5 && front[i] == other;
        assert i < 4 ==> Before(sorted[i], sorted[4]);
      }
      forall other ensures multiset(front)[other] <= multiset(five)[other] {
        if other in front {
          assert multiset(five)[other] >= multiset(rows)[other];
        }
      }
      assert five[4] in multiset(five);
      MoreRows(multiset(front), multiset(five));
    }
  }

  lemma NotBeforeFifth(rows: seq<Row>, sorted: seq<Row>, five: seq<Row>, row: Row)
    requires InOrder(sorted) && multiset(sorted) == multiset(rows) && |sorted| >= 5 && EndsFive(rows, five, row)
    ensures NotAfter(sorted[4], row)
  {
    if !NotAfter(sorted[4], row) {
      var front, tail := sorted[..4], sorted[4..];
      assert sorted == front + tail;
      forall other <- tail ensures NotAfter(sorted[4], other) {
        var i :| 0 <= i < |tail| && tail[i] == other;
        assert i > 0 ==> Before(sorted[4], sorted[i + 4]);
      }
      forall other ensures multiset(five)[other] <= multiset(front)[other] {
        if other in five {
          var i :| 0 <= i < 5 && five[i] == other;
          assert NotAfter(five[i], row);
          assert other !in tail;
        }
      }
      MoreRows(multiset(five), multiset(front));
    }
  }

  /** What an exact table holds for an account and a step. */
  lemma RecordIff(funnel: Definition, tables: Tables, after: StepTable, key: StepKey, number: nat)
    requires Exact(funnel, tables, after) && key.step <= |funnel.stages|
    ensures (key in after && after[key] == number) <==>
            Chosen(funnel, tables, key.step, key.account) == Some(RowAt(key, number))
  {
    SoundIsRecorded(funnel, tables, after);
    ChosenIsIdeal(funnel, tables, key.step, key.account);
    hide Ideal, Chosen;
    if Chosen(funnel, tables, key.step, key.account) == Some(RowAt(key, number)) {
      assert Expected(funnel, tables, key);
    }
    if key in after {
      assert Recorded(funnel, tables, after, key);
    }
  }

  lemma StartIsFirst(funnel: Definition, tables: Tables, account: string, row: Row)
    ensures Start(funnel, tables, account) == Some(row) <==> First(RowsOf(tables, funnel.seed), account, row)
  {
    hide Pick;
    var rows := RowsOf(tables, funnel.seed);
    forall other ensures other in OfAccount(rows, account) <==> other in rows && other.account == account {
      OwnMembers(rows, account, other);
    }
    PickFirst(OfAccount(rows, account), account, row);
  }

  /** A step of rank 1 is the first row of its table in the window after the start. */
  lemma ChosenIsEarliest(funnel: Definition, tables: Tables, step: nat, account: string, row: Row)
    requires 0 < step <= |funnel.stages| && funnel.stages[step - 1].rank == 1
    ensures var stage := funnel.stages[step - 1];
            Chosen(funnel, tables, step, account) == Some(row) <==>
            exists start :: First(RowsOf(tables, funnel.seed), account, start)
                            && Earliest(RowsOf(tables, stage.source), account,
                                        start.time + (if stage.window.strict then 1 else 0),
                                        start.time + stage.window.length, row)
  {
    hide Pick, First;
    var stage, found := funnel.stages[step - 1], Start(funnel, tables, account);
    forall start ensures First(RowsOf(tables, funnel.seed), account, start) <==> found == Some(start) {
      StartIsFirst(funnel, tables, account, start);
    }
    if found.Some? {
      hide Start;
      var rows := RowsOf(tables, stage.source);
      var near := Near(OfAccount(rows, account), found.value.time, stage.window);
      forall other ensures other in near <==>
                             other in rows && Inside(account, found.value.time + (if stage.window.strict then 1 else 0),
                                                     found.value.time + stage.window.length, other) {
        OwnMembers(rows, account, other);
        NearMembers(OfAccount(rows, account), found.value.time, stage.window, other);
      }
      PickFirst(near, account, row);
    } else {
      PickOfNone(1);
    }
  }

  lemma PickOfNone(rank: nat)
    ensures Pick([], rank) == None
  {
  }

  /** A step of rank 5 in a window that includes the start is the fifth row of its table in it. */
  lemma ChosenIsFifth(funnel: Definition, tables: Tables, step: nat, account: string, row: Row)
    requires 0 < step <= |funnel.stages|
    requires funnel.stages[step - 1].rank == 5 && !funnel.stages[step - 1].window.strict
    ensures var stage := funnel.stages[step - 1];
            Chosen(funnel, tables, step, account) == Some(row) <==>
            exists start :: First(RowsOf(tables, funnel.seed), account, start)
                            && Fifth(RowsOf(tables, stage.source), account,
                                     start.time, start.time + stage.window.length, row)
  {
    hide Pick, First, EndsFive;
    var stage, found := funnel.stages[step - 1], Start(funnel, tables, account);
    forall start ensures First(RowsOf(tables, funnel.seed), account, start) <==> found == Some(start) {
      StartIsFirst(funnel, tables, account, start);
    }
    if found.Some? {
      hide Start;
      var rows := RowsOf(tables, stage.source);
      NearIsWithin(rows, account, found.value.time, stage.window.length);
      var near := Near(OfAccount(rows, account), found.value.time, stage.window);
      forall other <- near ensures other.account == account {
        OwnMembers(rows, account, other);
        NearMembers(OfAccount(rows, account), found.value.time, stage.window, other);
      }
      PickFifth(near, account, row);
    } else {
      PickOfNone(5);
    }
  }

  ghost predicate Records(table: StepTable, step: nat, row: Row) {
    var key := StepKey(row.account, step, row.time);
    key in table && table[key] == row.sequence
  }

  /** Onboarding: the first atom, and the first deposit from then on for 30 days. */
  lemma OnboardingRecords(tables: Tables, table: StepTable, row: Row)
    requires Sound(ONBOARDING, tables, table)
    ensures var after := Compute(ONBOARDING, tables, table);
            && (Records(after, 0, row) <==> First(tables.atoms, row.account, row))
            && (Records(after, 1, row) <==>
                  exists atom :: First(tables.atoms, row.account, atom)
                                 && Earliest(tables.deposits, row.account, atom.time, atom.time + 2_592_000, row))
            && forall key <- after :: key.step <= 1
  {
    hide Sound, Exact, Compute, Records, First, Earliest, Chosen;
    ComputeIsExact(ONBOARDING, tables, table);
    RecordsOfSeed(ONBOARDING, tables, Compute(ONBOARDING, tables, table), row);
    RecordsOfStage(ONBOARDING, tables, Compute(ONBOARDING, tables, table), 1, row);
    ChosenIsEarliest(ONBOARDING, tables, 1, row.account, row);
  }

  /** Activation: the first deposit, and the first one later than it, for 7 days. */
  lemma ActivationRecords(tables: Tables, table: StepTable, row: Row)
    requires Sound(ACTIVATION, tables, table)
    ensures var after := Compute(ACTIVATION, tables, table);
            && (Records(after, 0, row) <==> First(tables.deposits, row.account, row))
            && (Records(after, 1, row) <==>
                  exists first :: First(tables.deposits, row.account, first)
                                  && Earliest(tables.deposits, row.account, first.time + 1, first.time + 604_800, row))
            && forall key <- after :: key.step <= 1
  {
    hide Sound, Exact, Compute, Records, First, Earliest, Chosen;
    ComputeIsExact(ACTIVATION, tables, table);
    RecordsOfSeed(ACTIVATION, tables, Compute(ACTIVATION, tables, table), row);
    RecordsOfStage(ACTIVATION, tables, Compute(ACTIVATION, tables, table), 1, row);
    ChosenIsEarliest(ACTIVATION, tables, 1, row.account, row);
  }

  /** Creator: the first atom; the first triple later than it, for 90 days; and the fifth atom from the first on,
      for 90 days. */
  lemma CreatorRecords(tables: Tables, table: StepTable, row: Row)
    requires Sound(CREATOR, tables, table)
    ensures var after := Compute(CREATOR, tables, table);
            && (Records(after, 0, row) <==> First(tables.atoms, row.account, row))
            && (Records(after, 1, row) <==>
                  exists atom :: First(tables.atoms, row.account, atom)
                                 && Earliest(tables.triples, row.account, atom.time + 1, atom.time + 7_776_000, row))
            && (Records(after, 2, row) <==>
                  exists atom :: First(tables.atoms, row.account, atom)
                                 && Fifth(tables.atoms, row.account, atom.time, atom.time + 7_776_000, row))
            && forall key <- after :: key.step <= 2
  {
    hide Sound, Exact, Compute, Records, First, Earliest, Fifth, Chosen;
    ComputeIsExact(CREATOR, tables, table);
    RecordsOfSeed(CREATOR, tables, Compute(CREATOR, tables, table), row);
    RecordsOfStage(CREATOR, tables, Compute(CREATOR, tables, table), 1, row);
    RecordsOfStage(CREATOR, tables, Compute(CREATOR, tables, table), 2, row);
    ChosenIsEarliest(CREATOR, tables, 1, row.account, row);
    ChosenIsFifth(CREATOR, tables, 2, row.account, row);
  }

  lemma RecordsOfSeed(funnel: Definition, tables: Tables, after: StepTable, row: Row)
    requires Exact(funnel, tables, after)
    ensures Records(after, 0, row) <==> First(RowsOf(tables, funnel.seed), row.account, row)
    ensures forall key <- after :: key.step <= |funnel.stages|
  {
    hide Chosen, Ideal, First;
    RecordIff(funnel, tables, after, StepKey(row.account, 0, row.time), row.sequence);
    StartIsChosen(funnel, tables, row.account);
    StartIsFirst(funnel, tables, row.account, row);
  }

  lemma RecordsOfStage(funnel: Definition, tables: Tables, after: StepTable, step: nat, row: Row)
    requires Exact(funnel, tables, after) && step <= |funnel.stages|
    ensures Records(after, step, row) <==> Chosen(funnel, tables, step, row.account) == Some(row)
  {
    hide Chosen, Ideal;
    RecordIff(funnel, tables, after, StepKey(row.account, step, row.time), row.sequence);
  }

  // ---- The jobs

  class FunnelRepo {
    var tables: Tables
    var onboarding: StepTable
    var activation: StepTable
    var creator: StepTable

    constructor (tables: Tables)
      ensures this.tables == tables && onboarding == activation == creator == map[]
    {
      this.tables := tables;
      onboarding, activation, creator := map[], map[], map[];
    }

    method ComputeOnboardingFunnel()
      modifies this`onboarding
      ensures onboarding == Compute(ONBOARDING, tables, old(onboarding))
    {
      hide Selected, Joined;
      StagesOfOne(ONBOARDING.stages, tables, InsertStep(onboarding, 0, Selected(tables.atoms, 1)));
      onboarding := InsertStep(onboarding, 0, Selected(tables.atoms, 1));
      var joined := Joined(tables.deposits, onboarding, Window(false, 30 * DAY));
      onboarding := InsertStep(onboarding, 1, Selected(joined, 1));
    }

    method ComputeActivationFunnel()
      modifies this`activation
      ensures activation == Compute(ACTIVATION, tables, old(activation))
    {
      hide Selected, Joined;
      StagesOfOne(ACTIVATION.stages, tables, InsertStep(activation, 0, Selected(tables.deposits, 1)));
      activation := InsertStep(activation, 0, Selected(tables.deposits, 1));
      activation := InsertStep(activation, 1, Selected(Joined(tables.deposits, activation, Window(true, 7 * DAY)), 1));
    }

    method ComputeCreatorFunnel()
      modifies this`creator
      ensures creator == Compute(CREATOR, tables, old(creator))
    {
      hide Selected, Joined, InsertStep;
      ghost var seeded := InsertStep(creator, 0, Selected(tables.atoms, 1));
      creator := InsertStep(creator, 0, Selected(tables.atoms, 1));
      creator := InsertStep(creator, 1, Selected(Joined(tables.triples, creator, Window(true, 90 * DAY)), 1));
      StagesOfTwo(CREATOR.stages, tables, seeded);
      creator := InsertStep(creator, 2, Selected(Joined(tables.atoms, creator, Window(false, 90 * DAY)), 5));
    }
  }

  function AfterStage(stage: Stage, step: nat, tables: Tables, table: StepTable): StepTable {
    InsertStep(table, step, Selected(Joined(RowsOf(tables, stage.source), table, stage.window), stage.rank))
  }

  lemma StagesOfOne(stages: seq<Stage>, tables: Tables, table: StepTable)
    requires |stages| == 1
    ensures RunStages(stages, 1, tables, table) == AfterStage(stages[0], 1, tables, table)
  {
    hide Selected, Joined;
    assert stages[1..] == [];
  }

  lemma StagesOfTwo(stages: seq<Stage>, tables: Tables, table: StepTable)
    requires |stages| == 2
    ensures RunStages(stages, 1, tables, table)
         == AfterStage(stages[1], 2, tables, AfterStage(stages[0], 1, tables, table))
  {
    hide Selected, Joined, InsertStep;
    var rest, once := stages[1..], AfterStage(stages[0], 1, tables, table);
    assert rest[0] == stages[1] && rest[1..] == [];
    assert RunStages(rest, 2, tables, once) == RunStages([], 3, tables, AfterStage(stages[1], 2, tables, once));
  }
}
