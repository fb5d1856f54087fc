/**
 * Turning the pending changes of a tab into one batch of statements. The changes live in hash maps, so
 * the loops below meet them in any order; the batch they build is a function of the changes alone.
 */
module Materialize {

  import opened Options
  import opened Ordering
  import opened RowIdentity
  import opened ChangeTracker

  type Statement(==)
  type BuildError

  datatype Error = UnreadableRowKey | BuildSql(error: BuildError)
  datatype Source = InsertSource(draftId: nat) | UpdateSource(rowKey: RowKey) | DeleteSource(rowKey: RowKey)
  datatype Batch = Batch(statements: seq<Statement>, sources: seq<Source>)
  datatype Edit = Edit(col: nat, prev: Value, new_: Value)

  /** The statement builders of the SQL layer, for one target table. */
  datatype Builders = Builders(
    parsers: Parsers,
    driver: string,
    mongoDelete: (seq<Value>, seq<Value>) -> Result<Statement, BuildError>,
    keyedDelete: seq<Value> -> Result<Statement, BuildError>,
    mongoUpdate: (seq<Edit>, seq<Value>) -> Result<Statement, BuildError>,
    optimisticUpdate: (seq<Edit>, seq<Value>) -> Result<Statement, BuildError>,
    keyedUpdate: (seq<(nat, Value)>, seq<Value>) -> Result<Statement, BuildError>,
    insert: (seq<Value>, seq<bool>) -> Result<Statement, BuildError>)

  // ---------- specification ----------

  /** One statement to build: a stored row to delete or update, or a draft by its position. */
  datatype Work = DeleteWork(key: seq<KeyValue>) | UpdateWork(key: seq<KeyValue>) | InsertWork(index: nat)

  predicate ColumnLess(a: nat, b: nat) { a < b }

  lemma {:induction false} ColumnStrictTotal()
    ensures StrictTotal(ColumnLess)
  {}

  ghost function UpdatedRows(t: Tracker): set<RowKey> {
    set cell | cell in t.updates && cell.0 !in t.deletes :: cell.0
  }

  ghost function EditedColumns(t: Tracker, key: RowKey): set<nat> {
    set cell | cell in t.updates && cell.0 == key :: cell.1
  }

  /** The edits of a row by increasing column. */
  ghost function EditsOf(t: Tracker, key: RowKey): seq<Edit> {
    ColumnStrictTotal();
    var columns := SortedListing(ColumnLess, EditedColumns(t, key));
    seq(|columns|, i requires 0 <= i < |columns| =>
      assert columns[i] in columns;
      var edit := t.updates[(key, columns[i])];
      Edit(columns[i], edit.prev, edit.new_))
  }

  /** The keys of rows that are in the table; drafts have no statement of their own here. */
  function StoredKeys(keys: seq<RowKey>): seq<seq<KeyValue>> {
    if keys == [] then []
    else
      var before := StoredKeys(keys[..|keys| - 1]);
      match keys[|keys| - 1]
      case Persisted(key) => before + [key]
      case Draft(_) => before
  }

  function DeleteWorks(keys: seq<seq<KeyValue>>): seq<Work> {
    seq(|keys|, i requires 0 <= i < |keys| => DeleteWork(keys[i]))
  }

  function UpdateWorks(keys: seq<seq<KeyValue>>): seq<Work> {
    seq(|keys|, i requires 0 <= i < |keys| => UpdateWork(keys[i]))
  }

  function InsertWorks(count: nat): seq<Work> {
    seq(count, i requires 0 <= i < count => InsertWork(i))
  }

  ghost function DeletedKeys(t: Tracker): seq<seq<KeyValue>> {
    RowStrictTotal();
    StoredKeys(SortedListing(RowLess, t.deletes.Keys))
  }

  ghost function UpdatedKeys(t: Tracker): seq<seq<KeyValue>> {
    RowStrictTotal();
    StoredKeys(SortedListing(RowLess, UpdatedRows(t)))
  }

  /** Deletes by key, then updates by key, then drafts in the order they were added. */
  ghost function Wanted(t: Tracker): seq<Work> {
    DeleteWorks(DeletedKeys(t)) + UpdateWorks(UpdatedKeys(t)) + InsertWorks(|t.inserts|)
  }

  function Built(r: Result<Statement, BuildError>): Result<Statement, Error> {
    match r
    case Ok(s) => Ok(s)
    case Err(e) => Err(BuildSql(e))
  }

  predicate Optimistic(driver: string) { driver in ["postgres", "mysql", "mssql", "sqlite"] }

  function NewValues(edits: seq<Edit>): seq<(nat, Value)> {
    seq(|edits|, i requires 0 <= i < |edits| => (edits[i].col, edits[i].new_))
  }

  function DeleteStatement(b: Builders, originals: seq<Value>, key: seq<KeyValue>): Result<Statement, Error> {
    var pk := ValuesOf(b.parsers, key);
    if Unreadable(pk) then Err(UnreadableRowKey)
    else Built(if b.driver == "mongodb" then b.mongoDelete(originals, pk) else b.keyedDelete(pk))
  }

  function UpdateStatement(b: Builders, edits: seq<Edit>, key: seq<KeyValue>): Result<Statement, Error> {
    var pk := ValuesOf(b.parsers, key);
    if Unreadable(pk) then Err(UnreadableRowKey)
    else Built(
      if b.driver == "mongodb" then b.mongoUpdate(edits, pk)
      else if Optimistic(b.driver) then b.optimisticUpdate(edits, pk)
      else b.keyedUpdate(NewValues(edits), pk))
  }

  predicate Possible(t: Tracker, w: Work) {
    match w
    case DeleteWork(key) => Persisted(key) in t.deletes
    case UpdateWork(_) => true
    case InsertWork(i) => i < |t.inserts|
  }

  ghost function StatementFor(b: Builders, t: Tracker, w: Work): Result<Statement, Error>
    requires Possible(t, w)
  {
    match w
    case DeleteWork(key) => DeleteStatement(b, t.deletes[Persisted(key)], key)
    case UpdateWork(key) => UpdateStatement(b, EditsOf(t, Persisted(key)), key)
    case InsertWork(i) => Built(b.insert(t.inserts[i].row.values, t.inserts[i].touched))
  }

  function SourceOf(t: Tracker, w: Work): Source
    requires Possible(t, w)
  {
    match w
    case DeleteWork(key) => DeleteSource(Persisted(key))
    case UpdateWork(key) => UpdateSource(Persisted(key))
    case InsertWork(i) => InsertSource(t.inserts[i].row.id)
  }

  ghost predicate AllPossible(t: Tracker, works: seq<Work>) { forall w | w in works :: Possible(t, w) }

  /** Every statement and its source, or the error of the first one that cannot be built. */
  ghost function All(b: Builders, t: Tracker, works: seq<Work>): Result<Batch, Error>
    requires AllPossible(t, works)
  {
    if works == [] then Ok(Batch([], []))
    else
      var last := works[|works| - 1];
      match All(b, t, works[..|works| - 1])
      case Err(e) => Err(e)
      case Ok(batch) =>
        match StatementFor(b, t, last)
        case Err(e) => Err(e)
        case Ok(s) => Ok(Batch(batch.statements + [s], batch.sources + [SourceOf(t, last)]))
  }

  predicate StoredLess(a: seq<KeyValue>, b: seq<KeyValue>) { RowLess(Persisted(a), Persisted(b)) }

  lemma {:induction false} StoredKeysAll(keys: seq<RowKey>)
    ensures forall key :: key in StoredKeys(keys) <==> Persisted(key) in keys
    ensures StrictlySorted(RowLess, keys) ==> StrictlySorted(StoredLess, StoredKeys(keys))
  {
    hide RowLess;
    if keys != [] {
      var n := |keys| - 1;
      StoredKeysAll(keys[..n]);
      assert keys == keys[..n] + [keys[n]];
      var before := StoredKeys(keys[..n]);
      if StrictlySorted(RowLess, keys) {
        assert StrictlySorted(RowLess, keys[..n]);
        forall i | 0 <= i < |before| ensures RowLess(Persisted(before[i]), keys[n]) {
          assert before[i] in before;
          var k :| 0 <= k < n && keys[k] == Persisted(before[i]);
        }
      }
    }
  }

  /**
   The stored rows to delete are the marked ones, those to update the edited ones not marked; both by
   increasing key.
   */
  lemma {:induction false} KeysListed(t: Tracker)
    ensures StrictlySorted(StoredLess, DeletedKeys(t)) && StrictlySorted(StoredLess, UpdatedKeys(t))
    ensures forall key :: key in DeletedKeys(t) <==> Persisted(key) in t.deletes
    ensures forall key :: key in UpdatedKeys(t) <==> Persisted(key) in UpdatedRows(t)
  {
    RowStrictTotal();
    hide RowLess;
    StoredKeysAll(SortedListing(RowLess, t.deletes.Keys));
    StoredKeysAll(SortedListing(RowLess, UpdatedRows(t)));
  }

  /** Everything wanted concerns a row or draft that is there. */
  lemma {:induction false} WantedPossible(t: Tracker)
    ensures AllPossible(t, Wanted(t))
  {
    DeletesPossible(t);
  }

  lemma {:induction false} DeletesPossible(t: Tracker)
    ensures AllPossible(t, DeleteWorks(DeletedKeys(t)))
  {
    KeysListed(t);
    forall i | 0 <= i < |DeletedKeys(t)| ensures Persisted(DeletedKeys(t)[i]) in t.deletes {
      assert DeletedKeys(t)[i] in DeletedKeys(t);
    }
  }

  lemma {:induction false} DeletedKeysSorted(t: Tracker, keys: seq<RowKey>)
    requires StrictTotal(RowLess) && keys == SortedListing(RowLess, t.deletes.Keys)
    ensures StoredKeys(keys) == DeletedKeys(t)
  {}

  // ---------- what the batch looks like ----------

  /** Ok exactly when every statement can be built; then sources and statements stand side by side. */
  lemma {:induction false} AllAligned(b: Builders, t: Tracker, works: seq<Work>)
    requires AllPossible(t, works)
    ensures All(b, t, works).Ok? <==> forall w | w in works :: StatementFor(b, t, w).Ok?
    ensures match All(b, t, works)
      case Ok(batch) =>
        && |batch.statements| == |batch.sources| == |works|
        && (forall i | 0 <= i < |works| ::
              StatementFor(b, t, works[i]) == Ok(batch.statements[i]) && batch.sources[i] == SourceOf(t, works[i]))
      case Err(e) => exists i | 0 <= i < |works| :: FailsFirst(b, t, works, i, e)
  {
    hide StatementFor; hide SourceOf; hide Possible;
    if works != [] {
      var n := |works| - 1;
      AllAligned(b, t, works[..n]);
      assert works == works[..n] + [works[n]];
      match All(b, t, works[..n]) {
        case Err(e) =>
          var i :| 0 <= i < n && FailsFirst(b, t, works[..n], i, e);
          assert FailsFirst(b, t, works, i, e);
        case Ok(batch) =>
          match StatementFor(b, t, works[n]) {
            case Err(e) => assert FailsFirst(b, t, works, n, e);
            case Ok(_) =>
          }
      }
    }
  }

  ghost predicate FailsFirst(b: Builders, t: Tracker, works: seq<Work>, i: nat, e: Error)
    requires AllPossible(t, works)
  {
    && i < |works|
    && StatementFor(b, t, works[i]) == Err(e)
    && forall j | 0 <= j < i :: StatementFor(b, t, works[j]).Ok?
  }

  /** The edits of a row: every edited column once, by increasing column, with its base and new value. */
  lemma {:induction false} EditsListed(t: Tracker, key: RowKey)
    ensures forall i, j | 0 <= i < j < |EditsOf(t, key)| :: EditsOf(t, key)[i].col < EditsOf(t, key)[j].col
    ensures forall e: Edit :: e in EditsOf(t, key) <==>
              (key, e.col) in t.updates && t.updates[(key, e.col)] == CellEdit(e.prev, e.new_)
  {
    ColumnStrictTotal();
    var columns := SortedListing(ColumnLess, EditedColumns(t, key));
    forall i, j | 0 <= i < j < |columns| ensures columns[i] < columns[j] { assert ColumnLess(columns[i], columns[j]); }
    forall e: Edit | (key, e.col) in t.updates && t.updates[(key, e.col)] == CellEdit(e.prev, e.new_)
      ensures e in EditsOf(t, key)
    {
      assert (key, e.col).0 == key;
      assert e.col in columns;
      var i :| 0 <= i < |columns| && columns[i] == e.col;
      assert EditsOf(t, key)[i] == e;
    }
    forall i | 0 <= i < |columns| ensures (key, columns[i]) in t.updates { assert columns[i] in columns; }
  }

  /** A row is deleted when marked, updated when edited and not marked: never both. */
  lemma {:induction false} NeverBoth(t: Tracker, key: seq<KeyValue>)
    ensures DeleteWork(key) in Wanted(t) <==> Persisted(key) in t.deletes
    ensures UpdateWork(key) in Wanted(t) <==> Persisted(key) !in t.deletes && exists col ::
              (Persisted(key), col) in t.updates
  {
    KeysListed(t);
    var d, u := DeletedKeys(t), UpdatedKeys(t);
    assert Wanted(t) == DeleteWorks(d) + UpdateWorks(u) + InsertWorks(|t.inserts|);
    if key in d { var i :| 0 <= i < |d| && d[i] == key; assert DeleteWorks(d)[i] == DeleteWork(key); }
    if key in u { var i :| 0 <= i < |u| && u[i] == key; assert UpdateWorks(u)[i] == UpdateWork(key); }
    assert key in u <==> Persisted(key) in UpdatedRows(t);
    if exists col :: (Persisted(key), col) in t.updates {
      var col :| (Persisted(key), col) in t.updates;
      assert (Persisted(key), col).0 == Persisted(key);
    }
  }

  // ---------- the loops ----------

  lemma {:induction false} ErrorSticks(b: Builders, t: Tracker, done: seq<Work>, rest: seq<Work>)
    requires AllPossible(t, done + rest) && AllPossible(t, done) && All(b, t, done).Err?
    ensures All(b, t, done + rest) == All(b, t, done)
  {
    hide StatementFor; hide SourceOf; hide Possible;
    if rest == [] {
      assert done + rest == done;
    } else {
      var n := |rest| - 1;
      assert (done + rest)[..|done| + n] == done + rest[..n];
      ErrorSticks(b, t, done, rest[..n]);
    }
  }

  lemma {:induction false} OneMore(b: Builders, t: Tracker, done: seq<Work>, w: Work)
    requires AllPossible(t, done) && Possible(t, w)
    ensures AllPossible(t, done + [w])
    ensures All(b, t, done + [w]) ==
      match All(b, t, done)
      case Err(e) => Err(e)
      case Ok(batch) =>
        match StatementFor(b, t, w)
        case Err(e) => Err(e)
        case Ok(s) => Ok(Batch(batch.statements + [s], batch.sources + [SourceOf(t, w)]))
  {
    hide StatementFor; hide SourceOf; hide Possible;
    assert (done + [w])[..|done|] == done;
  }

  /** The first work that cannot be done decides the whole batch. */
  lemma {:induction false} ErrorAt(b: Builders, t: Tracker, done: seq<Work>, w: Work, works: seq<Work>)
    requires AllPossible(t, works) && done + [w] <= works && AllPossible(t, done) && Possible(t, w)
    requires All(b, t, done).Ok? && StatementFor(b, t, w).Err?
    ensures All(b, t, works) == Err(StatementFor(b, t, w).error)
  {
    hide All; hide StatementFor; hide SourceOf; hide Possible;
    OneMore(b, t, done, w);
    assert works == (done + [w]) + works[|done| + 1..];
    ErrorSticks(b, t, done + [w], works[|done| + 1..]);
  }

  method SortedRows<V>(m: map<RowKey, V>) returns (keys: seq<RowKey>)
    ensures StrictTotal(RowLess) && keys == SortedListing(RowLess, m.Keys)
  {
    hide RowLess;
    RowStrictTotal();
    var some := SomeOrder(m);
    SortListsOnce(RowLess, some, m.Keys);
    keys := Sort(RowLess, some);
  }

  /** The row's edits, each column once, in some order. */
  ghost predicate Gathered(edits: seq<Edit>, t: Tracker, key: RowKey, seen: set<Cell>) {
    && (forall i, j | 0 <= i < j < |edits| :: edits[i].col != edits[j].col)
    && (forall e | e in edits ::
          (key, e.col) in seen * t.updates.Keys && t.updates[(key, e.col)] == CellEdit(e.prev, e.new_))
    && (forall col | (key, col) in seen :: exists i | 0 <= i < |edits| :: edits[i].col == col)
  }

  ghost predicate Touches(seen: set<Cell>, key: RowKey) { exists col :: (key, col) in seen }

  ghost predicate Grouped(perRow: map<RowKey, seq<Edit>>, t: Tracker, seen: set<Cell>) {
    && (forall key :: key in perRow <==> key !in t.deletes && Touches(seen, key))
    && (forall key | key in perRow :: Gathered(perRow[key], t, key, seen))
  }

  lemma {:induction false} GatherOne(edits: seq<Edit>, t: Tracker, key: RowKey, seen: set<Cell>, col: nat)
    requires Gathered(edits, t, key, seen) && (key, col) in t.updates && (key, col) !in seen
    ensures var edit := t.updates[(key, col)];
            Gathered(edits + [Edit(col, edit.prev, edit.new_)], t, key, seen + {(key, col)})
  {
    var edit := t.updates[(key, col)];
    var more := edits + [Edit(col, edit.prev, edit.new_)];
    forall i | 0 <= i < |edits| ensures edits[i].col != col { assert edits[i] in edits; }
    forall c | (key, c) in seen + {(key, col)} ensures exists i | 0 <= i < |more| :: more[i].col == c {
      if c == col {
        assert more[|edits|].col == c;
      } else {
        var i :| 0 <= i < |edits| && edits[i].col == c;
        assert more[i].col == c;
      }
    }
  }

  lemma {:induction false} GatherOther(edits: seq<Edit>, t: Tracker, key: RowKey, seen: set<Cell>, other: RowKey,
                                       col: nat)
    requires Gathered(edits, t, key, seen) && key != other
    ensures Gathered(edits, t, key, seen + {(other, col)})
  {}

  lemma {:induction false} GroupOne(perRow: map<RowKey, seq<Edit>>, t: Tracker, seen: set<Cell>, key: RowKey, col: nat)
    requires Grouped(perRow, t, seen) && (key, col) in t.updates && (key, col) !in seen
    ensures var edit := t.updates[(key, col)];
            var before := if key in perRow then perRow[key] else [];
            Grouped(if key in t.deletes then perRow else perRow[key := before + [Edit(col, edit.prev, edit.new_)]],
                    t, seen + {(key, col)})
  {
    hide Gathered; hide Touches;
    var edit := t.updates[(key, col)];
    var before := if key in perRow then perRow[key] else [];
    var more := seen + {(key, col)};
    forall other ensures Touches(more, other) <==> other == key || Touches(seen, other) {
      TouchesMore(seen, key, col, other);
    }
    if key !in t.deletes {
      if key !in perRow { NoneGathered(t, key, seen); }
      GatherOne(before, t, key, seen, col);
    }
    forall other | other in perRow && other != key ensures Gathered(perRow[other], t, other, more) {
      GatherOther(perRow[other], t, other, seen, key, col);
    }
  }

  lemma {:induction false} TouchesMore(seen: set<Cell>, key: RowKey, col: nat, other: RowKey)
    ensures Touches(seen + {(key, col)}, other) <==> other == key || Touches(seen, other)
  {
    var more := seen + {(key, col)};
    assert (key, col) in more;
    if Touches(seen, other) { var c :| (other, c) in seen; assert (other, c) in more; }
    if Touches(more, other) { var c :| (other, c) in more; assert other == key || (other, c) in seen; }
  }

  lemma {:induction false} NoneGathered(t: Tracker, key: RowKey, seen: set<Cell>)
    requires !Touches(seen, key)
    ensures Gathered([], t, key, seen)
  {}

  method GroupByRow(t: Tracker) returns (perRow: map<RowKey, seq<Edit>>)
    ensures Grouped(perRow, t, t.updates.Keys)
    ensures perRow.Keys == UpdatedRows(t)
  {
    hide Grouped;
    var cells := SomeOrder(t.updates);
    perRow := map[];
    ghost var seen: set<Cell> := {};
    NoneGrouped(t);
    for i := 0 to |cells|
      invariant seen == set j | 0 <= j < i :: cells[j]
      invariant Grouped(perRow, t, seen)
    {
      var (key, col) := cells[i];
      GroupOne(perRow, t, seen, key, col);
      if key !in t.deletes {
        var before := if key in perRow then perRow[key] else [];
        perRow := perRow[key := before + [Edit(col, t.updates[cells[i]].prev, t.updates[cells[i]].new_)]];
      }
      seen := seen + {cells[i]};
    }
    assert seen == set cell | cell in cells;
    AllGrouped(perRow, t);
  }

  lemma {:induction false} NoneGrouped(t: Tracker)
    ensures Grouped(map[], t, {})
  {}

  lemma {:induction false} AllGrouped(perRow: map<RowKey, seq<Edit>>, t: Tracker)
    requires Grouped(perRow, t, t.updates.Keys)
    ensures perRow.Keys == UpdatedRows(t)
  {
    forall key | key in UpdatedRows(t) ensures key in perRow {
      var cell :| cell in t.updates && cell.0 !in t.deletes && cell.0 == key;
      assert (key, cell.1) in t.updates.Keys;
    }
    forall key | key in perRow ensures key in UpdatedRows(t) {
      assert Touches(t.updates.Keys, key);
      var col :| (key, col) in t.updates.Keys;
      assert (key, col).0 == key;
    }
  }

  function ColumnOf(e: Edit): nat { e.col }

  predicate ByColumn(a: Edit, b: Edit) { ColumnLess(a.col, b.col) }

  /** Whatever order the edits were gathered in, sorting by column gives the row's edits. */
  lemma {:induction false} SortedEdits(edits: seq<Edit>, t: Tracker, key: RowKey)
    requires Gathered(edits, t, key, t.updates.Keys)
    ensures Sort(ByColumn, edits) == EditsOf(t, key)
  {
    ColumnStrictTotal();
    var given := Mapped(ColumnOf, edits);
    SortByKey(ByColumn, ColumnLess, ColumnOf, edits);
    assert Lists(given, EditedColumns(t, key)) by {
      forall c ensures c in given <==> c in EditedColumns(t, key) { ColumnGiven(edits, t, key, c); }
    }
    SortListsOnce(ColumnLess, given, EditedColumns(t, key));
    SortContents(ByColumn, edits);
    var sorted := Sort(ByColumn, edits);
    assert |sorted| == |Mapped(ColumnOf, sorted)|;
    forall i | 0 <= i < |sorted| ensures sorted[i] == EditsOf(t, key)[i] {
      assert sorted[i] in multiset(sorted);
      assert Mapped(ColumnOf, sorted)[i] == sorted[i].col;
    }
  }

  lemma {:induction false} ColumnGiven(edits: seq<Edit>, t: Tracker, key: RowKey, c: nat)
    requires Gathered(edits, t, key, t.updates.Keys)
    ensures c in Mapped(ColumnOf, edits) <==> c in EditedColumns(t, key)
  {
    var given := Mapped(ColumnOf, edits);
    if c in given {
      var i :| 0 <= i < |given| && given[i] == c;
      assert edits[i] in edits;
      assert (key, c).1 == c;
    }
    if c in EditedColumns(t, key) {
      var cell :| cell in t.updates && cell.0 == key && cell.1 == c;
      assert cell == (key, c);
      var i :| 0 <= i < |edits| && edits[i].col == c;
      assert given[i] == c;
    }
  }

  lemma {:induction false} StoredPrefix(keys: seq<RowKey>, i: nat)
    requires i <= |keys|
    ensures StoredKeys(keys[..i]) <= StoredKeys(keys)
  {
    if i == |keys| {
      assert keys[..i] == keys;
    } else {
      var n := |keys| - 1;
      StoredPrefix(keys[..n], i);
      assert keys[..n][..i] == keys[..i];
    }
  }

  lemma {:induction false} DeleteWorksStep(keys: seq<RowKey>, i: nat)
    requires i < |keys|
    ensures var done := DeleteWorks(StoredKeys(keys[..i]));
            var next := DeleteWorks(StoredKeys(keys[..i + 1]));
            next == (if keys[i].Persisted? then done + [DeleteWork(keys[i].key)] else done)
              && next <= DeleteWorks(StoredKeys(keys))
  {
    assert keys[..i + 1][..i] == keys[..i];
    StoredPrefix(keys, i + 1);
  }

  lemma {:induction false} UpdateWorksStep(keys: seq<RowKey>, i: nat)
    requires i < |keys|
    ensures var done := UpdateWorks(StoredKeys(keys[..i]));
            var next := UpdateWorks(StoredKeys(keys[..i + 1]));
            next == (if keys[i].Persisted? then done + [UpdateWork(keys[i].key)] else done)
              && next <= UpdateWorks(StoredKeys(keys))
  {
    assert keys[..i + 1][..i] == keys[..i];
    StoredPrefix(keys, i + 1);
  }

  method MaterializeDeletes(b: Builders, t: Tracker) returns (r: Result<Batch, Error>)
    ensures var works := DeleteWorks(DeletedKeys(t));
            AllPossible(t, works) && r == All(b, t, works)
  {
    hide All; hide RowLess; hide DeleteStatement; hide DeletedKeys; hide AllPossible; hide StoredKeys; hide DeleteWorks;
    var keys := SortedRows(t.deletes);
    var batch := Batch([], []);
    ghost var works := DeleteWorks(StoredKeys(keys));
    DeletedKeysSorted(t, keys);
    DeletesPossible(t);
    AllOfNone(b, t);
    NoWorks();
    assert keys[..0] == [];
    for i := 0 to |keys|
      invariant var done := DeleteWorks(StoredKeys(keys[..i])); AllPossible(t, done) && All(b, t, done) == Ok(batch)
    {
      ghost var done := DeleteWorks(StoredKeys(keys[..i]));
      DeleteWorksStep(keys, i);
      if keys[i].Persisted? {
        var key := keys[i].key;
        assert keys[i] in keys;
        OneMore(b, t, done, DeleteWork(key));
        var built := DeleteStatement(b, t.deletes[keys[i]], key);
        if built.Err? {
          ErrorAt(b, t, done, DeleteWork(key), works);
          return Err(built.error);
        }
        batch := Batch(batch.statements + [built.value], batch.sources + [DeleteSource(keys[i])]);
      }
    }
    assert keys[..|keys|] == keys;
    r := Ok(batch);
  }

  lemma {:induction false} NoWorks()
    ensures DeleteWorks(StoredKeys([])) == UpdateWorks(StoredKeys([])) == []
  {}

  lemma {:induction false} AllOfNone(b: Builders, t: Tracker)
    ensures AllPossible(t, []) && All(b, t, []) == Ok(Batch([], []))
  {}

  /** Carries on from the batch of the statements already done. */
  method MaterializeUpdates(b: Builders, t: Tracker, changes: Batch, ghost before: seq<Work>)
    returns (r: Result<Batch, Error>)
    requires AllPossible(t, before) && All(b, t, before) == Ok(changes)
    ensures var works := before + UpdateWorks(UpdatedKeys(t));
            AllPossible(t, works) && r == All(b, t, works)
  {
    hide All; hide RowLess; hide UpdateStatement; hide EditsOf; hide Grouped; hide StoredKeys; hide UpdateWorks;
    hide AllPossible; hide UpdatedKeys; hide Sort; hide Gathered;
    var perRow := GroupByRow(t);
    var keys := SortedRows(perRow);
    var batch := changes;
    ghost var works := before + UpdateWorks(StoredKeys(keys));
    UpdatedKeysSorted(t, keys, perRow.Keys);
    UpdatesPossible(t, before, StoredKeys(keys));
    NoWorks();
    assert keys[..0] == [] && before + [] == before;
    for i := 0 to |keys|
      invariant var done := before + UpdateWorks(StoredKeys(keys[..i]));
                AllPossible(t, done) && All(b, t, done) == Ok(batch)
    {
      ghost var done := before + UpdateWorks(StoredKeys(keys[..i]));
      UpdateWorksStep(keys, i);
      assert keys[i] in keys;
      RowGathered(perRow, t, keys[i]);
      SortedEdits(perRow[keys[i]], t, keys[i]);
      var edits := Sort(ByColumn, perRow[keys[i]]);
      if keys[i].Persisted? {
        var key := keys[i].key;
        ghost var w := UpdateWork(key);
        assert before + UpdateWorks(StoredKeys(keys[..i + 1])) == done + [w];
        OneMore(b, t, done, w);
        var built := UpdateStatement(b, edits, key);
        if built.Err? {
          ErrorAt(b, t, done, w, works);
          return Err(built.error);
        }
        batch := Batch(batch.statements + [built.value], batch.sources + [UpdateSource(keys[i])]);
      }
    }
    assert keys[..|keys|] == keys;
    r := Ok(batch);
  }

  lemma {:induction false} UpdatedKeysSorted(t: Tracker, keys: seq<RowKey>, rows: set<RowKey>)
    requires StrictTotal(RowLess) && rows == UpdatedRows(t) && keys == SortedListing(RowLess, rows)
    ensures StoredKeys(keys) == UpdatedKeys(t)
  {}

  lemma {:induction false} UpdatesPossible(t: Tracker, before: seq<Work>, keys: seq<seq<KeyValue>>)
    requires AllPossible(t, before)
    ensures AllPossible(t, before + UpdateWorks(keys))
  {}

  lemma {:induction false} RowGathered(perRow: map<RowKey, seq<Edit>>, t: Tracker, key: RowKey)
    requires Grouped(perRow, t, t.updates.Keys) && key in perRow
    ensures Gathered(perRow[key], t, key, t.updates.Keys)
  {}

  method MaterializeInserts(b: Builders, t: Tracker, changes: Batch, ghost before: seq<Work>)
    returns (r: Result<Batch, Error>)
    requires AllPossible(t, before) && All(b, t, before) == Ok(changes)
    ensures var works := before + InsertWorks(|t.inserts|);
            AllPossible(t, works) && r == All(b, t, works)
  {
    hide All;
    var batch := changes;
    ghost var works := before + InsertWorks(|t.inserts|);
    assert AllPossible(t, works);
    assert before + InsertWorks(0) == before;
    for i := 0 to |t.inserts|
      invariant var done := before + InsertWorks(i); AllPossible(t, done) && All(b, t, done) == Ok(batch)
    {
      ghost var done := before + InsertWorks(i);
      assert before + InsertWorks(i + 1) == done + [InsertWork(i)];
      OneMore(b, t, done, InsertWork(i));
      var draft := t.inserts[i];
      var built := Built(b.insert(draft.row.values, draft.touched));
      if built.Err? {
        assert works == (done + [InsertWork(i)]) + works[|done| + 1..];
        ErrorSticks(b, t, done + [InsertWork(i)], works[|done| + 1..]);
        return Err(built.error);
      }
      batch := Batch(batch.statements + [built.value], batch.sources + [InsertSource(draft.row.id)]);
    }
    r := Ok(batch);
  }

  /** The whole batch: whatever order the maps were read in, exactly what is wanted, or the first error. */
  method MaterializeChanges(b: Builders, t: Tracker) returns (r: Result<Batch, Error>)
    ensures AllPossible(t, Wanted(t)) && r == All(b, t, Wanted(t))
  {
    hide All; hide Possible;
    WantedPossible(t);
    ghost var deleted := DeleteWorks(DeletedKeys(t));
    ghost var updated := UpdateWorks(UpdatedKeys(t));
    r := MaterializeDeletes(b, t);
    if r.Err? {
      assert Wanted(t) == deleted + (updated + InsertWorks(|t.inserts|));
      ErrorSticks(b, t, deleted, updated + InsertWorks(|t.inserts|));
      return;
    }
    r := MaterializeUpdates(b, t, r.value, deleted);
    if r.Err? {
      ErrorSticks(b, t, deleted + updated, InsertWorks(|t.inserts|));
      return;
    }
    r := MaterializeInserts(b, t, r.value, deleted + updated);
  }
}
