/**
 * What the batch does to the table: which builder gets which values for every row and draft, in terms of
 * the pending changes alone.
 */
module MaterializedBatch {

  import opened Options
  import opened Ordering
  import opened RowIdentity
  import opened ChangeTracker
  import opened Materialize

  /** The primary-key values of a stored row, all of them readable. */
  ghost predicate KeyRead(p: Parsers, key: seq<KeyValue>, pk: seq<Value>) {
    |pk| == |key| && forall i | 0 <= i < |key| :: pk[i] == ValueOf(p, key[i]) && !pk[i].Undecodable?
  }

  /** Every pending edit of the row once, by increasing column, with the value it had and the one it gets. */
  ghost predicate IsEdits(t: Tracker, key: RowKey, edits: seq<Edit>) {
    && (forall i, j | 0 <= i < j < |edits| :: edits[i].col < edits[j].col)
    && (forall e: Edit :: e in edits <==>
          (key, e.col) in t.updates && t.updates[(key, e.col)] == CellEdit(e.prev, e.new_))
  }

  /** Every edited column of the row once, by increasing column, with the value it gets. */
  ghost predicate IsNewValues(t: Tracker, key: RowKey, values: seq<(nat, Value)>) {
    && (forall i, j | 0 <= i < j < |values| :: values[i].0 < values[j].0)
    && (forall i | 0 <= i < |values| ::
          (key, values[i].0) in t.updates && t.updates[(key, values[i].0)].new_ == values[i].1)
    && (forall col | (key, col) in t.updates :: exists i | 0 <= i < |values| :: values[i].0 == col)
  }

  /** The builder's answer as the batch passes it on. */
  ghost predicate PassedOn(r: Result<Statement, BuildError>, s: Result<Statement, Error>) {
    match r
    case Ok(statement) => s == Ok(statement)
    case Err(e) => s == Err(BuildSql(e))
  }

  /** What the driver's builder makes of an update. */
  ghost predicate UpdateBuilt(b: Builders, t: Tracker, key: seq<KeyValue>, pk: seq<Value>, edits: seq<Edit>,
                              values: seq<(nat, Value)>, s: Result<Statement, Error>) {
    && KeyRead(b.parsers, key, pk) && IsEdits(t, Persisted(key), edits) && IsNewValues(t, Persisted(key), values)
    && match b.driver
       case "mongodb" => PassedOn(b.mongoUpdate(edits, pk), s)
       case "postgres" => PassedOn(b.optimisticUpdate(edits, pk), s)
       case "mysql" => PassedOn(b.optimisticUpdate(edits, pk), s)
       case "mssql" => PassedOn(b.optimisticUpdate(edits, pk), s)
       case "sqlite" => PassedOn(b.optimisticUpdate(edits, pk), s)
       case _ => PassedOn(b.keyedUpdate(values, pk), s)
  }

  ghost predicate DeleteBuilt(b: Builders, t: Tracker, key: seq<KeyValue>, pk: seq<Value>,
                              s: Result<Statement, Error>)
    requires Persisted(key) in t.deletes
  {
    && KeyRead(b.parsers, key, pk)
    && match b.driver
       case "mongodb" => PassedOn(b.mongoDelete(t.deletes[Persisted(key)], pk), s)
       case _ => PassedOn(b.keyedDelete(pk), s)
  }

  predicate ReadableKey(key: seq<KeyValue>) { forall i | 0 <= i < |key| :: !key[i].KUndecodable? }

  ghost predicate UpdatesRow(b: Builders, t: Tracker, key: seq<KeyValue>, s: Result<Statement, Error>) {
    if !ReadableKey(key) then s == Err(UnreadableRowKey)
    else exists pk, edits, values :: UpdateBuilt(b, t, key, pk, edits, values, s)
  }

  ghost predicate DeletesRow(b: Builders, t: Tracker, key: seq<KeyValue>, s: Result<Statement, Error>)
    requires Persisted(key) in t.deletes
  {
    if !ReadableKey(key) then s == Err(UnreadableRowKey)
    else exists pk :: DeleteBuilt(b, t, key, pk, s)
  }

  ghost predicate InsertsDraft(b: Builders, draft: DraftRow, s: Result<Statement, Error>) {
    PassedOn(b.insert(draft.row.values, draft.touched), s)
  }

  /** The statement of one piece of work is the one that is meant. */
  ghost predicate Meant(b: Builders, t: Tracker, w: Work, s: Result<Statement, Error>)
    requires Possible(t, w)
  {
    match w
    case DeleteWork(key) => DeletesRow(b, t, key, s)
    case UpdateWork(key) => UpdatesRow(b, t, key, s)
    case InsertWork(i) => InsertsDraft(b, t.inserts[i], s)
  }

  lemma {:induction false} NewValuesListed(t: Tracker, key: RowKey)
    ensures IsNewValues(t, key, NewValues(EditsOf(t, key)))
  {
    EditsListed(t, key);
    hide EditsOf;
    var edits := EditsOf(t, key);
    forall i | 0 <= i < |edits|
      ensures (key, edits[i].col) in t.updates && t.updates[(key, edits[i].col)].new_ == edits[i].new_
    {
      assert edits[i] in edits;
    }
    forall col | (key, col) in t.updates ensures exists i | 0 <= i < |edits| :: NewValues(edits)[i].0 == col {
      var e := Edit(col, t.updates[(key, col)].prev, t.updates[(key, col)].new_);
      assert e in edits;
      var i :| 0 <= i < |edits| && edits[i] == e;
      assert NewValues(edits)[i].0 == col;
    }
  }

  lemma {:induction false} KeyReads(p: Parsers, key: seq<KeyValue>)
    ensures Unreadable(ValuesOf(p, key)) <==> !ReadableKey(key)
    ensures ReadableKey(key) ==> KeyRead(p, key, ValuesOf(p, key))
  {
    var pk := ValuesOf(p, key);
    if !ReadableKey(key) {
      var i :| 0 <= i < |key| && key[i].KUndecodable?;
      assert pk[i].Undecodable?;
    }
  }

  lemma {:induction false} UpdateMeans(b: Builders, t: Tracker, key: seq<KeyValue>)
    ensures UpdatesRow(b, t, key, StatementFor(b, t, UpdateWork(key)))
  {
    var pk, edits := ValuesOf(b.parsers, key), EditsOf(t, Persisted(key));
    KeyReads(b.parsers, key);
    EditsListed(t, Persisted(key));
    NewValuesListed(t, Persisted(key));
    hide EditsOf; hide KeyRead; hide IsNewValues; hide NewValues;
    if ReadableKey(key) {
      assert UpdateBuilt(b, t, key, pk, edits, NewValues(edits), StatementFor(b, t, UpdateWork(key)));
    }
  }

  lemma {:induction false} DeleteMeans(b: Builders, t: Tracker, key: seq<KeyValue>)
    requires Persisted(key) in t.deletes
    ensures DeletesRow(b, t, key, StatementFor(b, t, DeleteWork(key)))
  {
    var pk := ValuesOf(b.parsers, key);
    KeyReads(b.parsers, key);
    hide KeyRead;
    if ReadableKey(key) {
      assert DeleteBuilt(b, t, key, pk, StatementFor(b, t, DeleteWork(key)));
    }
  }

  lemma {:induction false} StatementMeant(b: Builders, t: Tracker, w: Work)
    requires Possible(t, w)
    ensures Meant(b, t, w, StatementFor(b, t, w))
  {
    match w {
      case DeleteWork(key) => DeleteMeans(b, t, key);
      case UpdateWork(key) => UpdateMeans(b, t, key);
      case InsertWork(_) =>
    }
  }

  /** What is wanted, said by the changes alone: marked rows, then edited unmarked ones, then the drafts in order. */
  ghost predicate IsWanted(t: Tracker, works: seq<Work>) {
    && (forall key :: DeleteWork(key) in works <==> Persisted(key) in t.deletes)
    && (forall key :: UpdateWork(key) in works <==>
          Persisted(key) !in t.deletes && exists col :: (Persisted(key), col) in t.updates)
    && (forall i: nat :: InsertWork(i) in works <==> i < |t.inserts|)
    && (forall i, j | 0 <= i < j < |works| :: Before(works[i], works[j]))
  }

  /** Deletes before updates before inserts; rows by increasing key, drafts by position. */
  predicate Before(a: Work, b: Work) {
    match (a, b)
    case (DeleteWork(x), DeleteWork(y)) => StoredLess(x, y)
    case (DeleteWork(_), _) => true
    case (UpdateWork(x), UpdateWork(y)) => StoredLess(x, y)
    case (UpdateWork(_), InsertWork(_)) => true
    case (InsertWork(i), InsertWork(j)) => i < j
    case _ => false
  }

  lemma {:induction false} WantedListed(t: Tracker)
    ensures IsWanted(t, Wanted(t))
  {
    KeysListed(t);
    hide StoredLess; hide DeletedKeys; hide UpdatedKeys;
    var d, u, n := DeletedKeys(t), UpdatedKeys(t), |t.inserts|;
    assert Wanted(t) == DeleteWorks(d) + UpdateWorks(u) + InsertWorks(n);
    forall key ensures DeleteWork(key) in Wanted(t) <==> Persisted(key) in t.deletes { NeverBoth(t, key); }
    forall key
      ensures UpdateWork(key) in Wanted(t) <==>
                Persisted(key) !in t.deletes && exists col :: (Persisted(key), col) in t.updates
    {
      NeverBoth(t, key);
    }
    forall i: nat ensures InsertWork(i) in Wanted(t) <==> i < n {
      if i < n { assert InsertWorks(n)[i] == InsertWork(i); }
    }
    OrderedWorks(d, u, n);
  }

  lemma {:induction false} OrderedWorks(d: seq<seq<KeyValue>>, u: seq<seq<KeyValue>>, n: nat)
    requires StrictlySorted(StoredLess, d) && StrictlySorted(StoredLess, u)
    ensures var works := DeleteWorks(d) + UpdateWorks(u) + InsertWorks(n);
      forall i, j | 0 <= i < j < |works| :: Before(works[i], works[j])
  {
    hide StoredLess;
  }

  /**
   * The batch: for each piece of work, in order, one source and one statement, and the statement is the
   * builder's for that row or draft. Without a batch, the error is that of the first work that fails.
   */
  lemma {:induction false} BatchMeans(b: Builders, t: Tracker)
    ensures AllPossible(t, Wanted(t)) && IsWanted(t, Wanted(t))
    ensures var works := Wanted(t);
      match All(b, t, works)
      case Ok(batch) =>
        && |batch.statements| == |batch.sources| == |works|
        && forall i | 0 <= i < |works| ::
             Meant(b, t, works[i], Ok(batch.statements[i])) && batch.sources[i] == SourceOf(t, works[i])
      case Err(e) =>
        exists i | 0 <= i < |works| :: FailsFirst(b, t, works, i, e) && Meant(b, t, works[i], Err(e))
  {
    WantedPossible(t);
    WantedListed(t);
    var works := Wanted(t);
    hide IsWanted; hide Wanted; hide Meant; hide StatementFor; hide SourceOf; hide All;
    AllAligned(b, t, works);
    forall i | 0 <= i < |works| ensures Meant(b, t, works[i], StatementFor(b, t, works[i])) {
      StatementMeant(b, t, works[i]);
    }
    if All(b, t, works).Err? {
      var i :| 0 <= i < |works| && FailsFirst(b, t, works, i, All(b, t, works).error);
      assert Meant(b, t, works[i], Err(All(b, t, works).error));
    }
  }
}
