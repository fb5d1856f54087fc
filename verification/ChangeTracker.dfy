/**
 * The pending changes of one table tab: edited cells, drafted rows, rows marked for deletion, and the
 * operation log behind undo and redo. The value type Tracker specifies what every method of the class
 * TabChangeTracker does to its fields.
 */
module ChangeTracker {

  import opened Options
  import opened RowIdentity

  const UNDO_LIMIT: nat := 50

  datatype Row = Row(id: nat, values: seq<Value>)
  datatype DraftRow = DraftRow(row: Row, touched: seq<bool>) {
    /** Replaces one cell and its flag; does nothing outside the row. */
    function Set(col: nat, value: Value, flag: bool): DraftRow {
      if col < |row.values| && col < |touched|
      then DraftRow(row.(values := row.values[col := value]), touched[col := flag])
      else this
    }
  }

  datatype CellEdit = CellEdit(prev: Value, new_: Value)
  type Cell = (RowKey, nat)

  datatype UndoOp =
    | EditOp(rowKey: RowKey, col: nat, prev: Value, new_: Value, base: Value)
    | InsertOp(draftId: nat, values: seq<Value>)
    | DeleteOp(rowKey: RowKey, originals: seq<Value>)

  datatype Tracker = Tracker(
    inserts: seq<DraftRow>,
    deletes: map<RowKey, seq<Value>>,
    updates: map<Cell, CellEdit>,
    undo: seq<UndoOp>,
    redo: seq<UndoOp>,
    nextDraftId: nat)

  const FRESH: Tracker := Tracker([], map[], map[], [], [], 0)

  // ---------- draft rows ----------

  function NewDraft(id: nat, values: seq<Value>): DraftRow {
    DraftRow(Row(id, values), seq(|values|, _ => false))
  }

  function Rows(drafts: seq<DraftRow>): (r: seq<Row>)
    ensures |r| == |drafts| && forall i | 0 <= i < |r| :: r[i] == drafts[i].row
  {
    seq(|drafts|, i requires 0 <= i < |drafts| => drafts[i].row)
  }

  /** The first row with the given id, or the number of rows. */
  function Find(rows: seq<Row>, id: nat): (r: nat)
    ensures r <= |rows|
    ensures r < |rows| ==> rows[r].id == id
    ensures forall j | 0 <= j < r :: rows[j].id != id
  {
    if rows == [] then 0
    else
      var r := Find(rows[..|rows| - 1], id);
      if r < |rows| - 1 || rows[r].id == id then r else |rows|
  }

  predicate HasDraft(rows: seq<Row>, id: nat) { Find(rows, id) < |rows| }

  function WithoutDraft(drafts: seq<DraftRow>, id: nat): seq<DraftRow> {
    if drafts == [] then []
    else
      var kept := WithoutDraft(drafts[..|drafts| - 1], id);
      var last := drafts[|drafts| - 1];
      if last.row.id == id then kept else kept + [last]
  }

  function SetDraft(drafts: seq<DraftRow>, id: nat, col: nat, value: Value, flag: bool): seq<DraftRow> {
    var i := Find(Rows(drafts), id);
    if i < |drafts| && col < |drafts[i].row.values| then drafts[i := drafts[i].Set(col, value, flag)] else drafts
  }

  // ---------- cell edits ----------

  /** Base of the cell and the value shown before a new edit of it. */
  function Before(updates: map<Cell, CellEdit>, cell: Cell, original: Value): CellEdit {
    if cell in updates then updates[cell] else CellEdit(original, original)
  }

  function PutEdit(updates: map<Cell, CellEdit>, cell: Cell, base: Value, value: Value): map<Cell, CellEdit> {
    if KeyOf(base) == KeyOf(value) then updates - {cell} else updates[cell := CellEdit(base, value)]
  }

  /** What undo and redo do to a persisted cell: an edit already there keeps its own base. */
  function SetPendingEdit(updates: map<Cell, CellEdit>, cell: Cell, untouched: Value, target: Value)
    : map<Cell, CellEdit>
  {
    PutEdit(updates, cell, Before(updates, cell, untouched).prev, target)
  }

  // ---------- history ----------

  function PushUndo(t: Tracker, op: UndoOp): Tracker {
    var kept := if |t.undo| == UNDO_LIMIT then t.undo[1..] else t.undo;
    t.(undo := kept + [op], redo := [])
  }

  function About(op: UndoOp): Option<nat> {
    match op
    case InsertOp(id, _) => Some(id)
    case EditOp(Draft(id), _, _, _, _) => Some(id)
    case DeleteOp(Draft(id), _) => Some(id)
    case _ => None
  }

  function WithoutOps(ops: seq<UndoOp>, id: nat): seq<UndoOp> {
    if ops == [] then []
    else
      var kept := WithoutOps(ops[..|ops| - 1], id);
      var last := ops[|ops| - 1];
      if About(last) == Some(id) then kept else kept + [last]
  }

  function WithoutUpdates(updates: map<Cell, CellEdit>, id: nat): map<Cell, CellEdit> {
    map cell | cell in updates && cell.0 != Draft(id) :: updates[cell]
  }

  // ---------- operations ----------

  function TrackCellEdit(t: Tracker, rowKey: RowKey, col: nat, original: Value, value: Value): Tracker {
    var before := Before(t.updates, (rowKey, col), original);
    PushUndo(t.(updates := PutEdit(t.updates, (rowKey, col), before.prev, value)),
             EditOp(rowKey, col, before.new_, value, before.prev))
  }

  function TrackInsert(t: Tracker, defaults: seq<Value>): Tracker {
    PushUndo(t.(inserts := t.inserts + [NewDraft(t.nextDraftId, defaults)], nextDraftId := t.nextDraftId + 1),
             InsertOp(t.nextDraftId, defaults))
  }

  function TrackDelete(t: Tracker, rowKey: RowKey, originals: seq<Value>): Tracker {
    PushUndo(t.(deletes := t.deletes[rowKey := originals]), DeleteOp(rowKey, originals))
  }

  function TrackDraftCellEdit(t: Tracker, id: nat, col: nat, value: Value): Tracker {
    var i := Find(Rows(t.inserts), id);
    if i < |t.inserts| && col < |t.inserts[i].row.values| then
      var prev := t.inserts[i].row.values[col];
      PushUndo(t.(inserts := SetDraft(t.inserts, id, col, value, true)), EditOp(Draft(id), col, prev, value, prev))
    else t
  }

  function DiscardDraft(t: Tracker, id: nat): Tracker {
    if !HasDraft(Rows(t.inserts), id) then t
    else
      t.(inserts := WithoutDraft(t.inserts, id),
         deletes := t.deletes - {Draft(id)},
         updates := WithoutUpdates(t.updates, id),
         undo := WithoutOps(t.undo, id),
         redo := WithoutOps(t.redo, id))
  }

  function Reverted(t: Tracker, op: UndoOp): Tracker {
    match op
    case EditOp(Draft(id), col, prev, _, _) => t.(inserts := SetDraft(t.inserts, id, col, prev, !prev.Null?))
    case EditOp(Persisted(_), col, prev, _, base) =>
      t.(updates := SetPendingEdit(t.updates, (op.rowKey, col), base, prev))
    case InsertOp(id, _) => t.(inserts := WithoutDraft(t.inserts, id))
    case DeleteOp(rowKey, _) => t.(deletes := t.deletes - {rowKey})
  }

  function Reapplied(t: Tracker, op: UndoOp): Tracker {
    match op
    case EditOp(Draft(id), col, _, value, _) => t.(inserts := SetDraft(t.inserts, id, col, value, true))
    case EditOp(Persisted(_), col, _, value, base) =>
      t.(updates := SetPendingEdit(t.updates, (op.rowKey, col), base, value))
    case InsertOp(id, values) => t.(inserts := t.inserts + [NewDraft(id, values)])
    case DeleteOp(rowKey, originals) => t.(deletes := t.deletes[rowKey := originals])
  }

  function Undo(t: Tracker): Tracker {
    if t.undo == [] then t
    else
      var op := t.undo[|t.undo| - 1];
      Reverted(t, op).(undo := t.undo[..|t.undo| - 1], redo := t.redo + [op])
  }

  function Redo(t: Tracker): Tracker {
    if t.redo == [] then t
    else
      var op := t.redo[|t.redo| - 1];
      Reapplied(t, op).(redo := t.redo[..|t.redo| - 1], undo := t.undo + [op])
  }

  function Clear(t: Tracker): Tracker { FRESH.(nextDraftId := t.nextDraftId) }

  // ---------- the class ----------

  /** Where the first draft with the id sits; one past the end when there is none. */
  method FindDraft(drafts: seq<DraftRow>, id: nat) returns (r: nat)
    ensures r == Find(Rows(drafts), id)
  {
    r := 0;
    while r < |drafts| && drafts[r].row.id != id
      invariant r <= |drafts|
      invariant forall j | 0 <= j < r :: drafts[j].row.id != id
    {
      r := r + 1;
    }
    assert forall j | 0 <= j < |drafts| :: Rows(drafts)[j].id == drafts[j].row.id;
  }

  method RetainDrafts(drafts: seq<DraftRow>, id: nat) returns (kept: seq<DraftRow>)
    ensures kept == WithoutDraft(drafts, id)
    ensures |kept| == |drafts| <==> !HasDraft(Rows(drafts), id)
  {
    kept := [];
    var found := false;
    for i := 0 to |drafts|
      invariant kept == WithoutDraft(drafts[..i], id)
      invariant if found then |kept| < i else |kept| == i
      invariant found <==> exists j | 0 <= j < i :: drafts[j].row.id == id
    {
      assert drafts[..i + 1][..i] == drafts[..i];
      if drafts[i].row.id != id { kept := kept + [drafts[i]]; } else { found := true; }
    }
    assert drafts[..|drafts|] == drafts;
    assert forall j | 0 <= j < |drafts| :: Rows(drafts)[j].id == drafts[j].row.id;
  }

  method RetainOps(ops: seq<UndoOp>, id: nat) returns (kept: seq<UndoOp>)
    ensures kept == WithoutOps(ops, id)
  {
    kept := [];
    for i := 0 to |ops|
      invariant kept == WithoutOps(ops[..i], id)
    {
      assert ops[..i + 1][..i] == ops[..i];
      if About(ops[i]) != Some(id) { kept := kept + [ops[i]]; }
    }
    assert ops[..|ops|] == ops;
  }

  method StorePending(updates: map<Cell, CellEdit>, cell: Cell, untouched: Value, target: Value)
    returns (edits: map<Cell, CellEdit>)
    ensures edits == SetPendingEdit(updates, cell, untouched, target)
  {
    hide KeyOf;
    var stored := untouched;
    if cell in updates { stored := updates[cell].prev; }
    if KeyOf(stored) != KeyOf(target) {
      edits := updates[cell := CellEdit(stored, target)];
    } else {
      edits := updates - {cell};
    }
  }

  class TabChangeTracker {
    var inserts: seq<DraftRow>
    var deletes: map<RowKey, seq<Value>>
    var updates: map<Cell, CellEdit>
    var undo: seq<UndoOp>
    var redo: seq<UndoOp>
    var nextDraftId: nat

    function Contents(): Tracker
      reads this
    {
      Tracker(inserts, deletes, updates, undo, redo, nextDraftId)
    }

    constructor ()
      ensures Contents() == FRESH
    {
      inserts, deletes, updates, undo, redo, nextDraftId := [], map[], map[], [], [], 0;
    }

    method PushUndoOp(op: UndoOp)
      modifies this`undo, this`redo
      ensures Contents() == PushUndo(old(Contents()), op)
    {
      if |undo| == UNDO_LIMIT { undo := undo[1..]; }
      undo := undo + [op];
      redo := [];
    }

    method CellEdited(rowKey: RowKey, col: nat, original: Value, value: Value)
      modifies this
      ensures Contents() == TrackCellEdit(old(Contents()), rowKey, col, original, value)
    {
      hide KeyOf;
      var cell := (rowKey, col);
      var base, shownBefore := original, original;
      if cell in updates { base, shownBefore := updates[cell].prev, updates[cell].new_; }
      if KeyOf(base) == KeyOf(value) {
        updates := updates - {cell};
      } else {
        updates := updates[cell := CellEdit(base, value)];
      }
      PushUndoOp(EditOp(rowKey, col, shownBefore, value, base));
    }

    method RowInserted(defaults: seq<Value>) returns (key: RowKey)
      modifies this
      ensures Contents() == TrackInsert(old(Contents()), defaults)
      ensures key == Draft(old(nextDraftId))
    {
      var id := nextDraftId;
      nextDraftId := nextDraftId + 1;
      inserts := inserts + [NewDraft(id, defaults)];
      PushUndoOp(InsertOp(id, defaults));
      key := Draft(id);
    }

    method RowDeleted(rowKey: RowKey, originals: seq<Value>)
      modifies this
      ensures Contents() == TrackDelete(old(Contents()), rowKey, originals)
    {
      deletes := deletes[rowKey := originals];
      PushUndoOp(DeleteOp(rowKey, originals));
    }

    method DraftDiscarded(id: nat) returns (found: bool)
      modifies this
      ensures Contents() == DiscardDraft(old(Contents()), id)
      ensures found == HasDraft(Rows(old(inserts)), id)
    {
      var kept := RetainDrafts(inserts, id);
      if |kept| == |inserts| { return false; }
      inserts := kept;
      updates := WithoutUpdates(updates, id);
      deletes := deletes - {Draft(id)};
      undo := RetainOps(undo, id);
      redo := RetainOps(redo, id);
      found := true;
    }

    method DraftCellEdited(id: nat, col: nat, value: Value) returns (done: bool)
      modifies this
      ensures Contents() == TrackDraftCellEdit(old(Contents()), id, col, value)
      ensures done == (var i := Find(Rows(old(inserts)), id); i < |old(inserts)| && col < |old(inserts)[i].row.values|)
    {
      var i := FindDraft(inserts, id);
      if i < |inserts| && col < |inserts[i].row.values| {
        var prev := inserts[i].row.values[col];
        inserts := inserts[i := inserts[i].Set(col, value, true)];
        PushUndoOp(EditOp(Draft(id), col, prev, value, prev));
        return true;
      }
      done := false;
    }

    method SetPending(rowKey: RowKey, col: nat, untouched: Value, target: Value)
      modifies this`updates
      ensures updates == SetPendingEdit(old(updates), (rowKey, col), untouched, target)
    {
      hide *;
      updates := StorePending(updates, (rowKey, col), untouched, target);
    }

    method SetDraftCell(id: nat, col: nat, value: Value, flag: bool)
      modifies this`inserts
      ensures inserts == SetDraft(old(inserts), id, col, value, flag)
    {
      var i := FindDraft(inserts, id);
      if i < |inserts| && col < |inserts[i].row.values| {
        inserts := inserts[i := inserts[i].Set(col, value, flag)];
      }
    }

    method UndoLast() returns (undone: Option<UndoOp>)
      modifies this
      ensures Contents() == Undo(old(Contents()))
      ensures undone == if old(undo) == [] then None else Some(old(undo)[|old(undo)| - 1])
    {
      if undo == [] { return None; }
      var op := undo[|undo| - 1];
      undo := undo[..|undo| - 1];
      match op {
        case EditOp(Draft(id), col, prev, _, _) => SetDraftCell(id, col, prev, !prev.Null?);
        case EditOp(Persisted(_), col, prev, _, base) => SetPending(op.rowKey, col, base, prev);
        case InsertOp(id, _) => inserts := RetainDrafts(inserts, id);
        case DeleteOp(rowKey, _) => deletes := deletes - {rowKey};
      }
      redo := redo + [op];
      undone := Some(op);
    }

    method RedoLast() returns (redone: Option<UndoOp>)
      modifies this
      ensures Contents() == Redo(old(Contents()))
      ensures redone == if old(redo) == [] then None else Some(old(redo)[|old(redo)| - 1])
    {
      if redo == [] { return None; }
      var op := redo[|redo| - 1];
      redo := redo[..|redo| - 1];
      match op {
        case EditOp(Draft(id), col, _, value, _) => SetDraftCell(id, col, value, true);
        case EditOp(Persisted(_), col, _, value, base) => SetPending(op.rowKey, col, base, value);
        case InsertOp(id, values) => inserts := inserts + [NewDraft(id, values)];
        case DeleteOp(rowKey, originals) => deletes := deletes[rowKey := originals];
      }
      undo := undo + [op];
      redone := Some(op);
    }

    method ClearAll()
      modifies this
      ensures Contents() == Clear(old(Contents()))
    {
      inserts, deletes, updates, undo, redo := [], map[], map[], [], [];
    }

    /** Drafts, deletions, and the edits of rows that are not themselves deleted. */
    method PendingCount() returns (n: nat)
      ensures n == |inserts| + |deletes| + |set cell | cell in updates && cell.0 !in deletes|
    {
      var live, rest := 0, updates.Keys;
      ghost var seen: set<Cell> := {};
      while rest != {}
        invariant rest !! seen && rest + seen == updates.Keys
        invariant live == |set cell | cell in seen && cell.0 !in deletes|
        decreases |rest|
      {
        var cell :| cell in rest;
        rest := rest - {cell};
        ghost var before := set c | c in seen && c.0 !in deletes;
        seen := seen + {cell};
        ghost var after := set c | c in seen && c.0 !in deletes;
        assert after == if cell.0 in deletes then before else before + {cell};
        if cell.0 !in deletes { live := live + 1; }
      }
      assert (set cell | cell in seen && cell.0 !in deletes) == set cell | cell in updates && cell.0 !in deletes;
      n := |inserts| + |deletes| + live;
    }
  }
}
