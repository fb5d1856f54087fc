/**
 * The operation log refines a history of snapshots: undo puts back exactly what was shown before the
 * operation, redo what undo took away, for every run without the two calls of which `DeleteUndone` and
 * `CellEditUndone` show that they cannot be taken back exactly. That the log stays within its limit and
 * that a discarded draft never returns holds for every run.
 */
module TrackerHistory {

  import opened Options
  import opened RowIdentity
  import opened ChangeTracker

  /** Everything a user sees pending; the flags of drafted cells are not part of it. */
  datatype View = View(rows: seq<Row>, deletes: map<RowKey, seq<Value>>, updates: map<Cell, CellEdit>)

  function Shown(t: Tracker): View { View(Rows(t.inserts), t.deletes, t.updates) }

  // ---------- the specification: snapshots ----------

  /** A snapshot and the draft row that the step next to it was about. */
  datatype Snapshot = Snapshot(view: View, about: Option<nat>)
  datatype History = History(past: seq<Snapshot>, present: View, future: seq<Snapshot>, next: nat)

  const EMPTY: View := View([], map[], map[])

  datatype Command =
    | EditCell(rowKey: RowKey, col: nat, original: Value, value: Value)
    | InsertRow(values: seq<Value>)
    | DeleteRow(rowKey: RowKey, originals: seq<Value>)
    | EditDraft(id: nat, col: nat, value: Value)
    | Discard(id: nat)
    | UndoOne
    | RedoOne
    | ClearAll

  function Record(h: History, view: View, about: Option<nat>): History {
    var kept := if |h.past| == UNDO_LIMIT then h.past[1..] else h.past;
    h.(past := kept + [Snapshot(h.present, about)], present := view, future := [])
  }

  function SetCell(rows: seq<Row>, id: nat, col: nat, value: Value): seq<Row> {
    var i := Find(rows, id);
    if i < |rows| && col < |rows[i].values| then rows[i := Row(id, rows[i].values[col := value])] else rows
  }

  function WithoutRow(rows: seq<Row>, id: nat): seq<Row> {
    if rows == [] then []
    else
      var kept := WithoutRow(rows[..|rows| - 1], id);
      var last := rows[|rows| - 1];
      if last.id == id then kept else kept + [last]
  }

  /** The view with no trace of a draft row. */
  function Erase(v: View, id: nat): View {
    View(WithoutRow(v.rows, id), v.deletes - {Draft(id)}, WithoutUpdates(v.updates, id))
  }

  function EraseAll(snapshots: seq<Snapshot>, id: nat): seq<Snapshot> {
    if snapshots == [] then []
    else
      var kept := EraseAll(snapshots[..|snapshots| - 1], id);
      var last := snapshots[|snapshots| - 1];
      if last.about == Some(id) then kept else kept + [Snapshot(Erase(last.view, id), last.about)]
  }

  function SnapshotStep(h: History, c: Command): History {
    var v := h.present;
    match c
    case EditCell(key, col, original, value) =>
      var base := Before(v.updates, (key, col), original).prev;
      Record(h, v.(updates := PutEdit(v.updates, (key, col), base, value)), if key.Draft? then Some(key.id) else None)
    case InsertRow(values) => Record(h, v.(rows := v.rows + [Row(h.next, values)]), Some(h.next)).(next := h.next + 1)
    case DeleteRow(key, originals) =>
      Record(h, v.(deletes := v.deletes[key := originals]), if key.Draft? then Some(key.id) else None)
    case EditDraft(id, col, value) =>
      var i := Find(v.rows, id);
      if i < |v.rows| && col < |v.rows[i].values|
      then Record(h, v.(rows := SetCell(v.rows, id, col, value)), Some(id))
      else h
    case Discard(id) =>
      if !HasDraft(v.rows, id) then h
      else h.(past := EraseAll(h.past, id), present := Erase(v, id), future := EraseAll(h.future, id))
    case UndoOne =>
      if h.past == [] then h
      else
        var last := h.past[|h.past| - 1];
        History(h.past[..|h.past| - 1], last.view, h.future + [Snapshot(v, last.about)], h.next)
    case RedoOne =>
      if h.future == [] then h
      else
        var last := h.future[|h.future| - 1];
        History(h.past + [Snapshot(v, last.about)], last.view, h.future[..|h.future| - 1], h.next)
    case ClearAll => History([], EMPTY, [], h.next)
  }

  function TrackerStep(t: Tracker, c: Command): Tracker {
    match c
    case EditCell(key, col, original, value) => TrackCellEdit(t, key, col, original, value)
    case InsertRow(values) => TrackInsert(t, values)
    case DeleteRow(key, originals) => TrackDelete(t, key, originals)
    case EditDraft(id, col, value) => TrackDraftCellEdit(t, id, col, value)
    case Discard(id) => DiscardDraft(t, id)
    case UndoOne => Undo(t)
    case RedoOne => Redo(t)
    case ClearAll => Clear(t)
  }

  /** Cell edits name stored rows, and a row marked for deletion is not marked again; other calls are free. */
  predicate Proper(t: Tracker, c: Command) {
    match c
    case EditCell(key, _, _, _) => key.Persisted?
    case DeleteRow(key, _) => key !in t.deletes
    case _ => true
  }

  // ---------- operations on views ----------

  function UndoView(v: View, op: UndoOp): View {
    match op
    case EditOp(Draft(id), col, prev, _, _) => v.(rows := SetCell(v.rows, id, col, prev))
    case EditOp(Persisted(_), col, prev, _, base) =>
      v.(updates := SetPendingEdit(v.updates, (op.rowKey, col), base, prev))
    case InsertOp(id, _) => v.(rows := WithoutRow(v.rows, id))
    case DeleteOp(rowKey, _) => v.(deletes := v.deletes - {rowKey})
  }

  function RedoView(v: View, op: UndoOp): View {
    match op
    case EditOp(Draft(id), col, _, value, _) => v.(rows := SetCell(v.rows, id, col, value))
    case EditOp(Persisted(_), col, _, value, base) =>
      v.(updates := SetPendingEdit(v.updates, (op.rowKey, col), base, value))
    case InsertOp(id, values) => v.(rows := v.rows + [Row(id, values)])
    case DeleteOp(rowKey, originals) => v.(deletes := v.deletes[rowKey := originals])
  }

  /** The operation leads from one view to the other and back. */
  predicate Links(v: View, op: UndoOp, w: View) { UndoView(w, op) == v && RedoView(v, op) == w }

  /** No edit restates its base, and every draft has an id already handed out. */
  predicate ViewOk(v: View, next: nat) {
    && (forall cell | cell in v.updates :: KeyOf(v.updates[cell].prev) != KeyOf(v.updates[cell].new_))
    && (forall i | 0 <= i < |v.rows| :: v.rows[i].id < next)
  }

  predicate Flagged(drafts: seq<DraftRow>) { forall d | d in drafts :: |d.touched| == |d.row.values| }

  predicate PastOk(past: seq<Snapshot>, ops: seq<UndoOp>, end: View, next: nat) {
    && |past| == |ops|
    && ViewOk(end, next)
    && (past != [] ==>
          var i := |past| - 1;
          && About(ops[i]) == past[i].about
          && Links(past[i].view, ops[i], end)
          && PastOk(past[..i], ops[..i], past[i].view, next))
  }

  predicate FutureOk(future: seq<Snapshot>, ops: seq<UndoOp>, start: View, next: nat) {
    && |future| == |ops|
    && ViewOk(start, next)
    && (future != [] ==>
          var i := |future| - 1;
          && About(ops[i]) == future[i].about
          && Links(start, ops[i], future[i].view)
          && FutureOk(future[..i], ops[..i], future[i].view, next))
  }

  predicate Refines(t: Tracker, h: History) {
    && Shown(t) == h.present
    && t.nextDraftId == h.next
    && Flagged(t.inserts)
    && PastOk(h.past, t.undo, h.present, h.next)
    && FutureOk(h.future, t.redo, h.present, h.next)
    && |t.undo| + |t.redo| <= UNDO_LIMIT
  }

  // ---------- drafts and their rows ----------

  lemma {:induction false} RowsWithout(drafts: seq<DraftRow>, id: nat)
    ensures Rows(WithoutDraft(drafts, id)) == WithoutRow(Rows(drafts), id)
    ensures Flagged(drafts) ==> Flagged(WithoutDraft(drafts, id))
  {
    if drafts != [] {
      var n := |drafts| - 1;
      RowsWithout(drafts[..n], id);
      assert Rows(drafts)[..n] == Rows(drafts[..n]);
    }
  }

  lemma {:induction false} RowsSet(drafts: seq<DraftRow>, id: nat, col: nat, value: Value, flag: bool)
    requires Flagged(drafts)
    ensures Rows(SetDraft(drafts, id, col, value, flag)) == SetCell(Rows(drafts), id, col, value)
    ensures Flagged(SetDraft(drafts, id, col, value, flag))
  {
    var i := Find(Rows(drafts), id);
    if i < |drafts| { assert drafts[i] in drafts; }
  }

  lemma {:induction false} ShownReverted(t: Tracker, op: UndoOp)
    requires Flagged(t.inserts)
    ensures Shown(Reverted(t, op)) == UndoView(Shown(t), op)
    ensures Flagged(Reverted(t, op).inserts)
  {
    hide SetDraft; hide SetCell; hide SetPendingEdit; hide WithoutDraft; hide WithoutRow; hide Flagged;
    match op {
      case EditOp(Draft(id), col, prev, _, _) => RowsSet(t.inserts, id, col, prev, !prev.Null?);
      case InsertOp(id, _) => RowsWithout(t.inserts, id);
      case _ =>
    }
  }

  lemma {:induction false} ShownReapplied(t: Tracker, op: UndoOp)
    requires Flagged(t.inserts)
    ensures Shown(Reapplied(t, op)) == RedoView(Shown(t), op)
    ensures Flagged(Reapplied(t, op).inserts)
  {
    hide SetDraft; hide SetCell; hide SetPendingEdit;
    match op {
      case EditOp(Draft(id), col, _, value, _) => RowsSet(t.inserts, id, col, value, true);
      case InsertOp(id, values) =>
        assert Rows(t.inserts + [NewDraft(id, values)]) == Rows(t.inserts) + [Row(id, values)];
      case _ =>
    }
  }

  // ---------- erasing a draft ----------

  lemma {:induction false} WithoutAbsent(rows: seq<Row>, id: nat)
    requires forall i | 0 <= i < |rows| :: rows[i].id != id
    ensures WithoutRow(rows, id) == rows
  {
    if rows != [] { WithoutAbsent(rows[..|rows| - 1], id); }
  }

  lemma {:induction false} WithoutKeeps(rows: seq<Row>, id: nat, next: nat)
    requires forall i | 0 <= i < |rows| :: rows[i].id < next
    ensures forall i | 0 <= i < |WithoutRow(rows, id)| :: WithoutRow(rows, id)[i].id < next
  {
    if rows != [] { WithoutKeeps(rows[..|rows| - 1], id, next); }
  }

  lemma {:induction false} EraseOk(v: View, id: nat, next: nat)
    requires ViewOk(v, next)
    ensures ViewOk(Erase(v, id), next)
  {
    hide KeyOf;
    WithoutKeeps(v.rows, id, next);
  }

  lemma {:induction false} WithoutCommutes(rows: seq<Row>, id: nat, other: nat)
    ensures WithoutRow(WithoutRow(rows, id), other) == WithoutRow(WithoutRow(rows, other), id)
  {
    if rows != [] { WithoutCommutes(rows[..|rows| - 1], id, other); }
  }

  /** Position of a draft, or one past the end, after another draft is gone; its cells are untouched. */
  lemma {:induction false} WithoutSetCell(rows: seq<Row>, id: nat, col: nat, value: Value, other: nat)
    ensures id == other ==> WithoutRow(SetCell(rows, id, col, value), other) == WithoutRow(rows, other)
    ensures id != other ==>
              WithoutRow(SetCell(rows, id, col, value), other) == SetCell(WithoutRow(rows, other), id, col, value)
  {
    if rows != [] {
      var n := |rows| - 1;
      var init := rows[..n];
      WithoutSetCell(init, id, col, value, other);
      FindWithout(init, id, other);
      SetCellLast(init, rows[n], id, col, value);
      assert rows == init + [rows[n]];
      if id != other {
        SetCellLast(WithoutRow(init, other), rows[n], id, col, value);
      }
    }
  }

  lemma {:induction false} FindWithout(rows: seq<Row>, id: nat, other: nat)
    ensures id != other ==> HasDraft(WithoutRow(rows, other), id) == HasDraft(rows, id)
  {
    if rows != [] { FindWithout(rows[..|rows| - 1], id, other); }
  }

  lemma {:induction false} SetCellLast(init: seq<Row>, last: Row, id: nat, col: nat, value: Value)
    ensures SetCell(init + [last], id, col, value)
         == if HasDraft(init, id) then SetCell(init, id, col, value) + [last]
            else if last.id == id && col < |last.values| then init + [Row(id, last.values[col := value])]
            else init + [last]
  {
    var rows := init + [last];
    assert rows[..|rows| - 1] == init;
  }

  lemma {:induction false} PutEditErased(updates: map<Cell, CellEdit>, cell: Cell, base: Value, value: Value, id: nat)
    requires cell.0 != Draft(id)
    ensures WithoutUpdates(PutEdit(updates, cell, base, value), id) ==
            PutEdit(WithoutUpdates(updates, id), cell, base, value)
  {
    hide KeyOf;
  }

  lemma {:induction false} PendingErased(updates: map<Cell, CellEdit>, cell: Cell, base: Value, value: Value, id: nat)
    requires cell.0 != Draft(id)
    ensures WithoutUpdates(SetPendingEdit(updates, cell, base, value), id)
         == SetPendingEdit(WithoutUpdates(updates, id), cell, base, value)
  {
    hide PutEdit;
    PutEditErased(updates, cell, Before(updates, cell, base).prev, value, id);
  }

  lemma {:induction false} EraseUndo(v: View, op: UndoOp, id: nat)
    ensures Erase(UndoView(v, op), id) == if About(op) == Some(id) then Erase(v, id) else UndoView(Erase(v, id), op)
  {
    hide SetCell; hide SetPendingEdit; hide WithoutUpdates; hide WithoutRow;
    match op {
      case EditOp(Draft(other), col, prev, _, _) => WithoutSetCell(v.rows, other, col, prev, id);
      case EditOp(Persisted(_), col, prev, _, base) => PendingErased(v.updates, (op.rowKey, col), base, prev, id);
      case InsertOp(other, _) => WithoutCommutes(v.rows, other, id); WithoutTwice(v.rows, id);
      case DeleteOp(key, _) =>
        assert v.deletes - {key} - {Draft(id)} == v.deletes - {Draft(id)} - {key};
    }
  }

  lemma {:induction false} WithoutTwice(rows: seq<Row>, id: nat)
    ensures WithoutRow(WithoutRow(rows, id), id) == WithoutRow(rows, id)
  {
    if rows != [] { WithoutTwice(rows[..|rows| - 1], id); }
  }

  lemma {:induction false} WithoutPush(rows: seq<Row>, last: Row, id: nat)
    ensures WithoutRow(rows + [last], id) ==
            if last.id == id then WithoutRow(rows, id) else WithoutRow(rows, id) + [last]
  {
    assert (rows + [last])[..|rows|] == rows;
  }

  lemma {:induction false} EraseRedo(v: View, op: UndoOp, id: nat)
    ensures Erase(RedoView(v, op), id) == if About(op) == Some(id) then Erase(v, id) else RedoView(Erase(v, id), op)
  {
    hide SetCell; hide SetPendingEdit; hide WithoutUpdates; hide WithoutRow;
    match op {
      case EditOp(Draft(other), col, _, value, _) => WithoutSetCell(v.rows, other, col, value, id);
      case EditOp(Persisted(_), col, _, value, base) => PendingErased(v.updates, (op.rowKey, col), base, value, id);
      case InsertOp(other, values) => WithoutPush(v.rows, Row(other, values), id);
      case DeleteOp(key, originals) =>
        if About(op) == Some(id) {
          assert v.deletes[key := originals] - {Draft(id)} == v.deletes - {Draft(id)};
        } else {
          assert v.deletes[key := originals] - {Draft(id)} == (v.deletes - {Draft(id)})[key := originals];
        }
    }
  }

  lemma {:induction false} LinksErased(v: View, op: UndoOp, w: View, id: nat)
    requires Links(v, op, w)
    ensures if About(op) == Some(id) then Erase(v, id) == Erase(w, id) else Links(Erase(v, id), op, Erase(w, id))
  {
    hide Erase; hide UndoView; hide RedoView;
    EraseUndo(w, op, id);
    EraseRedo(v, op, id);
  }

  // ---------- chains of snapshots ----------

  lemma {:induction false} PastTail(past: seq<Snapshot>, ops: seq<UndoOp>, end: View, next: nat)
    requires PastOk(past, ops, end, next) && past != []
    ensures PastOk(past[1..], ops[1..], end, next)
  {
    hide Links; hide ViewOk;
    var i := |past| - 1;
    if i > 0 {
      PastTail(past[..i], ops[..i], past[i].view, next);
      assert past[1..][..i - 1] == past[..i][1..] && ops[1..][..i - 1] == ops[..i][1..];
    }
  }

  lemma {:induction false} PastPush(past: seq<Snapshot>, ops: seq<UndoOp>, v: View, op: UndoOp, w: View, next: nat)
    requires PastOk(past, ops, v, next) && Links(v, op, w) && ViewOk(w, next)
    ensures PastOk(past + [Snapshot(v, About(op))], ops + [op], w, next)
  {
    hide Links; hide ViewOk;
    assert (past + [Snapshot(v, About(op))])[..|past|] == past && (ops + [op])[..|ops|] == ops;
  }

  lemma {:induction false} FuturePush(future: seq<Snapshot>, ops: seq<UndoOp>, v: View, op: UndoOp, w: View, next: nat)
    requires FutureOk(future, ops, w, next) && Links(v, op, w) && ViewOk(v, next)
    ensures FutureOk(future + [Snapshot(w, About(op))], ops + [op], v, next)
  {
    hide Links; hide ViewOk;
    assert (future + [Snapshot(w, About(op))])[..|future|] == future && (ops + [op])[..|ops|] == ops;
  }

  lemma {:induction false} PastLater(past: seq<Snapshot>, ops: seq<UndoOp>, end: View, next: nat)
    requires PastOk(past, ops, end, next)
    ensures PastOk(past, ops, end, next + 1)
  {
    hide Links;
    if past != [] { PastLater(past[..|past| - 1], ops[..|past| - 1], past[|past| - 1].view, next); }
  }

  lemma {:induction false} PastErased(past: seq<Snapshot>, ops: seq<UndoOp>, end: View, next: nat, id: nat)
    requires PastOk(past, ops, end, next)
    ensures PastOk(EraseAll(past, id), WithoutOps(ops, id), Erase(end, id), next)
    ensures |WithoutOps(ops, id)| <= |ops|
  {
    hide Links; hide ViewOk; hide Erase;
    EraseOk(end, id, next);
    if past != [] {
      var i := |past| - 1;
      PastErased(past[..i], ops[..i], past[i].view, next, id);
      LinksErased(past[i].view, ops[i], end, id);
      if About(ops[i]) != Some(id) {
        PastPush(EraseAll(past[..i], id), WithoutOps(ops[..i], id), Erase(past[i].view, id), ops[i], Erase(end, id),
                 next);
      }
    }
  }

  lemma {:induction false} FutureErased(future: seq<Snapshot>, ops: seq<UndoOp>, start: View, next: nat, id: nat)
    requires FutureOk(future, ops, start, next)
    ensures FutureOk(EraseAll(future, id), WithoutOps(ops, id), Erase(start, id), next)
    ensures |WithoutOps(ops, id)| <= |ops|
  {
    hide Links; hide ViewOk; hide Erase;
    EraseOk(start, id, next);
    if future != [] {
      var i := |future| - 1;
      FutureErased(future[..i], ops[..i], future[i].view, next, id);
      LinksErased(start, ops[i], future[i].view, id);
      if About(ops[i]) != Some(id) {
        FuturePush(EraseAll(future[..i], id), WithoutOps(ops[..i], id), Erase(start, id), ops[i],
                   Erase(future[i].view, id), next);
      }
    }
  }

  // ---------- each recorded change can be taken back ----------

  lemma {:induction false} EditLinks(v: View, next: nat, key: RowKey, col: nat, original: Value, value: Value)
    requires ViewOk(v, next) && key.Persisted?
    ensures var before := Before(v.updates, (key, col), original);
            var w := v.(updates := PutEdit(v.updates, (key, col), before.prev, value));
            Links(v, EditOp(key, col, before.new_, value, before.prev), w) && ViewOk(w, next)
  {
    hide KeyOf;
    var before := Before(v.updates, (key, col), original);
    var w := PutEdit(v.updates, (key, col), before.prev, value);
    assert SetPendingEdit(w, (key, col), before.prev, before.new_) == v.updates;
    assert SetPendingEdit(v.updates, (key, col), before.prev, value) == w;
  }

  lemma {:induction false} InsertLinks(v: View, next: nat, values: seq<Value>)
    requires ViewOk(v, next)
    ensures var w := v.(rows := v.rows + [Row(next, values)]);
            Links(v, InsertOp(next, values), w) && ViewOk(w, next + 1)
  {
    hide KeyOf; hide WithoutRow; hide SetCell; hide SetPendingEdit;
    WithoutPush(v.rows, Row(next, values), next);
    WithoutAbsent(v.rows, next);
  }

  lemma {:induction false} DeleteLinks(v: View, next: nat, key: RowKey, originals: seq<Value>)
    requires ViewOk(v, next) && key !in v.deletes
    ensures var w := v.(deletes := v.deletes[key := originals]);
            Links(v, DeleteOp(key, originals), w) && ViewOk(w, next)
  {
    hide KeyOf;
    assert v.deletes[key := originals] - {key} == v.deletes;
  }

  lemma {:induction false} DraftEditLinks(v: View, next: nat, id: nat, col: nat, value: Value)
    requires ViewOk(v, next)
    requires var i := Find(v.rows, id); i < |v.rows| && col < |v.rows[i].values|
    ensures var prev := v.rows[Find(v.rows, id)].values[col];
            var w := v.(rows := SetCell(v.rows, id, col, value));
            Links(v, EditOp(Draft(id), col, prev, value, prev), w) && ViewOk(w, next)
  {
    hide KeyOf; hide Find;
    var i := Find(v.rows, id);
    var values := v.rows[i].values;
    var w := SetCell(v.rows, id, col, value);
    assert w == v.rows[i := Row(id, values[col := value])];
    FindAt(w, id, i);
    assert values[col := value][col := values[col]] == values;
    assert v.rows[i] == Row(id, values);
    assert SetCell(w, id, col, values[col]) == w[i := Row(id, values)] == v.rows;
  }

  // ---------- one step ----------

  /** Recording one more operation, whatever it did to the view. */
  lemma {:induction false} RecordRefines(t: Tracker, h: History, u: Tracker, op: UndoOp)
    requires PastOk(h.past, t.undo, h.present, h.next) && |t.undo| + |t.redo| <= UNDO_LIMIT
    requires u.undo == t.undo && h.next <= u.nextDraftId <= h.next + 1
    requires Flagged(u.inserts) && Links(h.present, op, Shown(u)) && ViewOk(Shown(u), u.nextDraftId)
    ensures Refines(PushUndo(u, op), Record(h, Shown(u), About(op)).(next := u.nextDraftId))
  {
    hide Links; hide ViewOk; hide Flagged;
    if u.nextDraftId == h.next + 1 { PastLater(h.past, t.undo, h.present, h.next); }
    if |t.undo| == UNDO_LIMIT { PastTail(h.past, t.undo, h.present, u.nextDraftId); }
    var kept := if |h.past| == UNDO_LIMIT then h.past[1..] else h.past;
    var ops := if |t.undo| == UNDO_LIMIT then t.undo[1..] else t.undo;
    PastPush(kept, ops, h.present, op, Shown(u), u.nextDraftId);
  }

  lemma {:induction false} UndoRefines(t: Tracker, h: History)
    requires Refines(t, h)
    ensures Refines(Undo(t), SnapshotStep(h, UndoOne))
  {
    hide Links; hide ViewOk; hide Flagged; hide Reverted; hide Shown;
    if t.undo != [] {
      var i := |t.undo| - 1;
      var op := t.undo[i];
      ShownReverted(t, op);
      UndoKeepsHistory(t, op);
      LinkUndoes(h.past[i].view, op, h.present);
      assert PastOk(h.past[..i], t.undo[..i], h.past[i].view, h.next);
      FuturePush(h.future, t.redo, h.past[i].view, op, h.present, h.next);
    }
  }

  lemma {:induction false} LinkUndoes(v: View, op: UndoOp, w: View)
    requires Links(v, op, w)
    ensures UndoView(w, op) == v && RedoView(v, op) == w
  {}

  /** What an operation does to the pending changes leaves the history and the id counter alone. */
  lemma {:induction false} UndoKeepsHistory(t: Tracker, op: UndoOp)
    ensures Reverted(t, op).nextDraftId == Reapplied(t, op).nextDraftId == t.nextDraftId
    ensures forall undo, redo :: Shown(Reverted(t, op).(undo := undo, redo := redo)) == Shown(Reverted(t, op))
    ensures forall undo, redo :: Shown(Reapplied(t, op).(undo := undo, redo := redo)) == Shown(Reapplied(t, op))
  {}

  lemma {:induction false} RedoRefines(t: Tracker, h: History)
    requires Refines(t, h)
    ensures Refines(Redo(t), SnapshotStep(h, RedoOne))
  {
    hide Links; hide ViewOk; hide Flagged; hide Reapplied; hide Shown;
    if t.redo != [] {
      var i := |t.redo| - 1;
      var op := t.redo[i];
      ShownReapplied(t, op);
      UndoKeepsHistory(t, op);
      LinkUndoes(h.present, op, h.future[i].view);
      assert FutureOk(h.future[..i], t.redo[..i], h.future[i].view, h.next);
      PastPush(h.past, t.undo, h.present, op, h.future[i].view, h.next);
    }
  }

  lemma {:induction false} DiscardRefines(t: Tracker, h: History, id: nat)
    requires Refines(t, h)
    ensures Refines(DiscardDraft(t, id), SnapshotStep(h, Discard(id)))
  {
    hide Links; hide ViewOk; hide Flagged; hide WithoutRow; hide WithoutDraft; hide WithoutUpdates;
    if HasDraft(h.present.rows, id) {
      RowsWithout(t.inserts, id);
      PastErased(h.past, t.undo, h.present, h.next, id);
      FutureErased(h.future, t.redo, h.present, h.next, id);
    }
  }

  lemma {:induction false} TrackRefines(t: Tracker, h: History, c: Command)
    requires Refines(t, h) && Proper(t, c)
    requires c.EditCell? || c.InsertRow? || c.DeleteRow? || c.EditDraft?
    ensures Refines(TrackerStep(t, c), SnapshotStep(h, c))
  {
    hide Links; hide ViewOk; hide Refines; hide PutEdit; hide SetDraft; hide SetCell;
    hide PushUndo; hide Record; hide PastOk; hide FutureOk;
    RefinesParts(t, h);
    match c {
      case EditCell(key, col, original, value) =>
        EditLinks(h.present, h.next, key, col, original, value);
        var before := Before(t.updates, (key, col), original);
        var u := t.(updates := PutEdit(t.updates, (key, col), before.prev, value));
        RecordRefines(t, h, u, EditOp(key, col, before.new_, value, before.prev));
        RecordNext(h, Shown(u), None);
      case InsertRow(values) =>
        InsertLinks(h.present, h.next, values);
        var u := t.(inserts := t.inserts + [NewDraft(t.nextDraftId, values)], nextDraftId := t.nextDraftId + 1);
        assert Rows(u.inserts) == Rows(t.inserts) + [Row(t.nextDraftId, values)];
        RecordRefines(t, h, u, InsertOp(t.nextDraftId, values));
      case DeleteRow(key, originals) =>
        DeleteLinks(h.present, h.next, key, originals);
        var u := t.(deletes := t.deletes[key := originals]);
        RecordRefines(t, h, u, DeleteOp(key, originals));
        RecordNext(h, Shown(u), About(DeleteOp(key, originals)));
      case EditDraft(id, col, value) =>
        var i := Find(Rows(t.inserts), id);
        if i < |t.inserts| && col < |t.inserts[i].row.values| {
          DraftEditLinks(h.present, h.next, id, col, value);
          RowsSet(t.inserts, id, col, value, true);
          var u := t.(inserts := SetDraft(t.inserts, id, col, value, true));
          var prev := t.inserts[i].row.values[col];
          RecordRefines(t, h, u, EditOp(Draft(id), col, prev, value, prev));
          RecordNext(h, Shown(u), Some(id));
        }
    }
  }

  lemma {:induction false} RefinesParts(t: Tracker, h: History)
    requires Refines(t, h)
    ensures h.present == Shown(t) && h.next == t.nextDraftId && Flagged(t.inserts) && ViewOk(h.present, h.next)
    ensures PastOk(h.past, t.undo, h.present, h.next) && |t.undo| + |t.redo| <= UNDO_LIMIT
  {}

  lemma {:induction false} RecordNext(h: History, v: View, about: Option<nat>)
    ensures Record(h, v, about).(next := h.next) == Record(h, v, about)
  {}

  /** One proper command takes related states to related states. */
  lemma {:induction false} StepRefines(t: Tracker, h: History, c: Command)
    requires Refines(t, h) && Proper(t, c)
    ensures Refines(TrackerStep(t, c), SnapshotStep(h, c))
  {
    match c {
      case Discard(id) => DiscardRefines(t, h, id);
      case UndoOne => UndoRefines(t, h);
      case RedoOne => RedoRefines(t, h);
      case ClearAll =>
      case _ => TrackRefines(t, h, c);
    }
  }

  // ---------- whole runs ----------

  function Run(commands: seq<Command>): Tracker {
    if commands == [] then FRESH else TrackerStep(Run(commands[..|commands| - 1]), commands[|commands| - 1])
  }

  function SnapshotRun(commands: seq<Command>): History {
    if commands == [] then History([], EMPTY, [], 0)
    else SnapshotStep(SnapshotRun(commands[..|commands| - 1]), commands[|commands| - 1])
  }

  predicate ProperRun(commands: seq<Command>) {
    forall i | 0 <= i < |commands| :: Proper(Run(commands[..i]), commands[i])
  }

  /** After any run of proper calls the tracker shows what the snapshot history shows. */
  lemma {:induction false} RunRefines(commands: seq<Command>)
    requires ProperRun(commands)
    ensures Refines(Run(commands), SnapshotRun(commands))
    ensures Shown(Run(commands)) == SnapshotRun(commands).present
  {
    hide TrackerStep; hide SnapshotStep; hide Proper;
    if commands == [] {
      assert Rows([]) == [];
    } else {
      var n := |commands| - 1;
      var init := commands[..n];
      forall i | 0 <= i < n ensures Proper(Run(init[..i]), init[i]) { assert init[..i] == commands[..i]; }
      assert Proper(Run(commands[..n]), commands[n]);
      RunRefines(init);
      StepRefines(Run(init), SnapshotRun(init), commands[n]);
    }
  }

  function UndoTimes(t: Tracker, n: nat): Tracker { if n == 0 then t else Undo(UndoTimes(t, n - 1)) }

  function RedoTimes(t: Tracker, n: nat): Tracker
    decreases n
  {
    if n == 0 then t else RedoTimes(Redo(t), n - 1)
  }

  /** A history after n undos: n snapshots have moved across the present. */
  function Back(h: History, n: nat): (r: History)
    requires n <= |h.past|
    ensures |r.past| == |h.past| - n
  {
    if n == 0 then h else SnapshotStep(Back(h, n - 1), UndoOne)
  }

  lemma {:induction false} BackShows(h: History, n: nat)
    requires n <= |h.past|
    ensures Back(h, n).past == h.past[..|h.past| - n]
    ensures n > 0 ==> Back(h, n).present == h.past[|h.past| - n].view
  {
    if n > 0 { BackShows(h, n - 1); }
  }

  lemma {:induction false} UndoTimesRefines(t: Tracker, h: History, n: nat)
    requires Refines(t, h) && n <= |t.undo|
    ensures |h.past| == |t.undo| && Refines(UndoTimes(t, n), Back(h, n))
  {
    hide Refines; hide SnapshotStep; hide Undo;
    SameLengths(t, h);
    if n > 0 {
      UndoTimesRefines(t, h, n - 1);
      UndoRefines(UndoTimes(t, n - 1), Back(h, n - 1));
    }
  }

  lemma {:induction false} SameLengths(t: Tracker, h: History)
    requires Refines(t, h)
    ensures |h.past| == |t.undo| && |h.future| == |t.redo| && h.present == Shown(t)
  {}

  lemma {:induction false} ForthAndBack(t: Tracker, h: History, n: nat)
    requires n <= |h.past| && Refines(t, Back(h, n))
    ensures Shown(RedoTimes(t, n)) == h.present
    decreases n
  {
    hide Refines; hide Redo;
    SameLengths(t, Back(h, n));
    if n > 0 {
      var before, last := Back(h, n - 1), |Back(h, n - 1).past| - 1;
      RedoRefines(t, Back(h, n));
      assert before.past == before.past[..last] + [before.past[last]];
      assert (before.future + [Snapshot(before.present, before.past[last].about)])[..|before.future|] == before.future;
      assert SnapshotStep(Back(h, n), RedoOne) == before;
      ForthAndBack(Redo(t), h, n - 1);
    }
  }

  /** After a proper run, n undos show the view recorded n changes ago, and n redos bring the present view back. */
  lemma {:induction false} UndoThenRedo(commands: seq<Command>, n: nat)
    requires ProperRun(commands) && n <= |Run(commands).undo|
    ensures |SnapshotRun(commands).past| == |Run(commands).undo|
    ensures n > 0 ==> Shown(UndoTimes(Run(commands), n)) == SnapshotRun(commands).past[|Run(commands).undo| - n].view
    ensures Shown(RedoTimes(UndoTimes(Run(commands), n), n)) == Shown(Run(commands))
  {
    hide Refines; hide Run; hide SnapshotRun; hide ProperRun; hide SnapshotStep;
    var t, h := Run(commands), SnapshotRun(commands);
    RunRefines(commands);
    UndoTimesRefines(t, h, n);
    SameLengths(UndoTimes(t, n), Back(h, n));
    BackShows(h, n);
    ForthAndBack(UndoTimes(t, n), h, n);
  }

  // ---------- the log stays within its limit ----------

  lemma {:induction false} FewerOps(ops: seq<UndoOp>, id: nat)
    ensures |WithoutOps(ops, id)| <= |ops|
  {
    if ops != [] { FewerOps(ops[..|ops| - 1], id); }
  }

  lemma {:induction false} StepBounds(t: Tracker, c: Command)
    requires |t.undo| + |t.redo| <= UNDO_LIMIT
    ensures |TrackerStep(t, c).undo| + |TrackerStep(t, c).redo| <= UNDO_LIMIT
  {
    hide SetDraft; hide SetPendingEdit; hide PutEdit; hide WithoutDraft; hide WithoutUpdates; hide WithoutOps;
    hide Find; hide Rows;
    if c.Discard? {
      FewerOps(t.undo, c.id);
      FewerOps(t.redo, c.id);
    }
  }

  /** After any run at most fifty operations are kept to be undone or redone. */
  lemma {:induction false} LogBounded(commands: seq<Command>)
    ensures |Run(commands).undo| + |Run(commands).redo| <= UNDO_LIMIT
  {
    hide TrackerStep;
    if commands != [] {
      var n := |commands| - 1;
      LogBounded(commands[..n]);
      StepBounds(Run(commands[..n]), commands[n]);
    }
  }

  // ---------- a discarded draft stays away ----------

  predicate NoDraft(drafts: seq<DraftRow>, id: nat) { forall i | 0 <= i < |drafts| :: drafts[i].row.id != id }

  predicate NoInsert(ops: seq<UndoOp>, id: nat) {
    forall i | 0 <= i < |ops| :: ops[i].InsertOp? ==> ops[i].draftId != id
  }

  /** Neither shown nor to be shown by an undo or a redo. */
  predicate Absent(t: Tracker, id: nat) { NoDraft(t.inserts, id) && NoInsert(t.undo, id) && NoInsert(t.redo, id) }

  lemma {:induction false} FoundIsThere(drafts: seq<DraftRow>, id: nat)
    ensures HasDraft(Rows(drafts), id) <==> !NoDraft(drafts, id)
  {
    if drafts != [] {
      var n := |drafts| - 1;
      FoundIsThere(drafts[..n], id);
      assert Rows(drafts)[..n] == Rows(drafts[..n]);
    }
  }

  lemma {:induction false} WithoutHasNone(drafts: seq<DraftRow>, other: nat, id: nat)
    requires other == id || NoDraft(drafts, id)
    ensures NoDraft(WithoutDraft(drafts, other), id)
  {
    if drafts != [] { WithoutHasNone(drafts[..|drafts| - 1], other, id); }
  }

  lemma {:induction false} WithoutInsertsNone(ops: seq<UndoOp>, other: nat, id: nat)
    requires other == id || NoInsert(ops, id)
    ensures NoInsert(WithoutOps(ops, other), id)
  {
    if ops != [] { WithoutInsertsNone(ops[..|ops| - 1], other, id); }
  }

  lemma {:induction false} SetAddsNone(drafts: seq<DraftRow>, other: nat, col: nat, value: Value, flag: bool, id: nat)
    requires NoDraft(drafts, id)
    ensures NoDraft(SetDraft(drafts, other, col, value, flag), id)
  {
    hide Find;
  }

  lemma {:induction false} PushAddsNone(t: Tracker, op: UndoOp, id: nat)
    requires Absent(t, id) && !(op.InsertOp? && op.draftId == id)
    ensures Absent(PushUndo(t, op), id)
  {}

  lemma {:induction false} RevertedAddsNone(t: Tracker, op: UndoOp, id: nat)
    requires NoDraft(t.inserts, id)
    ensures NoDraft(Reverted(t, op).inserts, id)
  {
    hide SetDraft; hide WithoutDraft; hide NoDraft;
    match op {
      case EditOp(Draft(other), col, prev, _, _) => SetAddsNone(t.inserts, other, col, prev, !prev.Null?, id);
      case InsertOp(other, _) => WithoutHasNone(t.inserts, other, id);
      case _ =>
    }
  }

  lemma {:induction false} ReappliedAddsNone(t: Tracker, op: UndoOp, id: nat)
    requires NoDraft(t.inserts, id) && !(op.InsertOp? && op.draftId == id)
    ensures NoDraft(Reapplied(t, op).inserts, id)
  {
    hide SetDraft;
    match op {
      case EditOp(Draft(other), col, _, value, _) => SetAddsNone(t.inserts, other, col, value, true, id);
      case _ =>
    }
  }

  /** Only an insertion that hands the id out brings in a draft, and ids are handed out once. */
  lemma {:induction false} StepKeepsAbsent(t: Tracker, c: Command, id: nat)
    requires Absent(t, id) && !(c.InsertRow? && id == t.nextDraftId)
    ensures Absent(TrackerStep(t, c), id)
  {
    hide Reverted; hide Reapplied; hide PushUndo; hide SetDraft; hide WithoutDraft; hide WithoutOps; hide PutEdit;
    match c {
      case EditCell(key, col, original, value) =>
        var before := Before(t.updates, (key, col), original);
        PushAddsNone(t.(updates := PutEdit(t.updates, (key, col), before.prev, value)),
                     EditOp(key, col, before.new_, value, before.prev), id);
      case InsertRow(values) =>
        PushAddsNone(t.(inserts := t.inserts + [NewDraft(t.nextDraftId, values)], nextDraftId := t.nextDraftId + 1),
                     InsertOp(t.nextDraftId, values), id);
      case DeleteRow(key, originals) =>
        PushAddsNone(t.(deletes := t.deletes[key := originals]), DeleteOp(key, originals), id);
      case EditDraft(other, col, value) => EditKeepsAbsent(t, other, col, value, id);
      case Discard(other) =>
        WithoutHasNone(t.inserts, other, id);
        WithoutInsertsNone(t.undo, other, id);
        WithoutInsertsNone(t.redo, other, id);
      case UndoOne => if t.undo != [] { RevertedAddsNone(t, t.undo[|t.undo| - 1], id); }
      case RedoOne => if t.redo != [] { ReappliedAddsNone(t, t.redo[|t.redo| - 1], id); }
      case ClearAll =>
    }
  }

  lemma {:induction false} EditKeepsAbsent(t: Tracker, other: nat, col: nat, value: Value, id: nat)
    requires Absent(t, id)
    ensures Absent(TrackDraftCellEdit(t, other, col, value), id)
  {
    hide PushUndo; hide SetDraft; hide Find; hide NoDraft; hide NoInsert;
    var i := Find(Rows(t.inserts), other);
    if i < |t.inserts| && col < |t.inserts[i].row.values| {
      var prev := t.inserts[i].row.values[col];
      SetAddsNone(t.inserts, other, col, value, true, id);
      PushAddsNone(t.(inserts := SetDraft(t.inserts, other, col, value, true)),
                   EditOp(Draft(other), col, prev, value, prev), id);
    }
  }

  lemma {:induction false} IdsOnlyGrow(t: Tracker, c: Command)
    ensures TrackerStep(t, c).nextDraftId == t.nextDraftId + if c.InsertRow? then 1 else 0
  {
    hide SetDraft; hide SetPendingEdit; hide PutEdit; hide WithoutDraft; hide WithoutUpdates; hide WithoutOps;
    hide Find; hide Rows;
  }

  /** An id not handed out yet is nowhere. */
  lemma {:induction false} FreshIsAbsent(commands: seq<Command>, id: nat)
    requires Run(commands).nextDraftId <= id
    ensures Absent(Run(commands), id)
  {
    hide TrackerStep;
    if commands != [] {
      var n := |commands| - 1;
      IdsOnlyGrow(Run(commands[..n]), commands[n]);
      FreshIsAbsent(commands[..n], id);
      StepKeepsAbsent(Run(commands[..n]), commands[n], id);
    }
  }

  lemma {:induction false} AbsentAlong(commands: seq<Command>, n: nat, id: nat)
    requires n <= |commands| && Absent(Run(commands[..n]), id) && id < Run(commands[..n]).nextDraftId
    ensures Absent(Run(commands), id) && id < Run(commands).nextDraftId
    decreases |commands|
  {
    hide TrackerStep; hide Absent;
    if n == |commands| {
      assert commands[..n] == commands;
    } else {
      var last := |commands| - 1;
      assert commands[..last][..n] == commands[..n];
      AbsentAlong(commands[..last], n, id);
      StepKeepsAbsent(Run(commands[..last]), commands[last], id);
      IdsOnlyGrow(Run(commands[..last]), commands[last]);
    }
  }

  /** In any run, no undo, redo or insertion after a successful discard ever shows that draft again. */
  lemma {:induction false} DiscardedNeverReturns(commands: seq<Command>, n: nat, id: nat)
    requires n < |commands| && commands[n] == Discard(id)
    requires HasDraft(Rows(Run(commands[..n]).inserts), id)
    ensures !HasDraft(Rows(Run(commands).inserts), id)
  {
    hide WithoutDraft; hide WithoutOps; hide WithoutUpdates; hide HasDraft;
    var t := Run(commands[..n]);
    FoundIsThere(t.inserts, id);
    if t.nextDraftId <= id { FreshIsAbsent(commands[..n], id); }
    WithoutHasNone(t.inserts, id, id);
    WithoutInsertsNone(t.undo, id, id);
    WithoutInsertsNone(t.redo, id, id);
    assert commands[..n + 1][..n] == commands[..n];
    assert Run(commands[..n + 1]) == DiscardDraft(t, id);
    AbsentAlong(commands, n + 1, id);
    FoundIsThere(Run(commands).inserts, id);
  }

  // ---------- which cells an INSERT names ----------

  predicate Touches(c: Command, id: nat, col: nat) {
    (c.EditDraft? && c.id == id && c.col == col) || (c.EditCell? && c.rowKey == Draft(id) && c.col == col)
  }

  ghost predicate TouchedBy(commands: seq<Command>, id: nat, col: nat) {
    exists i | 0 <= i < |commands| :: Touches(commands[i], id, col)
  }

  ghost predicate FlagsEarned(drafts: seq<DraftRow>, commands: seq<Command>) {
    forall i, col | 0 <= i < |drafts| && 0 <= col < |drafts[i].touched| && drafts[i].touched[col] ::
      TouchedBy(commands, drafts[i].row.id, col)
  }

  ghost predicate OpsEarned(ops: seq<UndoOp>, commands: seq<Command>) {
    forall i | 0 <= i < |ops| && ops[i].EditOp? && ops[i].rowKey.Draft? ::
      TouchedBy(commands, ops[i].rowKey.id, ops[i].col)
  }

  ghost predicate Earned(t: Tracker, commands: seq<Command>) {
    FlagsEarned(t.inserts, commands) && OpsEarned(t.undo, commands) && OpsEarned(t.redo, commands)
  }

  lemma {:induction false} EarnedMore(t: Tracker, commands: seq<Command>, c: Command)
    requires Earned(t, commands)
    ensures Earned(t, commands + [c])
  {
    forall id, col | TouchedBy(commands, id, col) ensures TouchedBy(commands + [c], id, col) {
      var i :| 0 <= i < |commands| && Touches(commands[i], id, col);
      assert (commands + [c])[i] == commands[i];
    }
  }

  lemma {:induction false} WithoutKeepsFlags(drafts: seq<DraftRow>, id: nat, commands: seq<Command>)
    requires FlagsEarned(drafts, commands)
    ensures FlagsEarned(WithoutDraft(drafts, id), commands)
  {
    hide TouchedBy;
    if drafts != [] { WithoutKeepsFlags(drafts[..|drafts| - 1], id, commands); }
  }

  lemma {:induction false} WithoutKeepsOps(ops: seq<UndoOp>, id: nat, commands: seq<Command>)
    requires OpsEarned(ops, commands)
    ensures OpsEarned(WithoutOps(ops, id), commands)
  {
    hide TouchedBy;
    if ops != [] { WithoutKeepsOps(ops[..|ops| - 1], id, commands); }
  }

  lemma {:induction false} SetKeepsFlags(drafts: seq<DraftRow>, id: nat, col: nat, value: Value, flag: bool,
                                         commands: seq<Command>)
    requires FlagsEarned(drafts, commands) && TouchedBy(commands, id, col)
    ensures FlagsEarned(SetDraft(drafts, id, col, value, flag), commands)
  {
    hide TouchedBy;
    FindFinds(Rows(drafts), id);
  }

  lemma {:induction false} FindFinds(rows: seq<Row>, id: nat)
    ensures Find(rows, id) < |rows| ==> rows[Find(rows, id)].id == id
  {
    if rows != [] { FindFinds(rows[..|rows| - 1], id); }
  }

  lemma {:induction false} PushEarned(t: Tracker, op: UndoOp, commands: seq<Command>)
    requires Earned(t, commands) && OpsEarned([op], commands)
    ensures Earned(PushUndo(t, op), commands)
  {
    hide TouchedBy; hide FlagsEarned;
    assert [op][0] == op;
  }

  lemma {:induction false} RevertedEarned(t: Tracker, op: UndoOp, commands: seq<Command>)
    requires FlagsEarned(t.inserts, commands) && OpsEarned([op], commands)
    ensures FlagsEarned(Reverted(t, op).inserts, commands)
  {
    hide SetDraft; hide WithoutDraft; hide FlagsEarned; hide TouchedBy;
    assert [op][0] == op;
    match op {
      case EditOp(Draft(id), col, prev, _, _) => SetKeepsFlags(t.inserts, id, col, prev, !prev.Null?, commands);
      case InsertOp(id, _) => WithoutKeepsFlags(t.inserts, id, commands);
      case _ =>
    }
  }

  lemma {:induction false} InsertKeepsFlags(drafts: seq<DraftRow>, id: nat, values: seq<Value>, commands: seq<Command>)
    requires FlagsEarned(drafts, commands)
    ensures FlagsEarned(drafts + [NewDraft(id, values)], commands)
  {
    hide TouchedBy;
  }

  lemma {:induction false} ReappliedEarned(t: Tracker, op: UndoOp, commands: seq<Command>)
    requires FlagsEarned(t.inserts, commands) && OpsEarned([op], commands)
    ensures FlagsEarned(Reapplied(t, op).inserts, commands)
  {
    hide SetDraft; hide FlagsEarned; hide TouchedBy; hide NewDraft;
    assert [op][0] == op;
    match op {
      case EditOp(Draft(id), col, _, value, _) => SetKeepsFlags(t.inserts, id, col, value, true, commands);
      case InsertOp(id, values) => InsertKeepsFlags(t.inserts, id, values, commands);
      case _ =>
    }
  }

  lemma {:induction false} StepEarned(t: Tracker, c: Command, commands: seq<Command>)
    requires Earned(t, commands) && c in commands
    ensures Earned(TrackerStep(t, c), commands)
  {
    hide Reverted; hide Reapplied; hide PushUndo; hide SetDraft; hide WithoutDraft; hide WithoutOps; hide PutEdit;
    hide FlagsEarned; hide NewDraft; hide Find;
    var k :| 0 <= k < |commands| && commands[k] == c;
    assert forall id, col | Touches(c, id, col) :: TouchedBy(commands, id, col);
    hide TouchedBy;
    match c {
      case EditCell(key, col, original, value) =>
        var before := Before(t.updates, (key, col), original);
        assert key.Draft? ==> Touches(c, key.id, col);
        PushEarned(t.(updates := PutEdit(t.updates, (key, col), before.prev, value)),
                   EditOp(key, col, before.new_, value, before.prev), commands);
      case InsertRow(values) =>
        InsertKeepsFlags(t.inserts, t.nextDraftId, values, commands);
        PushEarned(t.(inserts := t.inserts + [NewDraft(t.nextDraftId, values)], nextDraftId := t.nextDraftId + 1),
                   InsertOp(t.nextDraftId, values), commands);
      case DeleteRow(key, originals) =>
        PushEarned(t.(deletes := t.deletes[key := originals]), DeleteOp(key, originals), commands);
      case EditDraft(id, col, value) =>
        assert Touches(c, id, col);
        var i := Find(Rows(t.inserts), id);
        if i < |t.inserts| && col < |t.inserts[i].row.values| {
          SetKeepsFlags(t.inserts, id, col, value, true, commands);
          var prev := t.inserts[i].row.values[col];
          PushEarned(t.(inserts := SetDraft(t.inserts, id, col, value, true)),
                     EditOp(Draft(id), col, prev, value, prev), commands);
        }
      case Discard(id) =>
        WithoutKeepsFlags(t.inserts, id, commands);
        WithoutKeepsOps(t.undo, id, commands);
        WithoutKeepsOps(t.redo, id, commands);
      case UndoOne => if t.undo != [] { RevertedEarned(t, t.undo[|t.undo| - 1], commands); }
      case RedoOne => if t.redo != [] { ReappliedEarned(t, t.redo[|t.redo| - 1], commands); }
      case ClearAll => assert FlagsEarned([], commands) by { NothingEarned(commands); }
    }
  }

  lemma {:induction false} NothingEarned(commands: seq<Command>)
    ensures FlagsEarned([], commands)
  {}

  /** In any run, a drafted cell is named in the INSERT only if somebody edited that very cell. */
  lemma {:induction false} FlagNeedsEdit(commands: seq<Command>)
    ensures Earned(Run(commands), commands)
  {
    hide TrackerStep; hide Earned;
    if commands == [] {
      NothingEarnedYet();
    } else {
      var n := |commands| - 1;
      FlagNeedsEdit(commands[..n]);
      assert commands == commands[..n] + [commands[n]];
      EarnedMore(Run(commands[..n]), commands[..n], commands[n]);
      StepEarned(Run(commands[..n]), commands[n], commands);
    }
  }

  lemma {:induction false} NothingEarnedYet()
    ensures Earned(FRESH, [])
  {}

  // ---------- the calls that cannot be taken back exactly ----------

  predicate Tidy(t: Tracker) { Flagged(t.inserts) && ViewOk(Shown(t), t.nextDraftId) }

  /** Marking a row for deletion is undone exactly when it was not already marked. */
  lemma {:induction false} DeleteUndone(t: Tracker, key: RowKey, originals: seq<Value>)
    ensures Shown(Undo(TrackDelete(t, key, originals))) == Shown(t) <==> key !in t.deletes
  {
    var deletes := t.deletes[key := originals] - {key};
    assert key !in deletes;
    assert key !in t.deletes ==> deletes == t.deletes;
    assert Shown(Undo(TrackDelete(t, key, originals))).deletes == deletes;
  }

  /** Whether an edit recorded under a draft's key happens to leave no mark. */
  predicate Unmarked(t: Tracker, id: nat, col: nat, original: Value, value: Value) {
    var cell := (Draft(id), col);
    var i := Find(Rows(t.inserts), id);
    && (if cell in t.updates then t.updates[cell].new_ == value else KeyOf(original) == KeyOf(value))
    && (i < |t.inserts| && col < |t.inserts[i].row.values| ==>
          t.inserts[i].row.values[col] == if cell in t.updates then value else original)
  }

  /**
   * A cell edit under a stored row's key is always undone. Under a draft's key, undo rewrites the draft
   * and leaves the recorded edit, so it is undone only when there was nothing to take back.
   */
  lemma {:induction false} CellEditUndone(t: Tracker, key: RowKey, col: nat, original: Value, value: Value)
    requires Tidy(t)
    ensures Shown(Undo(TrackCellEdit(t, key, col, original, value))) == Shown(t)
       <==> key.Persisted? || Unmarked(t, key.id, col, original, value)
  {
    var before := Before(t.updates, (key, col), original);
    var u := t.(updates := PutEdit(t.updates, (key, col), before.prev, value));
    var op := EditOp(key, col, before.new_, value, before.prev);
    assert Shown(Undo(PushUndo(u, op))) == Shown(Reverted(u, op)) by { UndoPushed(u, op); }
    ShownReverted(u, op);
    if key.Persisted? {
      EditLinks(Shown(t), t.nextDraftId, key, col, original, value);
    } else {
      DraftKeyEdit(t, key.id, col, original, value);
    }
  }

  lemma {:induction false} UndoPushed(u: Tracker, op: UndoOp)
    ensures Shown(Undo(PushUndo(u, op))) == Shown(Reverted(u, op))
  {
    hide SetDraft; hide SetPendingEdit; hide WithoutDraft; hide WithoutRow; hide Rows;
    var ops := if |u.undo| == UNDO_LIMIT then u.undo[1..] else u.undo;
    var pushed := u.(undo := ops + [op], redo := []);
    assert pushed.undo[|ops|] == op;
    assert Shown(Reverted(pushed, op)) == Shown(Reverted(u, op));
  }

  lemma {:induction false} DraftKeyEdit(t: Tracker, id: nat, col: nat, original: Value, value: Value)
    requires Tidy(t)
    ensures
      var before := Before(t.updates, (Draft(id), col), original);
      var undone := PutEdit(t.updates, (Draft(id), col), before.prev, value) == t.updates
                 && SetCell(Rows(t.inserts), id, col, before.new_) == Rows(t.inserts);
      undone <==> Unmarked(t, id, col, original, value)
  {
    hide KeyOf;
    var cell := (Draft(id), col);
    var before := Before(t.updates, cell, original);
    PutChangesNothing(t.updates, cell, before, value);
    SetChangesNothing(Rows(t.inserts), id, col, before.new_);
    if cell in t.updates {
      assert KeyOf(Shown(t).updates[cell].prev) != KeyOf(Shown(t).updates[cell].new_);
    }
  }

  lemma {:induction false} PutChangesNothing(updates: map<Cell, CellEdit>, cell: Cell, before: CellEdit, value: Value)
    requires cell in updates ==> updates[cell] == before && KeyOf(before.prev) != KeyOf(before.new_)
    ensures PutEdit(updates, cell, before.prev, value) == updates
       <==> if cell in updates then before.new_ == value else KeyOf(before.prev) == KeyOf(value)
  {
    hide KeyOf;
    var put := PutEdit(updates, cell, before.prev, value);
    if cell in updates {
      if before.new_ == value { assert put == updates; }
      else if KeyOf(before.prev) == KeyOf(value) { assert cell !in put; }
      else { assert put[cell] != updates[cell]; }
    } else if KeyOf(before.prev) == KeyOf(value) {
      assert put == updates;
    } else {
      assert cell in put;
    }
  }

  lemma {:induction false} SetChangesNothing(rows: seq<Row>, id: nat, col: nat, value: Value)
    ensures SetCell(rows, id, col, value) == rows
       <==> var i := Find(rows, id); i < |rows| && col < |rows[i].values| ==> rows[i].values[col] == value
  {
    var i := Find(rows, id);
    if i < |rows| && col < |rows[i].values| {
      var values := rows[i].values;
      assert SetCell(rows, id, col, value)[i].values[col] == value;
      if values[col] == value { assert values[col := value] == values; }
    }
  }

  /**
   * Undoing a drafted cell brings its value back; its flag comes back only when it already said whether
   * the value was other than null.
   */
  lemma {:induction false} DraftFlagsUndone(t: Tracker, id: nat, col: nat, value: Value)
    requires Tidy(t)
    requires var i := Find(Rows(t.inserts), id); i < |t.inserts| && col < |t.inserts[i].row.values|
    ensures var d := t.inserts[Find(Rows(t.inserts), id)];
            col < |d.touched| && (Undo(TrackDraftCellEdit(t, id, col, value)).inserts == t.inserts
                                  <==> d.touched[col] == !d.row.values[col].Null?)
  {
    hide KeyOf; hide SetDraft; hide Find;
    var i := Find(Rows(t.inserts), id);
    var d := t.inserts[i];
    assert d in t.inserts;
    var prev := d.row.values[col];
    var u := t.(inserts := SetDraft(t.inserts, id, col, value, true));
    UndoPushedDrafts(u, id, col, prev, value);
    SetTwice(t.inserts, id, col, value, true, prev, !prev.Null?);
    SetSame(t.inserts, id, col, !prev.Null?);
  }

  lemma {:induction false} UndoPushedDrafts(u: Tracker, id: nat, col: nat, prev: Value, value: Value)
    ensures Undo(PushUndo(u, EditOp(Draft(id), col, prev, value, prev))).inserts ==
            SetDraft(u.inserts, id, col, prev, !prev.Null?)
  {
    hide SetDraft;
    var op := EditOp(Draft(id), col, prev, value, prev);
    var ops := if |u.undo| == UNDO_LIMIT then u.undo[1..] else u.undo;
    assert (ops + [op])[|ops|] == op;
  }

  lemma {:induction false} SetTwice(drafts: seq<DraftRow>, id: nat, col: nat, v: Value, f: bool, w: Value, g: bool)
    requires Flagged(drafts)
    ensures SetDraft(SetDraft(drafts, id, col, v, f), id, col, w, g) == SetDraft(drafts, id, col, w, g)
  {
    hide Find;
    var i := Find(Rows(drafts), id);
    if i < |drafts| && col < |drafts[i].row.values| {
      assert drafts[i] in drafts;
      var once := SetDraft(drafts, id, col, v, f);
      FindAt(Rows(once), id, i);
      assert once[i].Set(col, w, g) == drafts[i].Set(col, w, g);
    }
  }

  lemma {:induction false} FindAt(rows: seq<Row>, id: nat, i: nat)
    requires i < |rows| && rows[i].id == id && forall j | 0 <= j < i :: rows[j].id != id
    ensures Find(rows, id) == i
  {}

  lemma {:induction false} SetSame(drafts: seq<DraftRow>, id: nat, col: nat, flag: bool)
    requires Flagged(drafts)
    requires var i := Find(Rows(drafts), id); i < |drafts| && col < |drafts[i].row.values|
    ensures var d := drafts[Find(Rows(drafts), id)];
            col < |d.touched| && (SetDraft(drafts, id, col, d.row.values[col], flag) == drafts <==>
                                  d.touched[col] == flag)
  {
    hide Find;
    var i := Find(Rows(drafts), id);
    var d := drafts[i];
    assert d in drafts;
    var same := d.Set(col, d.row.values[col], flag);
    assert same.row.values == d.row.values;
    assert same.touched[col] == flag;
    if d.touched[col] == flag { assert same.touched == d.touched; }
    assert SetDraft(drafts, id, col, d.row.values[col], flag)[i] == same;
  }

  // ---------- runs that reach the failing sides ----------

  /** Marking a row twice and undoing once takes the first mark away with the second. */
  lemma {:induction false} MarkedTwice(key: RowKey, first: seq<Value>, second: seq<Value>)
    ensures var once := [DeleteRow(key, first)];
      var twice := once + [DeleteRow(key, second)];
      && Shown(Undo(Run(twice))) != Shown(Run(once))
      && key in Shown(Run(once)).deletes && key !in Shown(Undo(Run(twice))).deletes
  {
    var once := [DeleteRow(key, first)];
    var twice := once + [DeleteRow(key, second)];
    assert twice[..1] == once && once[..0] == [];
    assert Run(once) == TrackDelete(FRESH, key, first);
    assert Run(twice) == TrackDelete(Run(once), key, second);
    DeleteUndone(Run(once), key, second);
  }

  /**
   * A cell edit recorded under a draft's key outlives its undo. The grid edits drafts through their own
   * call; only another user of the tracker could make this one.
   */
  lemma {:induction false} DraftKeyEdited()
    ensures var before := [InsertRow([Null])];
      var edited := before + [EditCell(Draft(0), 0, Null, Int(1))];
      && (Draft(0), 0) !in Shown(Run(before)).updates
      && Shown(Undo(Run(edited))).updates == map[(Draft(0), 0) := CellEdit(Null, Int(1))]
  {
    var before := [InsertRow([Null])];
    var edited := before + [EditCell(Draft(0), 0, Null, Int(1))];
    assert edited[..1] == before && before[..0] == [];
    var t := Run(before);
    assert t == TrackInsert(FRESH, [Null]);
    assert t.updates == map[];
    assert Run(edited) == TrackCellEdit(t, Draft(0), 0, Null, Int(1));
    var updates := PutEdit(t.updates, (Draft(0), 0), Null, Int(1));
    assert updates == map[(Draft(0), 0) := CellEdit(Null, Int(1))];
    UndoPushed(t.(updates := updates), EditOp(Draft(0), 0, Null, Int(1), Null));
  }

  lemma {:induction false} NulledDraft()
    ensures Run([InsertRow([Null]), EditDraft(0, 0, Null)]).inserts == [DraftRow(Row(0, [Null]), [true])]
  {
    var nulled := [InsertRow([Null]), EditDraft(0, 0, Null)];
    assert nulled[..1] == [InsertRow([Null])] && [InsertRow([Null])][..0] == [];
    var t := Run(nulled[..1]);
    assert t == TrackInsert(FRESH, [Null]);
    assert NewDraft(0, [Null]) == DraftRow(Row(0, [Null]), [false]);
    SetOnlyDraft([Null], [false], Null, true);
    hide SetDraft; hide Find;
    assert Run(nulled) == TrackDraftCellEdit(t, 0, 0, Null);
  }

  lemma {:induction false} EditThenUndo(t: Tracker)
    requires t.inserts == [DraftRow(Row(0, [Null]), [true])]
    ensures Undo(TrackDraftCellEdit(t, 0, 0, Int(1))).inserts == [DraftRow(Row(0, [Null]), [false])]
  {
    hide SetDraft; hide Find; hide Undo; hide PushUndo;
    SetOnlyDraft([Null], [true], Int(1), true);
    SetOnlyDraft([Int(1)], [true], Null, false);
    UndoPushedDrafts(t.(inserts := SetDraft(t.inserts, 0, 0, Int(1), true)), 0, 0, Null, Int(1));
  }

  /** A draft cell set to null by hand, then to a value: undo brings the null back without its flag. */
  lemma {:induction false} NullByHand()
    ensures var nulled := [InsertRow([Null]), EditDraft(0, 0, Null)];
      var edited := nulled + [EditDraft(0, 0, Int(1))];
      && Run(nulled).inserts == [DraftRow(Row(0, [Null]), [true])]
      && Undo(Run(edited)).inserts == [DraftRow(Row(0, [Null]), [false])]
  {
    hide TrackDraftCellEdit; hide Undo;
    var nulled := [InsertRow([Null]), EditDraft(0, 0, Null)];
    var edited := nulled + [EditDraft(0, 0, Int(1))];
    NulledDraft();
    EditThenUndo(Run(nulled));
    assert edited[..2] == nulled;
    assert Run(edited) == TrackDraftCellEdit(Run(nulled), 0, 0, Int(1));
  }

  lemma {:induction false} SetOnlyDraft(values: seq<Value>, touched: seq<bool>, value: Value, flag: bool)
    requires |values| == |touched| == 1
    ensures var drafts := [DraftRow(Row(0, values), touched)];
      && Find(Rows(drafts), 0) == 0
      && SetDraft(drafts, 0, 0, value, flag) == [DraftRow(Row(0, [value]), [flag])]
  {
    var drafts := [DraftRow(Row(0, values), touched)];
    FindAt(Rows(drafts), 0, 0);
    assert values[0 := value] == [value] && touched[0 := flag] == [flag];
  }
}
