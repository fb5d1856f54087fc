/**
 * A settings value kept in memory and written by one worker thread. Updates only raise a revision; the
 * worker writes the newest value it finds, so a burst of updates becomes one write.
 */
module StateFile {

  import opened Options

  // ---------- what the lock guards ----------

  datatype Shared<T> = Shared(
    value: T,
    revision: nat,
    attempted: nat,
    readError: Option<string>,
    writeError: Option<string>,
    closed: bool)

  /** The worker sleeps while this holds. */
  predicate Resting<T>(s: Shared<T>) { s.revision == s.attempted && !s.closed }

  predicate Done<T>(s: Shared<T>) { s.revision == s.attempted && s.closed }

  function Updated<T>(s: Shared<T>, value: T): Shared<T> {
    if s.readError.Some? then s else s.(value := value, revision := s.revision + 1)
  }

  function Attempted<T>(s: Shared<T>, revision: nat, error: Option<string>): Shared<T> {
    s.(attempted := revision, writeError := error)
  }

  datatype Answer = StillWaiting | Saved | Failed(error: string)

  class SharedState<T> {
    var value: T
    var revision: nat
    var attempted: nat
    var readError: Option<string>
    var writeError: Option<string>
    var closed: bool

    function Contents(): Shared<T>
      reads this
    {
      Shared(value, revision, attempted, readError, writeError, closed)
    }

    constructor (initial: T, error: Option<string>)
      ensures Contents() == Shared(initial, 0, 0, error, None, false)
    {
      value, revision, attempted, readError, writeError, closed := initial, 0, 0, error, None, false;
    }

    method Update(change: T -> T) returns (refused: Option<string>)
      modifies this
      ensures Contents() == Updated(old(Contents()), change(old(value)))
      ensures refused == old(readError)
    {
      if readError.Some? { return readError; }
      value := change(value);
      revision := revision + 1;
      refused := None;
    }

    /**
     * The worker, once awake. What it is handed is what the machine's worker goes off to write with a
     * `Take`, and it is handed nothing exactly where the machine's worker may only exit.
     */
    method TakeNewest() returns (work: Option<(T, nat)>)
      requires !Resting(Contents())
      ensures forall s: Sys<T> | s.shared == Contents() && s.worker.Waiting? ::
        && (work.Some? <==> Enabled(s, Take)) && (work.None? <==> Enabled(s, Exit))
        && (work.Some? ==> Step(s, Take).worker == Writing(work.value.0, work.value.1))
    {
      if revision == attempted && closed { return None; }
      work := Some((value, revision));
    }

    method Finish(written: nat, error: Option<string>)
      modifies this`attempted, this`writeError
      ensures Contents() == Attempted(old(Contents()), written, error)
    {
      attempted := written;
      writeError := error;
    }

    /**
     * One look of a waiting flush. It keeps waiting exactly where the machine could only let it time out;
     * otherwise it reports what the machine records for it, with the last write's error.
     */
    method Look(target: nat) returns (answer: Answer)
      ensures forall s: Sys<T>, id | s.shared == Contents() && id in s.flushes && s.flushes[id] == Open(target) ::
        && (answer.StillWaiting? <==> Enabled(s, TimeOut(id)))
        && (!answer.StillWaiting? <==> Enabled(s, AnswerFlush(id)))
        && (!answer.StillWaiting? ==> Step(s, AnswerFlush(id)).flushes[id] == Answered(target, answer.Saved?))
      ensures answer.Failed? ==> writeError == Some(answer.error)
    {
      if attempted < target { return StillWaiting; }
      answer := if writeError.Some? then Failed(writeError.value) else Saved;
    }

    method Close()
      modifies this`closed
      ensures Contents() == old(Contents()).(closed := true)
    {
      closed := true;
    }
  }

  // ---------- all threads together ----------

  datatype Worker<T> =
    | Absent
    | Waiting
    | Writing(value: T, revision: nat)
    | Wrote(revision: nat, error: Option<string>)
    | Exited

  /** The file as it was found, or the value of some revision. */
  datatype File<T> = Original | Holds(revision: nat, value: T)

  datatype Flush = Open(target: nat) | Answered(target: nat, ok: bool)

  /** `history` lists the value of every revision, `landed` the revisions that reached the file, in order. */
  datatype Sys<T> = Sys(
    shared: Shared<T>,
    worker: Worker<T>,
    file: File<T>,
    flushes: map<nat, Flush>,
    history: seq<T>,
    landed: seq<nat>)

  datatype Action<T> =
    | UpdateTo(value: T)
    | Take
    | Write(error: Option<string>, lands: bool)
    | FinishWrite
    | Exit
    | StartFlush(id: nat)
    | AnswerFlush(id: nat)
    | TimeOut(id: nat)
    | Drop

  predicate Init<T(==)>(s: Sys<T>) {
    && s.shared.revision == s.shared.attempted == 0
    && s.shared.writeError.None? && !s.shared.closed
    && (s.worker.Waiting? || (s.worker.Absent? && s.shared.readError.Some?))
    && s.file.Original? && s.flushes == map[] && s.landed == []
    && s.history == [s.shared.value]
  }

  /** A failed write may still have replaced the file; a successful one always has. */
  predicate Enabled<T>(s: Sys<T>, a: Action<T>) {
    match a
    case UpdateTo(_) => !s.shared.closed
    case Take => s.worker.Waiting? && !Resting(s.shared) && !Done(s.shared)
    case Write(error, lands) => s.worker.Writing? && (error.None? ==> lands)
    case FinishWrite => s.worker.Wrote?
    case Exit => s.worker.Waiting? && Done(s.shared)
    case StartFlush(id) => !s.shared.closed && id !in s.flushes
    case AnswerFlush(id) => id in s.flushes && s.flushes[id].Open? && s.flushes[id].target <= s.shared.attempted
    case TimeOut(id) => id in s.flushes && s.flushes[id].Open? && s.shared.attempted < s.flushes[id].target
    case Drop => !s.shared.closed && forall id | id in s.flushes :: s.flushes[id].Answered?
  }

  function Step<T>(s: Sys<T>, a: Action<T>): Sys<T>
    requires Enabled(s, a)
  {
    match a
    case UpdateTo(value) =>
      var shared := Updated(s.shared, value);
      s.(shared := shared, history := if s.shared.readError.Some? then s.history else s.history + [value])
    case Take => s.(worker := Writing(s.shared.value, s.shared.revision))
    case Write(error, lands) =>
      var w := s.worker;
      s.(worker := Wrote(w.revision, error),
         file := if lands then Holds(w.revision, w.value) else s.file,
         landed := if lands then s.landed + [w.revision] else s.landed)
    case FinishWrite => s.(worker := Waiting, shared := Attempted(s.shared, s.worker.revision, s.worker.error))
    case Exit => s.(worker := Exited)
    case StartFlush(id) => s.(flushes := s.flushes[id := Open(s.shared.revision)])
    case AnswerFlush(id) => s.(flushes := s.flushes[id := Answered(s.flushes[id].target, s.shared.writeError.None?)])
    case TimeOut(id) => s.(flushes := s.flushes[id := Answered(s.flushes[id].target, false)])
    case Drop => s.(shared := s.shared.(closed := true))
  }

  // ---------- what every step keeps ----------

  /** The revision that has most recently been tried. */
  function Tried<T>(s: Sys<T>): nat { if s.worker.Wrote? then s.worker.revision else s.shared.attempted }

  predicate HistoryInv<T(==)>(s: Sys<T>) {
    && |s.history| == s.shared.revision + 1
    && s.history[s.shared.revision] == s.shared.value
    && s.shared.attempted <= s.shared.revision
    && (s.worker.Writing? ==>
          s.shared.attempted < s.worker.revision <= s.shared.revision && s.worker.value == s.history[s.worker.revision])
    && (s.worker.Wrote? ==> s.shared.attempted < s.worker.revision <= s.shared.revision)
  }

  predicate FileInv<T(==)>(s: Sys<T>) {
    && (s.file.Original? <==> s.landed == [])
    && (s.file.Holds? ==> s.file.revision < |s.history| && s.file.value == s.history[s.file.revision]
                          && s.landed[|s.landed| - 1] == s.file.revision)
    && (forall i, j | 0 <= i < j < |s.landed| :: s.landed[i] < s.landed[j])
    && (forall i | 0 <= i < |s.landed| :: s.landed[i] <= Tried(s))
    && (s.shared.writeError.None? && 0 < s.shared.attempted ==> s.file.Holds? && s.shared.attempted <= s.file.revision)
    && (s.worker.Wrote? && s.worker.error.None? ==> s.file.Holds? && s.worker.revision <= s.file.revision)
  }

  predicate RoleInv<T(==)>(s: Sys<T>) {
    && (s.shared.readError.Some? ==>
          s.shared.revision == 0 && s.file.Original? && !s.worker.Writing? && !s.worker.Wrote?)
    && (s.worker.Absent? ==> s.shared.readError.Some?)
    && (s.worker.Exited? ==> Done(s.shared))
    && (forall id | id in s.flushes :: s.flushes[id].target <= s.shared.revision)
    && (s.shared.closed ==> forall id | id in s.flushes :: s.flushes[id].Answered?)
  }

  predicate AnswerInv<T(==)>(s: Sys<T>) {
    forall id | id in s.flushes && s.flushes[id].Answered? && s.flushes[id].ok :: Stored(s, s.flushes[id].target)
  }

  /** The file holds a revision at least this one; revision zero is what was loaded. */
  predicate Stored<T>(s: Sys<T>, target: nat) { target == 0 || (s.file.Holds? && target <= s.file.revision) }

  predicate Inv<T(==)>(s: Sys<T>) { HistoryInv(s) && FileInv(s) && RoleInv(s) && AnswerInv(s) }

  lemma {:induction false} StepKeepsHistory<T>(s: Sys<T>, a: Action<T>)
    requires Inv(s) && Enabled(s, a)
    ensures HistoryInv(Step(s, a))
  {}

  lemma {:induction false} StepKeepsFile<T>(s: Sys<T>, a: Action<T>)
    requires Inv(s) && Enabled(s, a)
    ensures FileInv(Step(s, a))
  {
    hide AnswerInv;
    if a.Write? {
      assert forall i | 0 <= i < |s.landed| :: s.landed[i] < s.worker.revision;
    }
  }

  lemma {:induction false} StepKeepsRoles<T>(s: Sys<T>, a: Action<T>)
    requires Inv(s) && Enabled(s, a)
    ensures RoleInv(Step(s, a))
  {
    hide AnswerInv;
  }

  /** The file never goes back to an older revision. */
  lemma {:induction false} StoredStays<T>(s: Sys<T>, a: Action<T>, target: nat)
    requires Inv(s) && Enabled(s, a) && Stored(s, target)
    ensures Stored(Step(s, a), target)
  {
    hide AnswerInv;
    if a.Write? && s.file.Holds? { assert s.landed[|s.landed| - 1] <= Tried(s); }
  }

  lemma {:induction false} StepKeepsAnswers<T>(s: Sys<T>, a: Action<T>)
    requires Inv(s) && Enabled(s, a)
    ensures AnswerInv(Step(s, a))
  {
    hide Stored;
    var u := Step(s, a);
    forall id | id in u.flushes && u.flushes[id].Answered? && u.flushes[id].ok ensures Stored(u, u.flushes[id].target) {
      if a.AnswerFlush? && a.id == id {
        AttemptedIsStored(s);
        StoredLess(s, s.shared.attempted, u.flushes[id].target);
        StoredStays(s, a, u.flushes[id].target);
      } else {
        StoredStays(s, a, u.flushes[id].target);
      }
    }
  }

  lemma {:induction false} AttemptedIsStored<T>(s: Sys<T>)
    requires Inv(s) && s.shared.writeError.None?
    ensures Stored(s, s.shared.attempted)
  {}

  lemma {:induction false} StoredLess<T>(s: Sys<T>, more: nat, less: nat)
    requires Stored(s, more) && less <= more
    ensures Stored(s, less)
  {}

  lemma {:induction false} StepKeeps<T>(s: Sys<T>, a: Action<T>)
    requires Inv(s) && Enabled(s, a)
    ensures Inv(Step(s, a))
  {
    hide HistoryInv; hide FileInv; hide RoleInv; hide AnswerInv; hide Step;
    StepKeepsHistory(s, a);
    StepKeepsFile(s, a);
    StepKeepsRoles(s, a);
    StepKeepsAnswers(s, a);
  }

  // ---------- whole runs ----------

  ghost predicate Behaviour<T(!new)>(tr: seq<Sys<T>>, acts: seq<Action<T>>) {
    && |tr| == |acts| + 1
    && Init(tr[0])
    && forall i | 0 <= i < |acts| :: Enabled(tr[i], acts[i]) && tr[i + 1] == Step(tr[i], acts[i])
  }

  lemma {:induction false} AlwaysInv<T(!new)>(tr: seq<Sys<T>>, acts: seq<Action<T>>, i: nat)
    requires Behaviour(tr, acts) && i < |tr|
    ensures Inv(tr[i])
  {
    hide Step; hide Enabled;
    if i > 0 {
      AlwaysInv(tr, acts, i - 1);
      assert Enabled(tr[i - 1], acts[i - 1]);
      StepKeeps(tr[i - 1], acts[i - 1]);
    }
  }

  /** The error of the last write reported, and of the last write made, among the first `n` actions. */
  function LastErrors<T>(acts: seq<Action<T>>, n: nat): (Option<string>, Option<string>)
    requires n <= |acts|
  {
    if n == 0 then (None, None)
    else
      var (reported, made) := LastErrors(acts, n - 1);
      match acts[n - 1]
      case Write(error, _) => (reported, error)
      case FinishWrite => (made, made)
      case _ => (reported, made)
  }

  lemma {:induction false} ErrorsFollow<T(!new)>(tr: seq<Sys<T>>, acts: seq<Action<T>>, i: nat)
    requires Behaviour(tr, acts) && i < |tr|
    ensures tr[i].shared.writeError == LastErrors(acts, i).0
    ensures tr[i].worker.Wrote? ==> tr[i].worker.error == LastErrors(acts, i).1
  {
    if i > 0 {
      ErrorsFollow(tr, acts, i - 1);
      assert Enabled(tr[i - 1], acts[i - 1]) && tr[i] == Step(tr[i - 1], acts[i - 1]);
    }
  }

  /** A flush that is answered reports how the last finished write went, and nothing older. */
  lemma {:induction false} FlushReportsLastWrite<T(!new)>(tr: seq<Sys<T>>, acts: seq<Action<T>>, i: nat, id: nat)
    requires Behaviour(tr, acts) && i < |acts| && acts[i] == AnswerFlush(id)
    ensures id in tr[i].flushes && id in tr[i + 1].flushes
    ensures tr[i + 1].flushes[id] == Answered(tr[i].flushes[id].target, LastErrors(acts, i).0 == None)
  {
    ErrorsFollow(tr, acts, i);
    assert Enabled(tr[i], acts[i]) && tr[i + 1] == Step(tr[i], acts[i]);
  }

  /** Writes reach the file in the order of their revisions, each with the value of its revision. */
  lemma {:induction false} WritesFollowRevisions<T(!new)>(tr: seq<Sys<T>>, acts: seq<Action<T>>, i: nat)
    requires Behaviour(tr, acts) && i < |tr|
    ensures forall j, k | 0 <= j < k < |tr[i].landed| :: tr[i].landed[j] < tr[i].landed[k]
    ensures tr[i].file.Holds? ==>
              tr[i].file.revision < |tr[i].history| && tr[i].file.value == tr[i].history[tr[i].file.revision]
  {
    AlwaysInv(tr, acts, i);
  }

  lemma {:induction false} StoredAlong<T(!new)>(tr: seq<Sys<T>>, acts: seq<Action<T>>, i: nat, j: nat, target: nat)
    requires Behaviour(tr, acts) && i <= j < |tr| && Stored(tr[i], target)
    ensures Stored(tr[j], target)
    decreases j
  {
    hide Step; hide Enabled; hide Stored; hide Inv;
    if i < j {
      StoredAlong(tr, acts, i, j - 1, target);
      AlwaysInv(tr, acts, j - 1);
      assert Enabled(tr[j - 1], acts[j - 1]);
      StoredStays(tr[j - 1], acts[j - 1], target);
    }
  }

  lemma {:induction false} FlushTarget<T(!new)>(tr: seq<Sys<T>>, acts: seq<Action<T>>, id: nat, i: nat, j: nat)
    requires Behaviour(tr, acts) && i < j < |tr| && acts[i] == StartFlush(id)
    ensures id in tr[j].flushes && tr[j].flushes[id].target == tr[i].shared.revision
    decreases j
  {
    assert Enabled(tr[i], acts[i]);
    assert tr[i + 1] == Step(tr[i], acts[i]);
    if j > i + 1 {
      FlushTarget(tr, acts, id, i, j - 1);
      assert Enabled(tr[j - 1], acts[j - 1]);
      assert tr[j] == Step(tr[j - 1], acts[j - 1]);
    }
  }

  /**
   * A flush answered Ok found everything up to its start in the file: from then on the file holds the
   * revision current when the flush began, or a later one.
   */
  lemma {:induction false} FlushOkIsDurable<T(!new)>(tr: seq<Sys<T>>, acts: seq<Action<T>>, id: nat, i: nat, j: nat,
                                                     k: nat)
    requires Behaviour(tr, acts) && i < j <= k < |tr| && acts[i] == StartFlush(id)
    requires id in tr[j].flushes && tr[j].flushes[id].Answered? && tr[j].flushes[id].ok
    ensures Stored(tr[k], tr[i].shared.revision)
  {
    hide Step; hide Enabled;
    FlushTarget(tr, acts, id, i, j);
    AlwaysInv(tr, acts, j);
    StoredAlong(tr, acts, j, k, tr[i].shared.revision);
  }

  /** The worker leaves only after the file is dropped and the last revision has been tried. */
  lemma {:induction false} ExitsWhenDone<T(!new)>(tr: seq<Sys<T>>, acts: seq<Action<T>>, i: nat)
    requires Behaviour(tr, acts) && i < |tr| && tr[i].worker.Exited?
    ensures tr[i].shared.closed && tr[i].shared.attempted == tr[i].shared.revision
    ensures forall j | i <= j < |tr| :: tr[j].shared == tr[i].shared && tr[j].file == tr[i].file
  {
    AlwaysInv(tr, acts, i);
    forall j | i <= j < |tr| ensures tr[j].shared == tr[i].shared && tr[j].file == tr[i].file {
      NothingAfterExit(tr, acts, i, j);
    }
  }

  lemma {:induction false} NothingAfterExit<T(!new)>(tr: seq<Sys<T>>, acts: seq<Action<T>>, i: nat, j: nat)
    requires Behaviour(tr, acts) && i <= j < |tr| && tr[i].worker.Exited?
    ensures tr[j].shared == tr[i].shared && tr[j].file == tr[i].file && tr[j].worker.Exited?
    decreases j
  {
    if i < j {
      NothingAfterExit(tr, acts, i, j - 1);
      AlwaysInv(tr, acts, j - 1);
      assert Enabled(tr[j - 1], acts[j - 1]);
      assert tr[j] == Step(tr[j - 1], acts[j - 1]);
    }
  }

  /** A file that could not be read is never written. */
  lemma {:induction false} UnreadableIsKept<T(!new)>(tr: seq<Sys<T>>, acts: seq<Action<T>>, i: nat)
    requires Behaviour(tr, acts) && i < |tr| && tr[0].shared.readError.Some?
    ensures tr[i].file.Original? && tr[i].landed == []
  {
    ReadErrorStays(tr, acts, i);
    AlwaysInv(tr, acts, i);
  }

  lemma {:induction false} ReadErrorStays<T(!new)>(tr: seq<Sys<T>>, acts: seq<Action<T>>, i: nat)
    requires Behaviour(tr, acts) && i < |tr|
    ensures tr[i].shared.readError == tr[0].shared.readError
  {
    if i > 0 {
      ReadErrorStays(tr, acts, i - 1);
      assert Enabled(tr[i - 1], acts[i - 1]);
      assert tr[i] == Step(tr[i - 1], acts[i - 1]);
    }
  }

  // ---------- progress ----------

  /** While a flush waits, the worker has a step to take. */
  lemma {:induction false} WorkerCanMove<T(!new)>(tr: seq<Sys<T>>, acts: seq<Action<T>>, i: nat, id: nat)
    requires Behaviour(tr, acts) && i < |tr|
    requires id in tr[i].flushes && tr[i].flushes[id].Open? && tr[i].shared.attempted < tr[i].flushes[id].target
    ensures Enabled(tr[i], Take) || (forall error :: Enabled(tr[i], Write(error, true))) || Enabled(tr[i], FinishWrite)
  {
    AlwaysInv(tr, acts, i);
  }

  function Finishes<T>(acts: seq<Action<T>>, first: nat, end: nat): nat
    requires first <= end <= |acts|
    decreases end
  {
    if first == end then 0 else Finishes(acts, first, end - 1) + (if acts[end - 1].FinishWrite? then 1 else 0)
  }

  /** How far the worker has come with a revision: tried, on its way, or not seen yet. */
  predicate Served<T>(s: Sys<T>, target: nat, finishes: nat) {
    || target <= s.shared.attempted
    || (finishes <= 1 && (s.worker.Writing? || s.worker.Wrote?) && target <= s.worker.revision)
    || (finishes <= 1 && s.worker.Waiting?)
    || finishes == 0
  }

  lemma {:induction false} ServedAlong<T(!new)>(tr: seq<Sys<T>>, acts: seq<Action<T>>, i: nat, j: nat, target: nat)
    requires Behaviour(tr, acts) && i <= j < |tr| && target <= tr[i].shared.revision
    ensures Served(tr[j], target, Finishes(acts, i, j)) && target <= tr[j].shared.revision
    decreases j
  {
    AlwaysInv(tr, acts, j);
    if i < j {
      ServedAlong(tr, acts, i, j - 1, target);
      AlwaysInv(tr, acts, j - 1);
      assert Enabled(tr[j - 1], acts[j - 1]);
      assert tr[j] == Step(tr[j - 1], acts[j - 1]);
    }
  }

  lemma {:induction false} FinishesAre<T>(acts: seq<Action<T>>, i: nat, j: nat, a: nat, b: nat)
    requires i <= a < b < j <= |acts| && acts[a].FinishWrite? && acts[b].FinishWrite?
    ensures Finishes(acts, i, j) >= 2
    decreases j
  {
    if b < j - 1 {
      FinishesAre(acts, i, j - 1, a, b);
    } else {
      OneFinish(acts, i, b, a);
    }
  }

  lemma {:induction false} OneFinish<T>(acts: seq<Action<T>>, i: nat, j: nat, a: nat)
    requires i <= a < j <= |acts| && acts[a].FinishWrite?
    ensures Finishes(acts, i, j) >= 1
    decreases j
  {
    if a < j - 1 { OneFinish(acts, i, j - 1, a); }
  }

  /** Two finished writes are enough: the first may have begun earlier, the second cannot have. */
  lemma {:induction false} TwoWritesServe<T(!new)>(tr: seq<Sys<T>>, acts: seq<Action<T>>, i: nat, a: nat, b: nat,
                                                  j: nat)
    requires Behaviour(tr, acts) && i <= a < b < j < |tr| && acts[a] == acts[b] == FinishWrite
    ensures tr[i].shared.revision <= tr[j].shared.attempted
  {
    FinishesAre(acts, i, j, a, b);
    ServedAlong(tr, acts, i, j, tr[i].shared.revision);
  }

  // ---------- the end ----------

  /** Until the file is dropped nothing keeps a client from updating it or from asking for a flush. */
  lemma {:induction false} ClientsNeverBlocked<T(!new)>(tr: seq<Sys<T>>, acts: seq<Action<T>>, i: nat, value: T,
                                                       id: nat)
    requires Behaviour(tr, acts) && i < |tr| && Drop !in acts[..i] && id !in tr[i].flushes
    ensures Enabled(tr[i], UpdateTo(value)) && Enabled(tr[i], StartFlush(id))
  {
    NotClosedYet(tr, acts, i);
  }

  lemma {:induction false} NotClosedYet<T(!new)>(tr: seq<Sys<T>>, acts: seq<Action<T>>, i: nat)
    requires Behaviour(tr, acts) && i < |tr| && Drop !in acts[..i]
    ensures !tr[i].shared.closed
  {
    if i > 0 {
      assert acts[..i] == acts[..i - 1] + [acts[i - 1]];
      NotClosedYet(tr, acts, i - 1);
      assert Enabled(tr[i - 1], acts[i - 1]) && tr[i] == Step(tr[i - 1], acts[i - 1]);
    }
  }

  predicate WorkerStep<T>(a: Action<T>) { a.Take? || a.Write? || a.FinishWrite? || a.Exit? }

  /** How many steps a worker has left once the file is dropped. */
  function StepsLeft<T>(s: Sys<T>): nat {
    match s.worker
    case Absent => 0
    case Exited => 0
    case Waiting => if s.shared.attempted == s.shared.revision then 1 else 4
    case Writing(_, revision) => if revision == s.shared.revision then 3 else 6
    case Wrote(revision, _) => if revision == s.shared.revision then 2 else 5
  }

  lemma {:induction false} StepsShrink<T>(s: Sys<T>, a: Action<T>)
    requires Inv(s) && Enabled(s, a) && s.shared.closed
    ensures Step(s, a).shared.closed
    ensures if WorkerStep(a) then StepsLeft(Step(s, a)) < StepsLeft(s) else StepsLeft(Step(s, a)) == StepsLeft(s)
  {}

  function WorkerSteps<T>(acts: seq<Action<T>>, i: nat, j: nat): nat
    requires i <= j <= |acts|
    decreases j
  {
    if i == j then 0 else WorkerSteps(acts, i, j - 1) + (if WorkerStep(acts[j - 1]) then 1 else 0)
  }

  lemma {:induction false} ClosedAlong<T(!new)>(tr: seq<Sys<T>>, acts: seq<Action<T>>, i: nat, j: nat)
    requires Behaviour(tr, acts) && i <= j < |tr| && tr[i].shared.closed
    ensures tr[j].shared.closed && StepsLeft(tr[j]) + WorkerSteps(acts, i, j) <= StepsLeft(tr[i])
    decreases j
  {
    hide Step; hide Enabled; hide Inv; hide StepsLeft;
    if i < j {
      ClosedAlong(tr, acts, i, j - 1);
      AlwaysInv(tr, acts, j - 1);
      assert Enabled(tr[j - 1], acts[j - 1]);
      StepsShrink(tr[j - 1], acts[j - 1]);
    }
  }

  /**
   * After the file is dropped the worker always has a step to take until it has left, and after six of
   * its steps it has, with the last revision tried.
   */
  lemma {:induction false} DropEndsWorker<T(!new)>(tr: seq<Sys<T>>, acts: seq<Action<T>>, i: nat, j: nat)
    requires Behaviour(tr, acts) && i < j < |tr| && acts[i] == Drop
    ensures tr[j].worker.Exited? || tr[j].worker.Absent? || exists a: Action<T> :: WorkerStep(a) && Enabled(tr[j], a)
    ensures WorkerSteps(acts, i + 1, j) >= 6 ==> tr[j].worker.Exited? || tr[j].worker.Absent?
    ensures WorkerSteps(acts, i + 1, j) <= 6
  {
    assert Enabled(tr[i], acts[i]) && tr[i + 1] == Step(tr[i], acts[i]);
    ClosedAlong(tr, acts, i + 1, j);
    AlwaysInv(tr, acts, j);
    match tr[j].worker {
      case Waiting => assert Enabled(tr[j], if Done(tr[j].shared) then Exit else Take);
      case Writing(_, _) => assert Enabled(tr[j], Write(None, true));
      case Wrote(_, _) => assert Enabled(tr[j], FinishWrite);
      case _ =>
    }
  }
}
