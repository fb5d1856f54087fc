/**
 The shared quota of all spools under any interleaving of their threads: one atomic counter, reserved
 by a compare-and-swap loop frame by frame, released by rollback and drop.
 */
module SpoolQuota {

  import opened Options

  const U64_MAX := 0xFFFF_FFFF_FFFF_FFFF

  type SpoolId = nat

  /** Where a thread is inside the page it is appending. */
  datatype Work =
    | Between
    | Observed(current: nat, bytes: nat)
    | Writing(left: nat)
    | Failed
    | Truncated

  datatype Phase = Ready | Page(offset: nat, reserved: nat, work: Work)

  /** A live spool: the length of its file, the bytes it holds, and its page in progress. */
  datatype Account = Account(length: nat, held: nat, phase: Phase)

  datatype Quota = Quota(limit: nat, counter: nat, spools: map<SpoolId, Account>)

  /** What a thread does to the account of its own spool. */
  datatype Move =
    | Began
    | Took(bytes: nat)
    | Refused
    | Wrote(n: nat)
    | Framed
    | Broke
    | Kept
    | Cut(ok: bool)
    | GaveBack

  /** Bytes are taken or refused only by the reservation loop; any other move a thread makes by itself. */
  datatype Action =
    | Create(s: SpoolId)
    | LoadCounter(s: SpoolId, bytes: nat)
    | CompareAndSwap(s: SpoolId)
    | Act(s: SpoolId, move: Move)
    | Drop(s: SpoolId)

  predicate InWork(account: Account) { account.phase.Page? }

  predicate CanMove(account: Account, m: Move) {
    match m
    case Began => account.phase.Ready?
    case Took(_) => InWork(account) && account.phase.work.Between?
    case Refused => InWork(account) && account.phase.work.Between?
    case Wrote(n) => InWork(account) && account.phase.work.Writing? && n <= account.phase.work.left
    case Framed => InWork(account) && account.phase.work == Writing(0)
    case Broke => InWork(account) && (account.phase.work.Between? || account.phase.work.Writing?)
    case Kept => InWork(account) && account.phase.work.Between?
    case Cut(_) => InWork(account) && account.phase.work.Failed?
    case GaveBack => InWork(account) && account.phase.work.Truncated?
  }

  function Working(account: Account, work: Work): Account
    requires InWork(account)
  {
    account.(phase := account.phase.(work := work))
  }

  function Moved(account: Account, m: Move): Account
    requires CanMove(account, m)
  {
    var Account(length, held, phase) := account;
    match m
    case Began => account.(phase := Page(length, 0, Between))
    case Took(bytes) => account.(phase := Page(phase.offset, phase.reserved + bytes, Writing(bytes)))
    case Refused => Working(account, Failed)
    case Wrote(n) => Working(account, Writing(phase.work.left - n)).(length := length + n)
    case Framed => Working(account, Between)
    case Broke => Working(account, Failed)
    case Kept => Account(length, held + phase.reserved, Ready)
    case Cut(ok) =>
      if ok then Working(account, Truncated).(length := phase.offset)
      else Account(length, held + phase.reserved, Ready)
    case GaveBack => account.(phase := Ready)
  }

  /** The account as its own thread sees it: having looked at the counter is no move. */
  function View(account: Account): Account {
    if InWork(account) && account.phase.work.Observed? then Working(account, Between) else account
  }

  predicate Looking(q: Quota, s: SpoolId) {
    s in q.spools && InWork(q.spools[s]) && q.spools[s].phase.work.Observed?
  }

  /** One turn of the reservation loop: refuse, take the bytes, or look again. */
  function Turn(q: Quota, s: SpoolId): Option<Move>
    requires Looking(q, s)
  {
    var Observed(current, bytes) := q.spools[s].phase.work;
    if current + bytes > U64_MAX || current + bytes > q.limit then Some(Refused)
    else if q.counter == current then Some(Took(bytes))
    else None
  }

  predicate Enabled(q: Quota, a: Action) {
    match a
    case Create(s) => s !in q.spools
    case LoadCounter(s, _) => s in q.spools && InWork(q.spools[s]) && q.spools[s].phase.work.Between?
    case CompareAndSwap(s) => Looking(q, s)
    case Act(s, m) => !m.Took? && !m.Refused? && s in q.spools && CanMove(q.spools[s], m)
    case Drop(s) => s in q.spools && q.spools[s].phase.Ready?
  }

  /** `fetch_sub` on a 64-bit counter wraps around. */
  function WrappingSub(counter: nat, n: nat): nat {
    if n <= counter then counter - n else (counter + U64_MAX + 1 - n % (U64_MAX + 1)) % (U64_MAX + 1)
  }

  function Put(q: Quota, s: SpoolId, account: Account): Quota { q.(spools := q.spools[s := account]) }

  /** What a move does to the shared counter. */
  function Counted(q: Quota, s: SpoolId, m: Move): nat
    requires s in q.spools && CanMove(View(q.spools[s]), m)
  {
    match m
    case Took(bytes) => q.counter + bytes
    case GaveBack => WrappingSub(q.counter, q.spools[s].phase.reserved)
    case _ => q.counter
  }

  function Do(q: Quota, s: SpoolId, m: Move): Quota
    requires s in q.spools && CanMove(View(q.spools[s]), m)
  {
    Put(q.(counter := Counted(q, s, m)), s, Moved(View(q.spools[s]), m))
  }

  function Look(q: Quota, s: SpoolId, bytes: nat): Quota
    requires s in q.spools && InWork(q.spools[s])
  {
    Put(q, s, Working(q.spools[s], Observed(q.counter, bytes)))
  }

  function Step(q: Quota, a: Action): Quota
    requires Enabled(q, a)
  {
    match a
    case Create(s) => Put(q, s, Account(0, 0, Ready))
    case LoadCounter(s, bytes) => Look(q, s, bytes)
    case CompareAndSwap(s) =>
      (match Turn(q, s)
       case Some(m) => Do(q, s, m)
       case None => Look(q, s, q.spools[s].phase.work.bytes))
    case Act(s, m) => Do(q, s, m)
    case Drop(s) => q.(counter := WrappingSub(q.counter, q.spools[s].held), spools := q.spools - {s})
  }

  // ---------- what is charged ----------

  /** What a spool holds, its page in progress included. */
  function Charge(a: Account): nat {
    a.held + (if a.phase.Page? then a.phase.reserved else 0)
  }

  ghost function Total(spools: map<SpoolId, Account>): nat {
    if spools == map[] then 0
    else
      var s :| s in spools;
      Charge(spools[s]) + Total(spools - {s})
  }

  lemma {:induction false} TotalSplit(spools: map<SpoolId, Account>, s: SpoolId)
    requires s in spools
    ensures Total(spools) == Charge(spools[s]) + Total(spools - {s})
    decreases |spools|
  {
    var p :| p in spools && Total(spools) == Charge(spools[p]) + Total(spools - {p});
    if p != s {
      TotalSplit(spools - {p}, s);
      TotalSplit(spools - {s}, p);
      assert spools - {p} - {s} == spools - {s} - {p};
    }
  }

  lemma {:induction false} TotalPut(spools: map<SpoolId, Account>, s: SpoolId, a: Account)
    ensures Total(spools[s := a]) == Charge(a) + Total(spools - {s})
    ensures s in spools ==> Total(spools) == Charge(spools[s]) + Total(spools - {s})
    ensures s !in spools ==> Total(spools) == Total(spools - {s})
  {
    TotalSplit(spools[s := a], s);
    assert spools[s := a] - {s} == spools - {s};
    if s in spools { TotalSplit(spools, s); } else { assert spools - {s} == spools; }
  }

  /** A file is never longer than the bytes charged for it, whatever of a frame reached it. */
  ghost predicate Covered(a: Account) {
    match a.phase
    case Ready => a.length <= a.held
    case Page(offset, reserved, work) =>
      && offset <= a.held
      && (match work
          case Writing(left) => a.length + left <= a.held + reserved
          case Truncated => a.length == offset
          case _ => a.length <= a.held + reserved)
  }

  /** Conservation: the counter is exactly what the live spools hold, within the limit. */
  ghost predicate Inv(q: Quota) {
    && q.counter == Total(q.spools) <= q.limit <= U64_MAX
    && forall s | s in q.spools :: Covered(q.spools[s])
  }

  lemma {:induction false} NeverMoreThanTotal(q: Quota, s: SpoolId)
    requires Inv(q) && s in q.spools
    ensures Charge(q.spools[s]) <= q.counter
  {
    TotalSplit(q.spools, s);
  }

  lemma {:induction false} StepConserves(q: Quota, a: Action)
    requires Inv(q) && Enabled(q, a)
    ensures var t := Step(q, a); t.counter == Total(t.spools) <= t.limit <= U64_MAX
  {
    hide Covered;
    var s := a.s;
    var t := Step(q, a);
    if s in q.spools { NeverMoreThanTotal(q, s); }
    if s in t.spools {
      TotalPut(q.spools, s, t.spools[s]);
    } else {
      TotalSplit(q.spools, s);
    }
  }

  lemma {:induction false} StepCovers(q: Quota, a: Action)
    requires Enabled(q, a) && forall s | s in q.spools :: Covered(q.spools[s])
    ensures var t := Step(q, a); forall s | s in t.spools :: Covered(t.spools[s])
  {
    hide WrappingSub;
    assert a.s in q.spools ==> Covered(q.spools[a.s]);
  }

  lemma {:induction false} StepKeeps(q: Quota, a: Action)
    requires Inv(q) && Enabled(q, a)
    ensures Inv(Step(q, a))
  {
    StepConserves(q, a);
    StepCovers(q, a);
    hide Step; hide Enabled; hide Covered;
  }

  ghost predicate Behaviour(tr: seq<Quota>, acts: seq<Action>) {
    && |tr| == |acts| + 1
    && tr[0].counter == 0 && tr[0].spools == map[] && tr[0].limit <= U64_MAX
    && forall i | 0 <= i < |acts| :: Enabled(tr[i], acts[i]) && tr[i + 1] == Step(tr[i], acts[i])
  }

  lemma {:induction false} AlwaysInv(tr: seq<Quota>, acts: seq<Action>, i: nat)
    requires Behaviour(tr, acts) && i < |tr|
    ensures Inv(tr[i])
  {
    hide Inv; hide Enabled; hide Step;
    if i == 0 {
      EmptyInv(tr[0]);
    } else {
      AlwaysInv(tr, acts, i - 1);
      assert Enabled(tr[i - 1], acts[i - 1]);
      StepKeeps(tr[i - 1], acts[i - 1]);
    }
  }

  lemma {:induction false} EmptyInv(q: Quota)
    requires q.counter == 0 && q.spools == map[] && q.limit <= U64_MAX
    ensures Inv(q)
  {
  }

  /**
   In every reachable state of every interleaving the shared counter is the sum of what the live spools
   hold, stays within the limit, and each file is no longer than its charge; with no spool left it is 0.
   */
  lemma {:induction false} QuotaConserved(tr: seq<Quota>, acts: seq<Action>, i: nat)
    requires Behaviour(tr, acts) && i < |tr|
    ensures tr[i].counter == Total(tr[i].spools) <= tr[i].limit
    ensures forall s | s in tr[i].spools :: tr[i].spools[s].length <= Charge(tr[i].spools[s])
    ensures tr[i].spools == map[] ==> tr[i].counter == 0
  {
    AlwaysInv(tr, acts, i);
    forall s | s in tr[i].spools ensures tr[i].spools[s].length <= Charge(tr[i].spools[s]) {
      assert Covered(tr[i].spools[s]);
    }
  }

  /** Neither a rollback nor a drop ever takes more than the counter holds. */
  lemma {:induction false} NeverUnderflows(tr: seq<Quota>, acts: seq<Action>, i: nat)
    requires Behaviour(tr, acts) && i < |acts|
    ensures acts[i].Act? && acts[i].move.GaveBack? ==>
              && acts[i].s in tr[i].spools && InWork(tr[i].spools[acts[i].s])
              && tr[i].spools[acts[i].s].phase.reserved <= tr[i].counter
              && tr[i + 1].counter == tr[i].counter - tr[i].spools[acts[i].s].phase.reserved
    ensures acts[i].Drop? ==>
              && acts[i].s in tr[i].spools && tr[i].spools[acts[i].s].held <= tr[i].counter
              && tr[i + 1].counter == tr[i].counter - tr[i].spools[acts[i].s].held
  {
    AlwaysInv(tr, acts, i);
    assert Enabled(tr[i], acts[i]) && tr[i + 1] == Step(tr[i], acts[i]);
    if acts[i].Act? || acts[i].Drop? { NeverMoreThanTotal(tr[i], acts[i].s); }
  }

  // ---------- what is refused ----------

  /**
   A thread between two frames can always ask for bytes. Undisturbed it gets them exactly when they fit,
   and the counter grows by them; otherwise the page fails and the counter stays.
   */
  lemma {:induction false} ReserveAlone(q: Quota, s: SpoolId, bytes: nat)
    requires s in q.spools && InWork(q.spools[s]) && q.spools[s].phase.work == Between && q.limit <= U64_MAX
    ensures Enabled(q, LoadCounter(s, bytes))
    ensures var looked := Step(q, LoadCounter(s, bytes));
      && Enabled(looked, CompareAndSwap(s))
      && var done := Step(looked, CompareAndSwap(s));
         if q.counter + bytes <= q.limit
         then done == Put(q.(counter := q.counter + bytes), s,
                          q.spools[s].(phase := Page(q.spools[s].phase.offset, q.spools[s].phase.reserved + bytes,
                                                     Writing(bytes))))
         else done == Put(q, s, Working(q.spools[s], Failed))
  {}

  /** In any interleaving bytes are taken only when they fit, and refused only when last seen not to fit. */
  lemma {:induction false} TurnDecides(q: Quota, s: SpoolId)
    requires Looking(q, s) && q.limit <= U64_MAX
    ensures var Observed(current, bytes) := q.spools[s].phase.work;
      && Turn(q, s) == (if current + bytes > q.limit then Some(Refused)
                        else if q.counter == current then Some(Took(bytes)) else None)
      && (Turn(q, s) == None ==> Step(q, CompareAndSwap(s)).spools[s].phase.work == Observed(q.counter, bytes))
  {}

  // ---------- one spool's own moves ----------

  /** The account after a spool's moves from its creation, if they are moves it can make. */
  function Replay(moves: seq<Move>): Option<Account> {
    if moves == [] then Some(Account(0, 0, Ready))
    else
      match Replay(moves[..|moves| - 1])
      case None => None
      case Some(account) =>
        var m := moves[|moves| - 1];
        if CanMove(account, m) then Some(Moved(account, m)) else None
  }

  lemma {:induction false} ReplayOne(moves: seq<Move>, m: Move)
    ensures Replay(moves).Some? && CanMove(Replay(moves).value, m) ==>
              Replay(moves + [m]) == Some(Moved(Replay(moves).value, m))
  {
    assert (moves + [m])[..|moves|] == moves;
  }

  function MoveOf(q: Quota, a: Action): Option<Move>
    requires Enabled(q, a)
  {
    match a
    case CompareAndSwap(s) => Turn(q, s)
    case Act(_, m) => Some(m)
    case _ => None
  }

  /** The moves of spool `s` since it was last created, in the order of the run. */
  ghost function Moves(tr: seq<Quota>, acts: seq<Action>, s: SpoolId, i: nat): seq<Move>
    requires Behaviour(tr, acts) && i < |tr|
  {
    if i == 0 then []
    else
      var a := acts[i - 1];
      if a.s != s then Moves(tr, acts, s, i - 1)
      else if a.Create? || a.Drop? then []
      else
        match MoveOf(tr[i - 1], a)
        case None => Moves(tr, acts, s, i - 1)
        case Some(m) => Moves(tr, acts, s, i - 1) + [m]
  }

  /** One step changes the view of a spool by the move it makes, and by nothing else. */
  lemma {:induction false} StepMoves(q: Quota, a: Action, s: SpoolId)
    requires Enabled(q, a) && s in q.spools && s in Step(q, a).spools
    ensures if a.s == s && MoveOf(q, a).Some?
            then CanMove(View(q.spools[s]), MoveOf(q, a).value)
                 && View(Step(q, a).spools[s]) == Moved(View(q.spools[s]), MoveOf(q, a).value)
            else View(Step(q, a).spools[s]) == View(q.spools[s])
  {
    hide WrappingSub;
  }

  /** In any interleaving, a spool's account is what its own moves make it. */
  lemma {:induction false} AccountIsReplay(tr: seq<Quota>, acts: seq<Action>, s: SpoolId, i: nat)
    requires Behaviour(tr, acts) && i < |tr|
    ensures s in tr[i].spools ==> Replay(Moves(tr, acts, s, i)) == Some(View(tr[i].spools[s]))
    ensures s !in tr[i].spools ==> Moves(tr, acts, s, i) == []
  {
    hide CanMove; hide Moved;
    if i > 0 {
      var q, a := tr[i - 1], acts[i - 1];
      assert Enabled(q, a) && tr[i] == Step(q, a);
      AccountIsReplay(tr, acts, s, i - 1);
      if s in q.spools && s in tr[i].spools {
        StepMoves(q, a, s);
        if a.s == s && MoveOf(q, a).Some? { ReplayOne(Moves(tr, acts, s, i - 1), MoveOf(q, a).value); }
      }
    }
  }
}
