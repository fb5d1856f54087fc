/**
 The persistence protocol of the workspace store as a state machine: client threads that save,
 flush, prefetch, forget, allow and hand out save tokens; one writer thread; the queue between
 them; the one-slot wake channel; the read cache with its logical clock; and the file lock.

 Every action is one critical section of the code (or one unlocked instruction such as the wake),
 so a behaviour is any interleaving of the threads. `R` is the workspace record and `clamp` the
 normaliser applied whenever a record is written to disk or read back from it.
 */
module WorkspaceProtocol {

  import opened Options

  type Uuid = nat
  type FlushId = nat
  type PrefetchId = nat
  type AllowId = nat
  type TokenId = nat

  // ---------- the queue ----------

  datatype Entry<R> = Entry(sequence: nat, state: R)

  datatype Queue<R> = Queue(
    forgotten: set<Uuid>,
    saveTokens: map<Uuid, TokenId>,
    nextSequence: nat,
    persistedSequence: nat,
    pending: map<Uuid, Entry<R>>,
    flushes: seq<(nat, FlushId)>)

  function QueueSave<R>(q: Queue<R>, id: Uuid, state: R): Queue<R> {
    q.(nextSequence := q.nextSequence + 1,
       pending := q.pending[id := Entry(q.nextSequence + 1, state)])
  }

  /** A flush with nothing outstanding is answered at once and never enters the queue. */
  predicate AnsweredAtOnce<R>(q: Queue<R>) {
    q.persistedSequence >= q.nextSequence
  }

  function QueueFlush<R>(q: Queue<R>, f: FlushId): Queue<R> {
    if AnsweredAtOnce(q) then q else q.(flushes := q.flushes + [(q.nextSequence, f)])
  }

  /** A failed batch goes back unless a newer save of the same connection is already queued. */
  function Restored<R>(pending: map<Uuid, Entry<R>>, batch: map<Uuid, Entry<R>>): map<Uuid, Entry<R>> {
    map id | id in pending.Keys + batch.Keys ::
      if id in pending && (id !in batch || pending[id].sequence >= batch[id].sequence)
      then pending[id] else batch[id]
  }

  /** The flushes a completed attempt leaves waiting. */
  function Waiting(flushes: seq<(nat, FlushId)>, sequence: nat): (rest: seq<(nat, FlushId)>)
    ensures forall w | w in rest :: w in flushes && w.0 > sequence
    ensures forall w | w in flushes && w.0 > sequence :: w in rest
  {
    if flushes == [] then []
    else
      var last := flushes[|flushes| - 1];
      Waiting(flushes[..|flushes| - 1], sequence) + (if last.0 > sequence then [last] else [])
  }

  function QueueComplete<R>(q: Queue<R>, sequence: nat, ok: bool): Queue<R> {
    q.(persistedSequence := if ok && sequence > q.persistedSequence then sequence else q.persistedSequence,
       flushes := Waiting(q.flushes, sequence))
  }

  // ---------- memory, writer, clients ----------

  datatype Memory<R> = Memory(cache: map<Uuid, Option<R>>, savedAt: map<Uuid, nat>, clock: nat)

  /** Where the writer thread is in its loop. It holds the file lock exactly while `Filtered`. */
  datatype Writer<R> =
    | Idle
    | Woken
    | Took(batch: map<Uuid, Entry<R>>, attempted: nat)
    | Filtered(batch: map<Uuid, Entry<R>>, attempted: nat, updates: map<Uuid, Entry<R>>)
    | Wrote(batch: map<Uuid, Entry<R>>, attempted: nat, ok: bool)
  {
    predicate InFlight() { Took? || Filtered? || Wrote? }
  }

  /** The caller's side of a flush: its target, whether its wake was sent, and its answer. */
  datatype Flush = Flush(target: nat, woken: bool, answer: Option<bool>)

  datatype Prefetch<R> =
    | Begun(ids: set<Uuid>, started: nat)
    | Flushing(ids: set<Uuid>, started: nat, flush: FlushId)
    | Loaded(ids: set<Uuid>, started: nat, content: map<Uuid, R>, unreadable: set<Uuid>)

  datatype Allow = Checked(id: Uuid) | Draining(id: Uuid, flush: FlushId)

  datatype Token = Token(owner: Uuid, valid: bool, held: bool)

  /** A save the store accepted; the save with sequence number n is `log[n - 1]`. */
  datatype Save<R> = Save(id: Uuid, state: R, clock: nat)

  /**
   What happened, kept beside the state so that properties can be stated. No action's guard or
   effect on the fields of the code looks at it.
   - `onDisk` and `inCache` number the save a stored record came from (0: found on disk at start);
   - `mark[id]` is the number of saves accepted before the last forget of `id` began;
   - `begunAt[p]` is the number of saves accepted when prefetch `p` began;
   - `loadedFrom[p]` numbers the saves its loaded records came from.
   */
  datatype History<R> = History(
    log: seq<Save<R>>,
    onDisk: map<Uuid, nat>,
    inCache: map<Uuid, nat>,
    mark: map<Uuid, nat>,
    begunAt: map<PrefetchId, nat>,
    loadedFrom: map<PrefetchId, map<Uuid, nat>>)

  datatype Sys<R> = Sys(
    mem: Memory<R>,
    q: Queue<R>,
    wake: bool,
    writer: Writer<R>,
    disk: map<Uuid, R>,
    forgetting: Option<Uuid>,
    flushes: map<FlushId, Flush>,
    prefetches: map<PrefetchId, Prefetch<R>>,
    allows: map<AllowId, Allow>,
    tokens: map<TokenId, Token>,
    h: History<R>)

  predicate LockFree<R>(s: Sys<R>) {
    !s.writer.Filtered? && s.forgetting.None?
  }

  ghost predicate Init<R>(s: Sys<R>) {
    && s.mem == Memory(map[], map[], 0)
    && s.q == Queue({}, map[], 0, 0, map[], [])
    && !s.wake && s.writer == Idle && s.forgetting == None
    && s.flushes == map[] && s.prefetches == map[] && s.allows == map[] && s.tokens == map[]
    && s.h == History([], map id | id in s.disk :: 0, map[], map[], map[], map[])
  }

  // ---------- actions ----------

  datatype Action<R> =
    | SaveConnection(id: Uuid, state: R, token: Option<TokenId>)
    | WakeWriter
    | FlushStart(f: FlushId)
    | FlushWake(f: FlushId)
    | WriterReceive
    | WriterTake
    | WriterFilter
    | WriterWrite(ok: bool, landed: bool)
    | WriterComplete
    | PrefetchBegin(p: PrefetchId, ids: set<Uuid>)
    | PrefetchFlush(p: PrefetchId, f: FlushId)
    | PrefetchLoad(p: PrefetchId, unreadable: set<Uuid>)
    | PrefetchInstall(p: PrefetchId)
    | PrefetchAbort(p: PrefetchId)
    | ForgetMark(id: Uuid)
    | ForgetRemove(ok: bool)
    | AllowCheck(a: AllowId, id: Uuid)
    | AllowFlush(a: AllowId, f: FlushId)
    | AllowLift(a: AllowId)
    | AllowAbort(a: AllowId)
    | IssueToken(id: Uuid, t: TokenId)
    | DropToken(t: TokenId)

  predicate FlushReturned<R>(s: Sys<R>, f: FlushId, ok: bool) {
    f in s.flushes && s.flushes[f].woken && s.flushes[f].answer == Some(ok)
  }

  predicate Enabled<R>(s: Sys<R>, a: Action<R>) {
    match a
    case SaveConnection(id, _, token) =>
      && id !in s.q.forgotten
      && (token.Some? ==> token.value in s.tokens && s.tokens[token.value].held && s.tokens[token.value].valid)
    case WakeWriter => true
    case FlushStart(f) => f !in s.flushes
    case FlushWake(f) => f in s.flushes && !s.flushes[f].woken
    case WriterReceive => s.writer.Idle? && s.wake
    case WriterTake => s.writer.Woken?
    case WriterFilter => s.writer.Took? && LockFree(s)
    case WriterWrite(ok, landed) => s.writer.Filtered? && (ok ==> landed)
    case WriterComplete => s.writer.Wrote?
    case PrefetchBegin(p, _) => p !in s.prefetches
    case PrefetchFlush(p, f) => p in s.prefetches && s.prefetches[p].Begun? && f !in s.flushes
    case PrefetchLoad(p, unreadable) =>
      && p in s.prefetches && s.prefetches[p].Flushing? && LockFree(s)
      && FlushReturned(s, s.prefetches[p].flush, true)
      && unreadable <= s.disk.Keys * s.prefetches[p].ids
    case PrefetchInstall(p) => p in s.prefetches && s.prefetches[p].Loaded?
    case PrefetchAbort(p) => p in s.prefetches && s.prefetches[p].Flushing?
    case ForgetMark(_) => LockFree(s)
    case ForgetRemove(_) => s.forgetting.Some?
    case AllowCheck(a, id) => a !in s.allows && id in s.q.forgotten
    case AllowFlush(a, f) => a in s.allows && s.allows[a].Checked? && f !in s.flushes
    case AllowLift(a) =>
      && a in s.allows && s.allows[a].Draining? && LockFree(s)
      && FlushReturned(s, s.allows[a].flush, true)
    case AllowAbort(a) => a in s.allows && s.allows[a].Draining? && FlushReturned(s, s.allows[a].flush, false)
    case IssueToken(_, t) => t !in s.tokens
    case DropToken(t) => t in s.tokens
  }

  // ---------- effects ----------

  function SaveEffect<R>(s: Sys<R>, id: Uuid, state: R): Sys<R> {
    var clock := s.mem.clock + 1;
    s.(mem := Memory(s.mem.cache[id := Some(state)], s.mem.savedAt[id := clock], clock),
       q := QueueSave(s.q, id, state),
       h := s.h.(log := s.h.log + [Save(id, state, clock)],
                 inCache := s.h.inCache[id := s.q.nextSequence + 1]))
  }

  function FlushEffect<R>(s: Sys<R>, f: FlushId): Sys<R> {
    s.(q := QueueFlush(s.q, f),
       flushes := s.flushes[f := Flush(s.q.nextSequence, false, if AnsweredAtOnce(s.q) then Some(true) else None)])
  }

  function Sequences<R>(batch: map<Uuid, Entry<R>>): set<nat> {
    set id | id in batch :: batch[id].sequence
  }

  /** The largest number of a non-empty set. */
  function Largest(numbers: set<nat>): (m: nat)
    requires numbers != {}
    ensures m in numbers && forall n | n in numbers :: n <= m
  {
    LargestExists(numbers);
    var m :| m in numbers && forall n | n in numbers :: n <= m;
    m
  }

  lemma {:induction false} LargestExists(numbers: set<nat>)
    requires numbers != {}
    ensures exists m :: m in numbers && forall n | n in numbers :: n <= m
  {
    var k :| k in numbers;
    var rest := numbers - {k};
    if rest == {} {
      assert forall n | n in numbers :: n <= k by {
        forall n | n in numbers ensures n <= k { assert n == k || n in rest; }
      }
    } else {
      LargestExists(rest);
      var m :| m in rest && forall n | n in rest :: n <= m;
      var top := if k > m then k else m;
      forall n | n in numbers ensures n <= top { assert n == k || n in rest; }
      assert top in numbers;
    }
  }

  /** The newest sequence among queued saves. */
  function Newest<R>(pending: map<Uuid, Entry<R>>): nat
    requires pending != map[]
  {
    assert exists id :: id in pending && pending[id].sequence in Sequences(pending);
    Largest(Sequences(pending))
  }

  function TakeEffect<R>(s: Sys<R>): Sys<R> {
    if s.q.pending == map[] then s.(writer := Idle)
    else s.(writer := Took(s.q.pending, Newest(s.q.pending)), q := s.q.(pending := map[]))
  }

  function Unforgotten<R>(batch: map<Uuid, Entry<R>>, forgotten: set<Uuid>): map<Uuid, Entry<R>> {
    map id | id in batch && id !in forgotten :: batch[id]
  }

  function FilterEffect<R>(s: Sys<R>): Sys<R>
    requires s.writer.Took?
  {
    s.(writer := Filtered(s.writer.batch, s.writer.attempted, Unforgotten(s.writer.batch, s.q.forgotten)))
  }

  /** Publishing rewrites the whole file: every record is clamped, the batch's replace the old ones. */
  function Published<R>(disk: map<Uuid, R>, updates: map<Uuid, Entry<R>>, clamp: R -> R): map<Uuid, R> {
    map id | id in disk.Keys + updates.Keys ::
      clamp(if id in updates then updates[id].state else disk[id])
  }

  function PublishedFrom<R>(onDisk: map<Uuid, nat>, updates: map<Uuid, Entry<R>>): map<Uuid, nat> {
    map id | id in onDisk.Keys + updates.Keys :: if id in updates then updates[id].sequence else onDisk[id]
  }

  function WriteEffect<R>(s: Sys<R>, ok: bool, landed: bool, clamp: R -> R): Sys<R>
    requires s.writer.Filtered?
  {
    var w := s.writer;
    s.(writer := Wrote(w.batch, w.attempted, ok),
       disk := if landed then Published(s.disk, w.updates, clamp) else s.disk,
       h := if landed then s.h.(onDisk := PublishedFrom(s.h.onDisk, w.updates)) else s.h)
  }

  /** The senders whose target the attempt reached get its result. */
  function Answered(flushes: map<FlushId, Flush>, waiting: seq<(nat, FlushId)>, sequence: nat, ok: bool)
    : map<FlushId, Flush>
  {
    map f | f in flushes ::
      if (flushes[f].target, f) in waiting && flushes[f].target <= sequence
      then flushes[f].(answer := Some(ok)) else flushes[f]
  }

  function CompleteEffect<R>(s: Sys<R>): Sys<R>
    requires s.writer.Wrote?
  {
    var w := s.writer;
    var q := if w.ok then s.q else s.q.(pending := Restored(s.q.pending, w.batch));
    s.(writer := Idle,
       q := QueueComplete(q, w.attempted, w.ok),
       flushes := Answered(s.flushes, s.q.flushes, w.attempted, w.ok))
  }

  function ReadBack<R>(disk: map<Uuid, R>, ids: set<Uuid>, clamp: R -> R): map<Uuid, R> {
    map id | id in disk && id in ids :: clamp(disk[id])
  }

  function ReadFrom(onDisk: map<Uuid, nat>, ids: set<Uuid>): map<Uuid, nat> {
    map id | id in onDisk && id in ids :: onDisk[id]
  }

  function LoadEffect<R>(s: Sys<R>, p: PrefetchId, unreadable: set<Uuid>, clamp: R -> R): Sys<R>
    requires p in s.prefetches && s.prefetches[p].Flushing?
  {
    var pre := s.prefetches[p];
    s.(prefetches := s.prefetches[p := Loaded(pre.ids, pre.started, ReadBack(s.disk, pre.ids, clamp), unreadable)],
       h := s.h.(loadedFrom := s.h.loadedFrom[p := ReadFrom(s.h.onDisk, pre.ids)]))
  }

  /** The connections a loaded prefetch may overwrite: readable and not saved or forgotten since it began. */
  function Installable<R>(pre: Prefetch<R>, savedAt: map<Uuid, nat>): set<Uuid>
    requires pre.Loaded?
  {
    set id | id in pre.ids && id !in pre.unreadable && !(id in savedAt && savedAt[id] > pre.started)
  }

  function CacheInstalled<R>(cache: map<Uuid, Option<R>>, content: map<Uuid, R>, ids: set<Uuid>)
    : map<Uuid, Option<R>>
  {
    map id | id in cache.Keys + ids ::
      if id in ids then (if id in content then Some(content[id]) else None) else cache[id]
  }

  function InstalledFrom(inCache: map<Uuid, nat>, from: map<Uuid, nat>, ids: set<Uuid>): map<Uuid, nat> {
    map id | id in inCache.Keys + from.Keys && (if id in ids then id in from else id in inCache) ::
      if id in ids then from[id] else inCache[id]
  }

  function InstallEffect<R>(s: Sys<R>, p: PrefetchId): Sys<R>
    requires p in s.prefetches && s.prefetches[p].Loaded?
  {
    var pre := s.prefetches[p];
    var ids := Installable(pre, s.mem.savedAt);
    var from := if p in s.h.loadedFrom then s.h.loadedFrom[p] else map[];
    s.(mem := s.mem.(cache := CacheInstalled(s.mem.cache, pre.content, ids)),
       prefetches := s.prefetches - {p},
       h := s.h.(inCache := InstalledFrom(s.h.inCache, from, ids),
                 begunAt := s.h.begunAt - {p},
                 loadedFrom := s.h.loadedFrom - {p}))
  }

  /** Forgetting clears the flag of the token the store points at, if somebody still holds it. */
  function RevokedTokens(saveTokens: map<Uuid, TokenId>, tokens: map<TokenId, Token>, id: Uuid): map<TokenId, Token> {
    if id in saveTokens && saveTokens[id] in tokens && tokens[saveTokens[id]].held
    then tokens[saveTokens[id] := tokens[saveTokens[id]].(valid := false)]
    else tokens
  }

  function ForgetMarkEffect<R>(s: Sys<R>, id: Uuid): Sys<R> {
    var clock := s.mem.clock + 1;
    s.(mem := Memory(s.mem.cache - {id}, s.mem.savedAt[id := clock], clock),
       q := s.q.(forgotten := s.q.forgotten + {id}, saveTokens := s.q.saveTokens - {id}),
       forgetting := Some(id),
       tokens := RevokedTokens(s.q.saveTokens, s.tokens, id),
       h := s.h.(mark := s.h.mark[id := s.q.nextSequence], inCache := s.h.inCache - {id}))
  }

  function ForgetRemoveEffect<R>(s: Sys<R>, ok: bool): Sys<R>
    requires s.forgetting.Some?
  {
    var id := s.forgetting.value;
    if ok then s.(forgetting := None, disk := s.disk - {id}, h := s.h.(onDisk := s.h.onDisk - {id}))
    else s.(forgetting := None)
  }

  /** The weak references that still lead to a token somebody holds. */
  function LiveTokens(saveTokens: map<Uuid, TokenId>, tokens: map<TokenId, Token>): map<Uuid, TokenId> {
    map c | c in saveTokens && saveTokens[c] in tokens && tokens[saveTokens[c]].held :: saveTokens[c]
  }

  /** The store's references after handing out a token for `id`: a live one is shared, else `t` is new. */
  function IssuedRefs(saveTokens: map<Uuid, TokenId>, tokens: map<TokenId, Token>, forgotten: set<Uuid>,
                      id: Uuid, t: TokenId): map<Uuid, TokenId>
  {
    var live := LiveTokens(saveTokens, tokens);
    if id in forgotten then saveTokens else if id in live then live else live[id := t]
  }

  /** A token for a forgotten connection is born invalid. */
  function IssuedTokens(saveTokens: map<Uuid, TokenId>, tokens: map<TokenId, Token>, forgotten: set<Uuid>,
                        id: Uuid, t: TokenId): map<TokenId, Token>
  {
    if id in forgotten then tokens[t := Token(id, false, true)]
    else if id in LiveTokens(saveTokens, tokens) then tokens
    else tokens[t := Token(id, true, true)]
  }

  function IssueEffect<R>(s: Sys<R>, id: Uuid, t: TokenId): Sys<R> {
    s.(q := s.q.(saveTokens := IssuedRefs(s.q.saveTokens, s.tokens, s.q.forgotten, id, t)),
       tokens := IssuedTokens(s.q.saveTokens, s.tokens, s.q.forgotten, id, t))
  }

  function Step<R>(s: Sys<R>, a: Action<R>, clamp: R -> R): Sys<R>
    requires Enabled(s, a)
  {
    match a
    case SaveConnection(id, state, _) => SaveEffect(s, id, state)
    case WakeWriter => s.(wake := true)
    case FlushStart(f) => FlushEffect(s, f)
    case FlushWake(f) => s.(wake := true, flushes := s.flushes[f := s.flushes[f].(woken := true)])
    case WriterReceive => s.(wake := false, writer := Woken)
    case WriterTake => TakeEffect(s)
    case WriterFilter => FilterEffect(s)
    case WriterWrite(ok, landed) => WriteEffect(s, ok, landed, clamp)
    case WriterComplete => CompleteEffect(s)
    case PrefetchBegin(p, ids) =>
      s.(prefetches := s.prefetches[p := Begun(ids, s.mem.clock)],
         h := s.h.(begunAt := s.h.begunAt[p := s.q.nextSequence]))
    case PrefetchFlush(p, f) =>
      var pre := s.prefetches[p];
      FlushEffect(s, f).(prefetches := s.prefetches[p := Flushing(pre.ids, pre.started, f)])
    case PrefetchLoad(p, unreadable) => LoadEffect(s, p, unreadable, clamp)
    case PrefetchInstall(p) => InstallEffect(s, p)
    case PrefetchAbort(p) => s.(prefetches := s.prefetches - {p})
    case ForgetMark(id) => ForgetMarkEffect(s, id)
    case ForgetRemove(ok) => ForgetRemoveEffect(s, ok)
    case AllowCheck(a, id) => s.(allows := s.allows[a := Checked(id)])
    case AllowFlush(a, f) => FlushEffect(s, f).(allows := s.allows[a := Draining(s.allows[a].id, f)])
    case AllowLift(a) =>
      s.(q := s.q.(forgotten := s.q.forgotten - {s.allows[a].id}), allows := s.allows - {a})
    case AllowAbort(a) => s.(allows := s.allows - {a})
    case IssueToken(id, t) => IssueEffect(s, id, t)
    case DropToken(t) => s.(tokens := s.tokens[t := s.tokens[t].(held := false)])
  }
}
