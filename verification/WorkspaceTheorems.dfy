/**
 What the workspace store promises over whole behaviours: any interleaving of clients and writer.
 */
module WorkspaceTheorems {

  import opened Options
  import opened WorkspaceProtocol
  import opened WorkspaceSafety

  ghost predicate Behaviour<R>(tr: seq<Sys<R>>, acts: seq<Action<R>>, clamp: R -> R) {
    && |tr| == |acts| + 1
    && Init(tr[0])
    && forall i | 0 <= i < |acts| :: Enabled(tr[i], acts[i]) && tr[i + 1] == Step(tr[i], acts[i], clamp)
  }

  lemma {:induction false} AlwaysInv<R(!new)>(tr: seq<Sys<R>>, acts: seq<Action<R>>, clamp: R -> R, i: nat)
    requires Idempotent(clamp) && Behaviour(tr, acts, clamp) && i < |tr|
    ensures Inv(tr[i], clamp)
  {
    hide Inv; hide Idempotent; hide Step; hide Enabled;
    if i == 0 {
      InitInv(tr[0], clamp);
    } else {
      AlwaysInv(tr, acts, clamp, i - 1);
      assert Enabled(tr[i - 1], acts[i - 1]);
      StepKeeps(tr[i - 1], acts[i - 1], clamp);
    }
  }

  // ---------- what never changes ----------

  /** The log only grows, flush targets are fixed, and marks only rise. */
  ghost predicate Later<R>(s: Sys<R>, t: Sys<R>) {
    && s.h.log <= t.h.log
    && (forall f | f in s.flushes :: f in t.flushes && t.flushes[f].target == s.flushes[f].target)
    && (forall id | id in s.h.mark :: id in t.h.mark && s.h.mark[id] <= t.h.mark[id])
  }

  lemma {:induction false} InvParts<R>(s: Sys<R>, clamp: R -> R)
    requires Inv(s, clamp)
    ensures LogInv(s.q, s.mem, s.h.log) && QueueInv(s.q, s.writer, s.h.log) && NewestInv(s.q, s.writer, s.h.log)
    ensures CoverInv(s.q, s.writer, s.h) && DiskInv(s.q, s.writer, s.disk, s.h, clamp)
    ensures ForgottenInv(s.q, s.forgetting, s.writer, s.h) && FlushInv(s.q, s.flushes)
    ensures WakeInv(s.flushes, s.wake, s.writer) && CacheInv(s.mem, s.h, clamp)
  {
    hide LogInv; hide QueueInv; hide NewestInv; hide CoverInv; hide DiskInv; hide ForgottenInv; hide FlushInv;
    hide WakeInv; hide CacheInv; hide PrefetchInv;
  }

  ghost predicate Counted<R>(s: Sys<R>) {
    && FlushInv(s.q, s.flushes)
    && s.q.nextSequence == |s.h.log| && forall id | id in s.h.mark :: s.h.mark[id] <= |s.h.log|
  }

  lemma {:induction false} InvCounts<R>(s: Sys<R>, clamp: R -> R)
    requires Inv(s, clamp)
    ensures Counted(s)
  {
    InvParts(s, clamp);
    hide Inv; hide QueueInv; hide NewestInv; hide CoverInv; hide DiskInv; hide FlushInv; hide WakeInv; hide CacheInv;
  }

  lemma {:induction false} StepIsLater<R>(s: Sys<R>, a: Action<R>, clamp: R -> R)
    requires Counted(s) && Enabled(s, a)
    ensures Later(s, Step(s, a, clamp))
  {
    hide SaveEffect; hide FlushEffect; hide TakeEffect; hide FilterEffect; hide WriteEffect; hide CompleteEffect;
    hide LoadEffect; hide InstallEffect; hide IssueEffect; hide ForgetMarkEffect; hide ForgetRemoveEffect;
    if a.ForgetMark? {
      assert Step(s, a, clamp) == ForgetMarkEffect(s, a.id);
      MarkIsLater(s, a.id);
      hide Step; hide Enabled; hide Later; hide Counted;
    } else if a.ForgetRemove? {
      assert Step(s, a, clamp) == ForgetRemoveEffect(s, a.ok);
      RemoveIsLater(s, a.ok);
      hide Step; hide Enabled; hide Later; hide Counted;
    } else {
      StepFrames(s, a, clamp);
      hide Step; hide Enabled; hide FlushInv;
    }
  }

  lemma {:induction false} MarkIsLater<R>(s: Sys<R>, id: Uuid)
    requires Counted(s)
    ensures Later(s, ForgetMarkEffect(s, id))
  {
  }

  lemma {:induction false} RemoveIsLater<R>(s: Sys<R>, ok: bool)
    requires s.forgetting.Some?
    ensures Later(s, ForgetRemoveEffect(s, ok))
  {
  }

  /** What a step of each kind leaves alone. */
  ghost predicate Frame<R>(s: Sys<R>, a: Action<R>, t: Sys<R>) {
    && (if a.SaveConnection? then t.h.log == s.h.log + [Save(a.id, a.state, t.mem.clock)] else t.h.log == s.h.log)
    && (forall f | f in s.flushes :: f in t.flushes && FlushKept(s.flushes[f], t.flushes[f], WriterStep(a)))
    && (!WriterStep(a) ==> t.writer == s.writer)
    && (!a.WriterWrite? && !a.ForgetRemove? ==> t.h.onDisk == s.h.onDisk)
    && (!a.ForgetMark? && !a.ForgetRemove? ==> t.h.mark == s.h.mark)
  }

  /** A target is fixed, a wake stays sent, an answer is final and only the writer gives it. */
  ghost predicate FlushKept(f: Flush, g: Flush, byWriter: bool) {
    && g.target == f.target && (f.woken ==> g.woken)
    && (f.answer != None || !byWriter ==> g.answer == f.answer)
  }

  lemma {:induction false} CompleteFrames<R>(s: Sys<R>)
    requires s.writer.Wrote? && FlushInv(s.q, s.flushes)
    ensures Frame(s, WriterComplete, CompleteEffect(s))
  {
    var t := CompleteEffect(s);
    forall f | f in s.flushes ensures f in t.flushes && FlushKept(s.flushes[f], t.flushes[f], true) {}
  }

  lemma {:induction false} WriteFrames<R>(s: Sys<R>, ok: bool, landed: bool, clamp: R -> R)
    requires s.writer.Filtered?
    ensures Frame(s, WriterWrite(ok, landed), WriteEffect(s, ok, landed, clamp))
  {
    hide Published; hide PublishedFrom;
  }

  lemma {:induction false} TakeFrames<R>(s: Sys<R>)
    ensures Frame(s, WriterTake, TakeEffect(s))
    ensures s.writer.Took? ==> Frame(s, WriterFilter, FilterEffect(s))
  {
    hide Newest; hide Unforgotten;
    if s.q.pending != map[] {
      var newest := Newest(s.q.pending);
      assert TakeEffect(s) == s.(writer := Took(s.q.pending, newest), q := s.q.(pending := map[]));
    } else {
      assert TakeEffect(s) == s.(writer := Idle);
    }
  }

  lemma {:induction false} WriterFrames<R>(s: Sys<R>, a: Action<R>, clamp: R -> R)
    requires Enabled(s, a) && WriterStep(a) && FlushInv(s.q, s.flushes)
    ensures Frame(s, a, Step(s, a, clamp))
  {
    hide CompleteEffect; hide WriteEffect; hide TakeEffect; hide FilterEffect; hide FlushInv;
    match a
    case WriterReceive =>
    case WriterTake => TakeFrames(s);
    case WriterFilter => TakeFrames(s);
    case WriterWrite(ok, landed) => WriteFrames(s, ok, landed, clamp);
    case WriterComplete => CompleteFrames(s);
  }

  lemma {:induction false} LoadFrames<R>(s: Sys<R>, p: PrefetchId, unreadable: set<Uuid>, clamp: R -> R)
    requires p in s.prefetches && s.prefetches[p].Flushing?
    ensures Frame(s, PrefetchLoad(p, unreadable), LoadEffect(s, p, unreadable, clamp))
  {
    hide ReadBack; hide ReadFrom;
  }

  lemma {:induction false} InstallFrames<R>(s: Sys<R>, p: PrefetchId)
    requires p in s.prefetches && s.prefetches[p].Loaded?
    ensures Frame(s, PrefetchInstall(p), InstallEffect(s, p))
  {
    hide CacheInstalled; hide Installable; hide InstalledFrom;
  }

  lemma {:induction false} PrefetchFrames<R>(s: Sys<R>, a: Action<R>, clamp: R -> R)
    requires Enabled(s, a) && PrefetchStep(a)
    ensures Frame(s, a, Step(s, a, clamp))
  {
    hide LoadEffect; hide InstallEffect; hide QueueFlush;
    match a
    case PrefetchBegin(_, _) =>
    case PrefetchFlush(_, _) =>
    case PrefetchLoad(p, unreadable) => LoadFrames(s, p, unreadable, clamp);
    case PrefetchInstall(p) => InstallFrames(s, p);
    case PrefetchAbort(_) =>
  }

  lemma {:induction false} AllowFrames<R>(s: Sys<R>, a: Action<R>, clamp: R -> R)
    requires Enabled(s, a) && AllowStep(a)
    ensures Frame(s, a, Step(s, a, clamp))
  {
    hide FlushEffect;
    match a {
      case AllowFlush(c, f) => AllowFlushFrames(s, c, f, clamp); hide Step; hide Enabled; hide Frame;
      case AllowLift(c) => AllowLiftFrames(s, c, clamp); hide Step; hide Enabled; hide Frame;
      case AllowCheck(c, id) => assert Step(s, a, clamp) == s.(allows := s.allows[c := Checked(id)]);
      case AllowAbort(c) => assert Step(s, a, clamp) == s.(allows := s.allows - {c});
      case _ =>
    }
  }

  lemma {:induction false} AllowFlushFrames<R>(s: Sys<R>, c: AllowId, f: FlushId, clamp: R -> R)
    requires Enabled(s, AllowFlush(c, f))
    ensures Frame(s, AllowFlush(c, f), Step(s, AllowFlush(c, f), clamp))
  {
    hide QueueFlush;
    assert Step(s, AllowFlush(c, f), clamp) == FlushEffect(s, f).(allows := s.allows[c := Draining(s.allows[c].id, f)]);
  }

  lemma {:induction false} AllowLiftFrames<R>(s: Sys<R>, c: AllowId, clamp: R -> R)
    requires Enabled(s, AllowLift(c))
    ensures Frame(s, AllowLift(c), Step(s, AllowLift(c), clamp))
  {
    assert Step(s, AllowLift(c), clamp)
        == s.(q := s.q.(forgotten := s.q.forgotten - {s.allows[c].id}), allows := s.allows - {c});
  }

  lemma {:induction false} SaveFrames<R>(s: Sys<R>, id: Uuid, state: R, token: Option<TokenId>)
    ensures Frame(s, SaveConnection(id, state, token), SaveEffect(s, id, state))
  {
  }

  lemma {:induction false} FlushFrames<R>(s: Sys<R>, f: FlushId)
    requires f !in s.flushes
    ensures Frame(s, FlushStart(f), FlushEffect(s, f))
  {
  }

  lemma {:induction false} ForgetFrames<R>(s: Sys<R>, id: Uuid, ok: bool)
    ensures Frame(s, ForgetMark(id), ForgetMarkEffect(s, id))
    ensures s.forgetting.Some? ==> Frame(s, ForgetRemove(ok), ForgetRemoveEffect(s, ok))
  {
  }

  lemma {:induction false} IssueFrames<R>(s: Sys<R>, id: Uuid, t: TokenId)
    ensures Frame(s, IssueToken(id, t), IssueEffect(s, id, t))
  {
    hide IssuedRefs; hide IssuedTokens;
  }

  lemma {:induction false} OtherFrames<R>(s: Sys<R>, a: Action<R>, clamp: R -> R)
    requires Enabled(s, a) && !WriterStep(a) && !PrefetchStep(a) && !AllowStep(a)
    ensures Frame(s, a, Step(s, a, clamp))
  {
    hide SaveEffect; hide FlushEffect; hide ForgetMarkEffect; hide ForgetRemoveEffect; hide IssueEffect;
    match a
    case SaveConnection(id, state, token) => SaveFrames(s, id, state, token);
    case FlushStart(f) => FlushFrames(s, f);
    case ForgetMark(id) => ForgetFrames(s, id, true);
    case ForgetRemove(ok) => ForgetFrames(s, 0, ok);
    case IssueToken(id, t) => IssueFrames(s, id, t);
    case WakeWriter =>
    case FlushWake(_) =>
    case DropToken(_) =>
  }

  lemma {:induction false} StepFrames<R>(s: Sys<R>, a: Action<R>, clamp: R -> R)
    requires Enabled(s, a) && FlushInv(s.q, s.flushes)
    ensures Frame(s, a, Step(s, a, clamp))
  {
    hide Step; hide Enabled; hide Frame; hide FlushInv;
    if WriterStep(a) {
      WriterFrames(s, a, clamp);
    } else if PrefetchStep(a) {
      PrefetchFrames(s, a, clamp);
    } else if AllowStep(a) {
      AllowFrames(s, a, clamp);
    } else {
      OtherFrames(s, a, clamp);
    }
  }

  lemma {:induction false} LaterAlong<R(!new)>(tr: seq<Sys<R>>, acts: seq<Action<R>>, clamp: R -> R, i: nat, j: nat)
    requires Idempotent(clamp) && Behaviour(tr, acts, clamp) && i <= j < |tr|
    ensures Later(tr[i], tr[j])
    decreases j
  {
    hide Inv; hide Idempotent; hide Step; hide Enabled; hide Later;
    if i < j {
      LaterAlong(tr, acts, clamp, i, j - 1);
      AlwaysInv(tr, acts, clamp, j - 1);
      assert Enabled(tr[j - 1], acts[j - 1]);
      InvCounts(tr[j - 1], clamp);
      StepIsLater(tr[j - 1], acts[j - 1], clamp);
      LaterChains(tr[i], tr[j - 1], tr[j]);
    } else {
      LaterRefl(tr[i]);
    }
  }

  lemma {:induction false} LaterChains<R>(s: Sys<R>, t: Sys<R>, u: Sys<R>)
    requires Later(s, t) && Later(t, u)
    ensures Later(s, u)
  {
  }

  lemma {:induction false} LaterRefl<R>(s: Sys<R>)
    ensures Later(s, s)
  {
  }

  // ---------- a flush answered Ok is durable ----------

  predicate StartsFlush<R>(a: Action<R>, f: FlushId) {
    a == FlushStart(f) || (a.PrefetchFlush? && a.f == f) || (a.AllowFlush? && a.f == f)
  }

  /** Disk holds save number `k + 1` of its connection or a newer save of it. */
  ghost predicate StoredAtLeast<R>(s: Sys<R>, k: nat, clamp: R -> R)
    requires k < |s.h.log|
  {
    exists m | k <= m < |s.h.log| ::
      && s.h.log[m].id == s.h.log[k].id
      && s.h.log[k].id in s.disk && s.disk[s.h.log[k].id] == clamp(s.h.log[m].state)
  }

  /** Save number `k + 1` was accepted before the last forget of its connection. */
  predicate ForgottenSince<R>(s: Sys<R>, k: nat)
    requires k < |s.h.log|
  {
    s.h.log[k].id in s.h.mark && k < s.h.mark[s.h.log[k].id]
  }

  lemma {:induction false} PersistedIsStored<R>(s: Sys<R>, k: nat, clamp: R -> R)
    requires Inv(s, clamp) && k < |s.h.log| && k < s.q.persistedSequence
    ensures StoredAtLeast(s, k, clamp) || ForgottenSince(s, k)
  {
    hide QueueInv; hide NewestInv; hide CacheInv; hide PrefetchInv; hide FlushInv; hide WakeInv; hide LogInv;
    var id := s.h.log[k].id;
    assert Durable(id, k + 1, s.h.onDisk, s.h.mark);
    if !ForgottenSince(s, k) {
      var m := s.h.onDisk[id] - 1;
      assert s.h.log[m].id == id && s.disk[id] == clamp(s.h.log[m].state);
    }
  }

  /**
   A flush that returned Ok: every save accepted before the flush was made is on disk, itself or a
   newer save of the same connection, unless its connection was forgotten after that save. This
   stays true in every later state.
   */
  lemma {:induction false} FlushOkIsDurable<R(!new)>(tr: seq<Sys<R>>, acts: seq<Action<R>>, clamp: R -> R, f: FlushId,
                                                     i: nat, j: nat, k: nat)
    requires Idempotent(clamp) && Behaviour(tr, acts, clamp) && i < j < |tr|
    requires StartsFlush(acts[i], f)
    requires f in tr[j].flushes && tr[j].flushes[f].answer == Some(true)
    requires k < |tr[i].h.log|
    ensures k < |tr[j].h.log| && tr[j].h.log[k] == tr[i].h.log[k]
    ensures StoredAtLeast(tr[j], k, clamp) || ForgottenSince(tr[j], k)
  {
    AlwaysInv(tr, acts, clamp, i);
    AlwaysInv(tr, acts, clamp, j);
    LaterAlong(tr, acts, clamp, i, j);
    LaterAlong(tr, acts, clamp, i + 1, j);
    FlushTargetsLog(tr[i], acts[i], f, clamp);
    assert tr[i + 1] == Step(tr[i], acts[i], clamp);
    OkTargets(tr[j], f, clamp);
    PersistedIsStored(tr[j], k, clamp);
  }

  lemma {:induction false} FlushTargetsLog<R>(s: Sys<R>, a: Action<R>, f: FlushId, clamp: R -> R)
    requires Inv(s, clamp) && Enabled(s, a) && StartsFlush(a, f)
    ensures f in Step(s, a, clamp).flushes && Step(s, a, clamp).flushes[f].target == |s.h.log|
  {
    assert s.q.nextSequence == |s.h.log|;
    hide Inv;
  }

  lemma {:induction false} OkTargets<R>(s: Sys<R>, f: FlushId, clamp: R -> R)
    requires Inv(s, clamp) && f in s.flushes && s.flushes[f].answer == Some(true)
    ensures s.flushes[f].target <= s.q.persistedSequence
  {
    assert FlushInv(s.q, s.flushes);
    hide Inv;
  }

  // ---------- stored saves never go back ----------

  /** The stored save of a connection is never replaced by an older one; only a forget takes it away. */
  ghost predicate NotBack<R>(s: Sys<R>, t: Sys<R>) {
    forall id | id in s.h.onDisk ::
      || (id in t.h.onDisk && s.h.onDisk[id] <= t.h.onDisk[id])
      || (id in t.h.mark && s.h.onDisk[id] <= t.h.mark[id])
  }

  lemma {:induction false} WriteIsNotBack<R>(s: Sys<R>, ok: bool, landed: bool, clamp: R -> R)
    requires s.writer.Filtered? && UpdatesInv(s.writer) && DiskInv(s.q, s.writer, s.disk, s.h, clamp)
    ensures NotBack(s, WriteEffect(s, ok, landed, clamp))
  {
  }

  lemma {:induction false} StepIsNotBack<R>(s: Sys<R>, a: Action<R>, clamp: R -> R)
    requires Inv(s, clamp) && Enabled(s, a)
    ensures NotBack(s, Step(s, a, clamp))
  {
    hide Inv; hide LogInv; hide QueueInv; hide NewestInv; hide CoverInv; hide DiskInv; hide ForgottenInv; hide FlushInv;
    hide WakeInv; hide CacheInv;
    InvParts(s, clamp);
    if a.WriterWrite? {
      CoverGivesUpdates(s.q, s.writer, s.h);
      WriteIsNotBack(s, a.ok, a.landed, clamp);
      hide WriteEffect; hide NotBack; hide UpdatesInv;
    } else if a.ForgetRemove? {
      RemoveIsNotBack(s, a.ok, clamp);
      hide ForgetRemoveEffect; hide NotBack;
    } else {
      StepFrames(s, a, clamp);
      hide Step; hide Enabled;
    }
  }

  lemma {:induction false} RemoveIsNotBack<R>(s: Sys<R>, ok: bool, clamp: R -> R)
    requires Inv(s, clamp) && s.forgetting.Some?
    ensures NotBack(s, ForgetRemoveEffect(s, ok))
  {
    RemovedWasMarked(s, clamp);
    hide Inv;
  }

  lemma {:induction false} RemovedWasMarked<R>(s: Sys<R>, clamp: R -> R)
    requires Inv(s, clamp) && s.forgetting.Some?
    ensures s.forgetting.value in s.h.mark
    ensures s.forgetting.value in s.h.onDisk ==> s.h.onDisk[s.forgetting.value] <= s.h.mark[s.forgetting.value]
  {
    hide QueueInv; hide NewestInv; hide CacheInv; hide PrefetchInv; hide FlushInv; hide WakeInv; hide LogInv;
    hide CoverInv;
    var id := s.forgetting.value;
    if id in s.h.onDisk && s.h.onDisk[id] > 0 {
      assert s.h.log[s.h.onDisk[id] - 1].id == id;
    }
  }

  lemma {:induction false} StoredNeverGoesBack<R(!new)>(tr: seq<Sys<R>>, acts: seq<Action<R>>, clamp: R -> R, i: nat,
                                                        j: nat)
    requires Idempotent(clamp) && Behaviour(tr, acts, clamp) && i <= j < |tr|
    ensures NotBack(tr[i], tr[j])
    ensures forall id | id in tr[i].h.onDisk && id !in tr[j].h.mark ::
              id in tr[j].disk && id in tr[j].h.onDisk && tr[i].h.onDisk[id] <= tr[j].h.onDisk[id]
    decreases j
  {
    hide Inv; hide Idempotent; hide Step; hide Enabled; hide Later;
    if i < j {
      StoredNeverGoesBack(tr, acts, clamp, i, j - 1);
      AlwaysInv(tr, acts, clamp, j - 1);
      assert Enabled(tr[j - 1], acts[j - 1]);
      StepIsNotBack(tr[j - 1], acts[j - 1], clamp);
      StepIsLaterAt(tr, acts, clamp, j);
      NotBackChains(tr[i], tr[j - 1], tr[j]);
    }
    AlwaysInv(tr, acts, clamp, j);
    DiskKeys(tr[j], clamp);
  }

  lemma {:induction false} StepIsLaterAt<R(!new)>(tr: seq<Sys<R>>, acts: seq<Action<R>>, clamp: R -> R, j: nat)
    requires Idempotent(clamp) && Behaviour(tr, acts, clamp) && 0 < j < |tr|
    ensures Later(tr[j - 1], tr[j])
  {
    LaterAlong(tr, acts, clamp, j - 1, j);
  }

  lemma {:induction false} DiskKeys<R>(s: Sys<R>, clamp: R -> R)
    requires Inv(s, clamp)
    ensures s.disk.Keys == s.h.onDisk.Keys
  {
    assert DiskInv(s.q, s.writer, s.disk, s.h, clamp);
    hide Inv;
  }

  lemma {:induction false} NotBackChains<R>(s: Sys<R>, t: Sys<R>, u: Sys<R>)
    requires NotBack(s, t) && NotBack(t, u) && Later(t, u)
    ensures NotBack(s, u)
  {
  }

  // ---------- the cache ----------

  /**
   However prefetches race with saves, the cache entry of a connection that was saved and not
   forgotten since is its latest accepted save (as saved, or as it reads back from disk).
   */
  lemma {:induction false} CacheHoldsLatestSave<R(!new)>(tr: seq<Sys<R>>, acts: seq<Action<R>>, clamp: R -> R, i: nat,
                                                         k: nat)
    requires Idempotent(clamp) && Behaviour(tr, acts, clamp) && i < |tr|
    requires k < |tr[i].h.log| && LatestLive(k, tr[i].h)
    ensures var save := tr[i].h.log[k];
      && save.id in tr[i].mem.cache
      && (tr[i].mem.cache[save.id] == Some(save.state) || tr[i].mem.cache[save.id] == Some(clamp(save.state)))
  {
    AlwaysInv(tr, acts, clamp, i);
    assert CacheInv(tr[i].mem, tr[i].h, clamp);
    hide Inv;
  }

  // ---------- no flush is stranded ----------

  ghost predicate Waits<R>(s: Sys<R>, f: FlushId) {
    f in s.flushes && s.flushes[f].woken && s.flushes[f].answer == None
  }

  /** Until it is answered, a flush has the newest save queued or in flight, and its wake is not lost. */
  lemma {:induction false} UnansweredFlushIsServed<R>(s: Sys<R>, f: FlushId, clamp: R -> R)
    requires Inv(s, clamp) && f in s.flushes && s.flushes[f].answer == None
    ensures s.flushes[f].target <= s.q.nextSequence
    ensures || Holds(s.q.pending, s.h.log, s.q.nextSequence)
            || (s.writer.InFlight() && Holds(s.writer.batch, s.h.log, s.q.nextSequence))
    ensures s.flushes[f].woken ==>
              s.wake || s.writer.Woken? || (s.writer.InFlight() && s.flushes[f].target <= s.writer.attempted)
  {
    hide CacheInv; hide PrefetchInv; hide LogInv; hide CoverInv; hide DiskInv; hide Holds;
    assert (s.flushes[f].target, f) in s.q.flushes;
  }

  /** How many writer steps a waiting flush is away from its answer. */
  function Distance<R>(w: Writer<R>, target: nat): nat {
    match w
    case Took(_, attempted) => if target <= attempted then 3 else 8
    case Filtered(_, attempted, _) => if target <= attempted then 2 else 7
    case Wrote(_, attempted, _) => if target <= attempted then 1 else 6
    case Woken => 4
    case Idle => 5
  }

  /** A waiting flush always leaves the writer something to do, at the latest once a running forget is done. */
  lemma {:induction false} WriterNeverStuck<R>(s: Sys<R>, f: FlushId, clamp: R -> R)
    requires Inv(s, clamp) && Waits(s, f)
    ensures match s.writer
      case Idle => Enabled(s, WriterReceive)
      case Woken => Enabled(s, WriterTake)
      case Took(_, _) => if s.forgetting.Some? then Enabled(s, ForgetRemove(true)) else Enabled(s, WriterFilter)
      case Filtered(_, _, _) => Enabled(s, WriterWrite(true, true)) && Enabled(s, WriterWrite(false, false))
      case Wrote(_, _, _) => Enabled(s, WriterComplete)
  {
    hide Inv; hide LogInv; hide QueueInv; hide NewestInv; hide CoverInv; hide DiskInv; hide ForgottenInv;
    hide FlushInv; hide CacheInv;
    InvParts(s, clamp);
    assert Served(s.flushes[f].target, s.wake, s.writer);
  }

  lemma {:induction false} TakeCovers<R>(s: Sys<R>, f: FlushId, clamp: R -> R)
    requires Inv(s, clamp) && Waits(s, f) && s.writer.Woken?
    ensures s.q.pending != map[] && TakeEffect(s).writer.Took? && s.flushes[f].target <= TakeEffect(s).writer.attempted
  {
    InvParts(s, clamp);
    hide Inv; hide LogInv; hide CoverInv; hide DiskInv; hide ForgottenInv; hide CacheInv; hide WakeInv;
    if s.q.pending == map[] {
      NothingPendingNothingWaiting(s.q, s.writer, s.h.log, s.flushes);
    } else {
      TakesEverything(s.q, s.writer, s.h.log);
    }
  }

  lemma {:induction false} CompleteAnswers<R>(s: Sys<R>, f: FlushId)
    requires s.writer.Wrote? && Waits(s, f) && FlushInv(s.q, s.flushes)
    ensures var t := CompleteEffect(s);
      && f in t.flushes && t.flushes[f].target == s.flushes[f].target
      && (Waits(t, f) <==> s.flushes[f].target > s.writer.attempted) && t.writer == Idle
  {
    assert (s.flushes[f].target, f) in s.q.flushes;
  }

  lemma {:induction false} WriterStepAdvances<R>(s: Sys<R>, a: Action<R>, f: FlushId, clamp: R -> R)
    requires Inv(s, clamp) && Enabled(s, a) && Waits(s, f) && WriterStep(a)
    ensures var t := Step(s, a, clamp);
      && f in t.flushes && t.flushes[f].target == s.flushes[f].target
      && (Waits(t, f) ==> Distance(t.writer, t.flushes[f].target) < Distance(s.writer, s.flushes[f].target))
  {
    hide Inv; hide LogInv; hide QueueInv; hide NewestInv; hide CoverInv; hide DiskInv; hide ForgottenInv; hide FlushInv;
    hide WakeInv; hide CacheInv; hide CompleteEffect; hide Published; hide PublishedFrom; hide Unforgotten;
    if a.WriterTake? {
      TakeCovers(s, f, clamp);
    } else if a.WriterComplete? {
      InvParts(s, clamp);
      CompleteAnswers(s, f);
    }
  }

  function WriterSteps<R>(acts: seq<Action<R>>, i: nat, j: nat): (n: nat)
    requires i <= j <= |acts|
    decreases j
  {
    if i == j then 0 else WriterSteps(acts, i, j - 1) + (if WriterStep(acts[j - 1]) then 1 else 0)
  }

  lemma {:induction false} WaitingShrinks<R(!new)>(tr: seq<Sys<R>>, acts: seq<Action<R>>, clamp: R -> R, f: FlushId,
                                                   i: nat, j: nat)
    requires Idempotent(clamp) && Behaviour(tr, acts, clamp) && i <= j < |tr|
    requires Waits(tr[i], f) && Waits(tr[j], f)
    ensures tr[j].flushes[f].target == tr[i].flushes[f].target
    ensures Distance(tr[j].writer, tr[j].flushes[f].target) + WriterSteps(acts, i, j)
            <= Distance(tr[i].writer, tr[i].flushes[f].target)
    decreases j
  {
    hide Inv; hide Idempotent; hide Step; hide Enabled; hide Distance;
    if i < j {
      AlwaysInv(tr, acts, clamp, j - 1);
      assert Enabled(tr[j - 1], acts[j - 1]);
      StaysWokenAlong(tr, acts, clamp, f, i, j - 1);
      StepFramesAt(tr, acts, clamp, j);
      WaitingShrinks(tr, acts, clamp, f, i, j - 1);
      if WriterStep(acts[j - 1]) {
        WriterStepAdvances(tr[j - 1], acts[j - 1], f, clamp);
      } else {
        assert tr[j].writer == tr[j - 1].writer;
      }
    }
  }

  lemma {:induction false} StepFramesAt<R(!new)>(tr: seq<Sys<R>>, acts: seq<Action<R>>, clamp: R -> R, j: nat)
    requires Idempotent(clamp) && Behaviour(tr, acts, clamp) && 0 < j < |tr|
    ensures Frame(tr[j - 1], acts[j - 1], tr[j])
  {
    AlwaysInv(tr, acts, clamp, j - 1);
    hide Inv; hide LogInv; hide QueueInv; hide NewestInv; hide CoverInv; hide DiskInv; hide ForgottenInv; hide FlushInv;
    hide WakeInv; hide CacheInv; hide Step; hide Enabled; hide Frame; hide Idempotent;
    InvParts(tr[j - 1], clamp);
    assert Enabled(tr[j - 1], acts[j - 1]);
    StepFrames(tr[j - 1], acts[j - 1], clamp);
  }

  lemma {:induction false} StaysWokenAlong<R(!new)>(tr: seq<Sys<R>>, acts: seq<Action<R>>, clamp: R -> R, f: FlushId,
                                                    i: nat, j: nat)
    requires Idempotent(clamp) && Behaviour(tr, acts, clamp) && i <= j < |tr|
    requires f in tr[i].flushes && tr[i].flushes[f].woken
    ensures f in tr[j].flushes && tr[j].flushes[f].woken
    decreases j
  {
    hide Step; hide Enabled; hide Idempotent;
    if i < j {
      StaysWokenAlong(tr, acts, clamp, f, i, j - 1);
      StepFramesAt(tr, acts, clamp, j);
    }
  }

  /** No flush is stranded: eight writer steps after its wake every flush has its answer. */
  lemma {:induction false} FlushAnsweredWithinEightWriterSteps<R(!new)>(
    tr: seq<Sys<R>>, acts: seq<Action<R>>, clamp: R -> R, f: FlushId, i: nat, j: nat)
    requires Idempotent(clamp) && Behaviour(tr, acts, clamp) && i <= j < |tr|
    requires Waits(tr[i], f) && WriterSteps(acts, i, j) >= 8
    ensures f in tr[j].flushes && tr[j].flushes[f].answer != None
  {
    StaysWokenAlong(tr, acts, clamp, f, i, j);
    if Waits(tr[j], f) {
      WaitingShrinks(tr, acts, clamp, f, i, j);
    }
  }
}
