/**
 What callers of the store get: a prefetch fills the cache with what was on disk, a token handed out saves
 until it is revoked, and an allow call ends as its drain did.
 */
module WorkspaceServices {

  import opened Options
  import opened WorkspaceProtocol
  import opened WorkspaceSafety
  import opened WorkspaceTheorems
  import opened WorkspaceForget

  // ---------- prefetch ----------

  predicate AboutPrefetch<R>(a: Action<R>, p: PrefetchId) { PrefetchStep(a) && a.p == p }

  /** Steps that are not about a prefetch leave it alone. */
  lemma {:induction false} PrefetchKept<R>(s: Sys<R>, a: Action<R>, clamp: R -> R, p: PrefetchId)
    requires Enabled(s, a) && p in s.prefetches && !AboutPrefetch(a, p)
    ensures var t := Step(s, a, clamp); p in t.prefetches && t.prefetches[p] == s.prefetches[p]
  {
    hide SaveEffect; hide FlushEffect; hide TakeEffect; hide FilterEffect; hide WriteEffect; hide CompleteEffect;
    hide IssueEffect; hide ForgetMarkEffect; hide ForgetRemoveEffect; hide LoadEffect; hide InstallEffect;
    if Calm(a) {
      CalmFrame(s, a, clamp);
      hide Step; hide Enabled;
    } else if PrefetchStep(a) {
      OtherPrefetch(s, a, clamp, p);
    } else {
      match a {
        case SaveConnection(id, state, _) => SavePrefetches(s, id, state);
        case WriterWrite(ok, landed) => WritePrefetches(s, ok, landed, clamp);
        case ForgetMark(id) => MarkPrefetches(s, id);
        case ForgetRemove(ok) => RemovePrefetches(s, ok);
      }
    }
  }

  lemma {:induction false} OtherPrefetch<R>(s: Sys<R>, a: Action<R>, clamp: R -> R, p: PrefetchId)
    requires Enabled(s, a) && p in s.prefetches && PrefetchStep(a) && a.p != p
    ensures var t := Step(s, a, clamp); p in t.prefetches && t.prefetches[p] == s.prefetches[p]
  {
    hide ReadBack; hide ReadFrom; hide CacheInstalled; hide InstalledFrom; hide Installable;
  }

  lemma {:induction false} SavePrefetches<R>(s: Sys<R>, id: Uuid, state: R)
    ensures SaveEffect(s, id, state).prefetches == s.prefetches
  {}

  lemma {:induction false} WritePrefetches<R>(s: Sys<R>, ok: bool, landed: bool, clamp: R -> R)
    requires s.writer.Filtered?
    ensures WriteEffect(s, ok, landed, clamp).prefetches == s.prefetches
  {
    hide Published; hide PublishedFrom;
  }

  lemma {:induction false} MarkPrefetches<R>(s: Sys<R>, id: Uuid)
    ensures ForgetMarkEffect(s, id).prefetches == s.prefetches
  {
    hide RevokedTokens;
  }

  lemma {:induction false} RemovePrefetches<R>(s: Sys<R>, ok: bool)
    requires s.forgetting.Some?
    ensures ForgetRemoveEffect(s, ok).prefetches == s.prefetches
  {}

  lemma {:induction false} PrefetchStays<R>(tr: seq<Sys<R>>, acts: seq<Action<R>>, clamp: R -> R, p: PrefetchId,
                                            i: nat, j: nat)
    requires Behaviour(tr, acts, clamp) && i <= j < |tr| && p in tr[i].prefetches
    requires forall m | i <= m < j :: !AboutPrefetch(acts[m], p)
    ensures p in tr[j].prefetches && tr[j].prefetches[p] == tr[i].prefetches[p]
    decreases j
  {
    hide Step; hide Enabled;
    if i < j {
      PrefetchStays(tr, acts, clamp, p, i, j - 1);
      assert Enabled(tr[j - 1], acts[j - 1]);
      PrefetchKept(tr[j - 1], acts[j - 1], clamp, p);
    }
  }

  /** A prefetch through its three steps, nothing else happening to it in between. */
  ghost predicate Runs<R>(acts: seq<Action<R>>, p: PrefetchId, ids: set<Uuid>, unreadable: set<Uuid>,
                          begin: nat, flush: nat, load: nat, install: nat) {
    && begin < flush < load < install < |acts|
    && acts[begin] == PrefetchBegin(p, ids) && (exists f :: acts[flush] == PrefetchFlush(p, f))
    && acts[load] == PrefetchLoad(p, unreadable) && acts[install] == PrefetchInstall(p)
    && (forall m | begin < m < install && m != flush && m != load :: !AboutPrefetch(acts[m], p))
  }

  /** What the prefetch knows when it installs: what it was asked for, when it began, and what disk held at its load. */
  lemma {:induction false} LoadedIsDisk<R>(tr: seq<Sys<R>>, acts: seq<Action<R>>, clamp: R -> R, p: PrefetchId,
                                           ids: set<Uuid>, unreadable: set<Uuid>, begin: nat, flush: nat, load: nat,
                                           install: nat)
    requires Behaviour(tr, acts, clamp) && Runs(acts, p, ids, unreadable, begin, flush, load, install)
    ensures p in tr[install].prefetches && tr[install].prefetches[p].Loaded?
    ensures tr[install].prefetches[p] ==
            Loaded(ids, tr[begin].mem.clock, ReadBack(tr[load].disk, ids, clamp), unreadable)
  {
    hide Step; hide Enabled; hide ReadBack;
    assert Enabled(tr[begin], acts[begin]) && tr[begin + 1] == Step(tr[begin], acts[begin], clamp);
    BeginStep(tr[begin], p, ids, clamp);
    PrefetchStays(tr, acts, clamp, p, begin + 1, flush);
    var f :| acts[flush] == PrefetchFlush(p, f);
    assert Enabled(tr[flush], acts[flush]) && tr[flush + 1] == Step(tr[flush], acts[flush], clamp);
    FlushStep(tr[flush], p, f, clamp);
    PrefetchStays(tr, acts, clamp, p, flush + 1, load);
    assert Enabled(tr[load], acts[load]) && tr[load + 1] == Step(tr[load], acts[load], clamp);
    LoadStep(tr[load], p, unreadable, clamp);
    PrefetchStays(tr, acts, clamp, p, load + 1, install);
  }

  lemma {:induction false} BeginStep<R>(s: Sys<R>, p: PrefetchId, ids: set<Uuid>, clamp: R -> R)
    requires Enabled(s, PrefetchBegin(p, ids))
    ensures var t := Step(s, PrefetchBegin(p, ids), clamp);
      p in t.prefetches && t.prefetches[p] == Begun(ids, s.mem.clock)
  {}

  lemma {:induction false} FlushStep<R>(s: Sys<R>, p: PrefetchId, f: FlushId, clamp: R -> R)
    requires Enabled(s, PrefetchFlush(p, f))
    ensures p in s.prefetches
    ensures var t := Step(s, PrefetchFlush(p, f), clamp);
      p in t.prefetches && t.prefetches[p] == Flushing(s.prefetches[p].ids, s.prefetches[p].started, f)
  {}

  lemma {:induction false} LoadStep<R>(s: Sys<R>, p: PrefetchId, unreadable: set<Uuid>, clamp: R -> R)
    requires Enabled(s, PrefetchLoad(p, unreadable))
    ensures p in s.prefetches
    ensures var t, pre := Step(s, PrefetchLoad(p, unreadable), clamp), s.prefetches[p];
      p in t.prefetches
      && t.prefetches[p] == Loaded(pre.ids, pre.started, ReadBack(s.disk, pre.ids, clamp), unreadable)
  {
    hide ReadBack; hide ReadFrom;
    assert Step(s, PrefetchLoad(p, unreadable), clamp) == LoadEffect(s, p, unreadable, clamp);
  }

  /** A save or a forget of the connection. */
  predicate Touches<R>(a: Action<R>, id: Uuid) { (a.SaveConnection? || a.ForgetMark?) && a.id == id }

  lemma {:induction false} StepTouches<R>(s: Sys<R>, a: Action<R>, clamp: R -> R, id: Uuid)
    requires Enabled(s, a) && forall i | i in s.mem.savedAt :: s.mem.savedAt[i] <= s.mem.clock
    ensures var t := Step(s, a, clamp);
      && s.mem.clock <= t.mem.clock
      && (Touches(a, id) ==> id in t.mem.savedAt && t.mem.savedAt[id] > s.mem.clock)
      && (!Touches(a, id) ==>
            (id in t.mem.savedAt <==> id in s.mem.savedAt)
            && (id in s.mem.savedAt ==> t.mem.savedAt[id] == s.mem.savedAt[id]))
  {
    hide SaveEffect; hide FlushEffect; hide TakeEffect; hide FilterEffect; hide WriteEffect; hide CompleteEffect;
    hide IssueEffect; hide ForgetMarkEffect; hide ForgetRemoveEffect; hide LoadEffect; hide InstallEffect;
    if Calm(a) {
      CalmFrame(s, a, clamp);
      hide Step; hide Enabled;
    } else if PrefetchStep(a) {
      PrefetchClock(s, a, clamp);
    } else {
      match a {
        case SaveConnection(i, state, _) => SaveClock(s, i, state);
        case WriterWrite(ok, landed) => WriteClock(s, ok, landed, clamp);
        case ForgetMark(i) => MarkClock(s, i);
        case ForgetRemove(ok) => RemoveClock(s, ok);
      }
    }
  }

  lemma {:induction false} PrefetchClock<R>(s: Sys<R>, a: Action<R>, clamp: R -> R)
    requires Enabled(s, a) && PrefetchStep(a)
    ensures var t := Step(s, a, clamp); t.mem.clock == s.mem.clock && t.mem.savedAt == s.mem.savedAt
  {
    hide ReadBack; hide ReadFrom; hide CacheInstalled; hide InstalledFrom; hide Installable;
  }

  lemma {:induction false} SaveClock<R>(s: Sys<R>, id: Uuid, state: R)
    ensures var m := SaveEffect(s, id, state).mem;
      m.clock == s.mem.clock + 1 && m.savedAt == s.mem.savedAt[id := s.mem.clock + 1]
  {}

  lemma {:induction false} WriteClock<R>(s: Sys<R>, ok: bool, landed: bool, clamp: R -> R)
    requires s.writer.Filtered?
    ensures WriteEffect(s, ok, landed, clamp).mem == s.mem
  {
    hide Published; hide PublishedFrom;
  }

  lemma {:induction false} MarkClock<R>(s: Sys<R>, id: Uuid)
    ensures var m := ForgetMarkEffect(s, id).mem;
      m.clock == s.mem.clock + 1 && m.savedAt == s.mem.savedAt[id := s.mem.clock + 1]
  {
    hide RevokedTokens;
  }

  lemma {:induction false} RemoveClock<R>(s: Sys<R>, ok: bool)
    requires s.forgetting.Some?
    ensures ForgetRemoveEffect(s, ok).mem == s.mem
  {}

  /** The clock tells exactly whether a connection was saved or forgotten since. */
  lemma {:induction false} ClockTells<R(!new)>(tr: seq<Sys<R>>, acts: seq<Action<R>>, clamp: R -> R, id: Uuid,
                                               i: nat, j: nat)
    requires Idempotent(clamp) && Behaviour(tr, acts, clamp) && i <= j < |tr|
    ensures tr[i].mem.clock <= tr[j].mem.clock
    ensures id in tr[j].mem.savedAt && tr[j].mem.savedAt[id] > tr[i].mem.clock <==>
              exists m | i <= m < j :: Touches(acts[m], id)
    decreases j
  {
    hide Step; hide Enabled; hide Inv; hide Idempotent; hide QueueInv; hide NewestInv; hide CoverInv; hide DiskInv;
    hide ForgottenInv; hide FlushInv; hide WakeInv; hide CacheInv;
    AlwaysInv(tr, acts, clamp, j);
    InvParts(tr[j], clamp);
    if i < j {
      ClockTells(tr, acts, clamp, id, i, j - 1);
      AlwaysInv(tr, acts, clamp, j - 1);
      InvParts(tr[j - 1], clamp);
      assert Enabled(tr[j - 1], acts[j - 1]);
      StepTouches(tr[j - 1], acts[j - 1], clamp, id);
      if m :| i <= m < j && Touches(acts[m], id) && m < j - 1 { assert Touches(acts[m], id); }
    }
  }

  /**
   A prefetch fills the cache: of what it was asked for, everything readable that nobody saved or forgot
   since it began gets what disk held when it was loaded, or nothing if disk held nothing; everything
   else stays as it was.
   */
  lemma {:induction false} PrefetchFills<R(!new)>(tr: seq<Sys<R>>, acts: seq<Action<R>>, clamp: R -> R, p: PrefetchId,
                                                  ids: set<Uuid>, unreadable: set<Uuid>, begin: nat, flush: nat,
                                                  load: nat, install: nat, id: Uuid)
    requires Idempotent(clamp) && Behaviour(tr, acts, clamp)
    requires Runs(acts, p, ids, unreadable, begin, flush, load, install)
    ensures var before, after := tr[install].mem.cache, tr[install + 1].mem.cache;
      if id in ids && id !in unreadable && !exists m | begin <= m < install :: Touches(acts[m], id)
      then id in after && after[id] == if id in tr[load].disk then Some(clamp(tr[load].disk[id])) else None
      else (id in after <==> id in before) && (id in before ==> after[id] == before[id])
  {
    hide Step; hide Enabled; hide Idempotent; hide Touches;
    LoadedIsDisk(tr, acts, clamp, p, ids, unreadable, begin, flush, load, install);
    ClockTells(tr, acts, clamp, id, begin, install);
    InstallStep(tr, acts, clamp, p, install);
  }

  lemma {:induction false} InstallStep<R>(tr: seq<Sys<R>>, acts: seq<Action<R>>, clamp: R -> R, p: PrefetchId, j: nat)
    requires Behaviour(tr, acts, clamp) && j < |acts| && acts[j] == PrefetchInstall(p)
    ensures p in tr[j].prefetches && tr[j].prefetches[p].Loaded?
    ensures var pre := tr[j].prefetches[p];
      tr[j + 1].mem.cache == CacheInstalled(tr[j].mem.cache, pre.content, Installable(pre, tr[j].mem.savedAt))
  {
    hide CacheInstalled; hide Installable; hide InstalledFrom;
    assert Enabled(tr[j], acts[j]) && tr[j + 1] == Step(tr[j], acts[j], clamp);
    assert tr[j + 1] == InstallEffect(tr[j], p);
  }

  // ---------- tokens ----------

  ghost predicate Usable<R>(s: Sys<R>, id: Uuid, t: TokenId) {
    && t in s.tokens && s.tokens[t] == Token(id, true, true)
    && id !in s.q.forgotten && id in s.q.saveTokens && s.q.saveTokens[id] == t
  }

  /** For a connection that is not forgotten a usable token is handed out; for a forgotten one an invalid token. */
  lemma {:induction false} IssueHandsOut<R>(s: Sys<R>, id: Uuid, t: TokenId, clamp: R -> R)
    requires Enabled(s, IssueToken(id, t)) && TokenInv(s.q.saveTokens, s.tokens)
    requires forall i | i in s.q.saveTokens :: s.tokens[s.q.saveTokens[i]].valid
    ensures var u := Step(s, IssueToken(id, t), clamp);
      if id in s.q.forgotten then t in u.tokens && u.tokens[t] == Token(id, false, true)
      else id in u.q.saveTokens && Usable(u, id, u.q.saveTokens[id])
  {
    assert Step(s, IssueToken(id, t), clamp) == IssueEffect(s, id, t);
  }

  /** The store only points at valid tokens. */
  lemma {:induction false} StepRefsValid<R>(s: Sys<R>, a: Action<R>, clamp: R -> R)
    requires Enabled(s, a) && TokenInv(s.q.saveTokens, s.tokens)
    requires forall i | i in s.q.saveTokens :: s.tokens[s.q.saveTokens[i]].valid
    ensures var u := Step(s, a, clamp);
      forall i | i in u.q.saveTokens :: u.q.saveTokens[i] in u.tokens && u.tokens[u.q.saveTokens[i]].valid
  {
    if a.ForgetMark? {
      assert Step(s, a, clamp) == ForgetMarkEffect(s, a.id);
    } else if a.IssueToken? {
      assert Step(s, a, clamp) == IssueEffect(s, a.id, a.t);
    } else if a.DropToken? {
      assert Step(s, a, clamp) == s.(tokens := s.tokens[a.t := s.tokens[a.t].(held := false)]);
    } else {
      TokensFrame(s, a, clamp);
      hide Step; hide Enabled;
    }
  }

  lemma {:induction false} RefsValid<R>(tr: seq<Sys<R>>, acts: seq<Action<R>>, clamp: R -> R, j: nat)
    requires Behaviour(tr, acts, clamp) && j < |tr|
    ensures TokenInv(tr[j].q.saveTokens, tr[j].tokens)
    ensures forall i | i in tr[j].q.saveTokens :: tr[j].tokens[tr[j].q.saveTokens[i]].valid
  {
    hide Step; hide Enabled;
    AlwaysTokens(tr, acts, clamp, j, j);
    if j > 0 {
      RefsValid(tr, acts, clamp, j - 1);
      assert Enabled(tr[j - 1], acts[j - 1]);
      StepRefsValid(tr[j - 1], acts[j - 1], clamp);
    }
  }

  /** Only a forget blocks a connection. */
  lemma {:induction false} ForgottenGrows<R>(s: Sys<R>, a: Action<R>, clamp: R -> R, id: Uuid)
    requires Enabled(s, a) && id !in s.q.forgotten && !(a.ForgetMark? && a.id == id)
    ensures id !in Step(s, a, clamp).q.forgotten
  {
    hide SaveEffect; hide FlushEffect; hide TakeEffect; hide FilterEffect; hide WriteEffect; hide CompleteEffect;
    hide IssueEffect; hide ForgetMarkEffect; hide ForgetRemoveEffect; hide LoadEffect; hide InstallEffect;
    match a {
      case SaveConnection(i, state, _) => SaveBlocks(s, i, state);
      case FlushStart(f) => FlushIsCalm(s, f);
      case AllowFlush(_, f) => FlushIsCalm(s, f);
      case PrefetchFlush(_, f) => FlushIsCalm(s, f);
      case WriterTake => TakeIsCalm(s);
      case WriterFilter => FilterIsCalm(s);
      case WriterWrite(ok, landed) => WriteBlocks(s, ok, landed, clamp);
      case WriterComplete => CompleteFrame(s);
      case PrefetchLoad(p, unreadable) => LoadBlocks(s, p, unreadable, clamp);
      case PrefetchInstall(p) => InstallBlocks(s, p);
      case ForgetMark(i) => MarkFrame(s, i);
      case ForgetRemove(ok) => RemoveFrame(s, ok);
      case IssueToken(i, t) => IssueIsCalm(s, i, t);
      case _ =>
    }
  }

  lemma {:induction false} SaveBlocks<R>(s: Sys<R>, id: Uuid, state: R)
    ensures SaveEffect(s, id, state).q.forgotten == s.q.forgotten
  {}

  lemma {:induction false} WriteBlocks<R>(s: Sys<R>, ok: bool, landed: bool, clamp: R -> R)
    requires s.writer.Filtered?
    ensures WriteEffect(s, ok, landed, clamp).q == s.q
  {
    hide Published; hide PublishedFrom;
  }

  lemma {:induction false} LoadBlocks<R>(s: Sys<R>, p: PrefetchId, unreadable: set<Uuid>, clamp: R -> R)
    requires p in s.prefetches && s.prefetches[p].Flushing?
    ensures LoadEffect(s, p, unreadable, clamp).q == s.q
  {
    hide ReadBack; hide ReadFrom;
  }

  lemma {:induction false} InstallBlocks<R>(s: Sys<R>, p: PrefetchId)
    requires p in s.prefetches && s.prefetches[p].Loaded?
    ensures InstallEffect(s, p).q == s.q
  {
    hide CacheInstalled; hide Installable; hide InstalledFrom;
  }

  lemma {:induction false} TokenStays<R>(s: Sys<R>, a: Action<R>, clamp: R -> R, id: Uuid, t: TokenId)
    requires Enabled(s, a) && TokenInv(s.q.saveTokens, s.tokens) && Usable(s, id, t)
    requires !(a.ForgetMark? && a.id == id) && a != DropToken(t)
    ensures Usable(Step(s, a, clamp), id, t)
  {
    ForgottenGrows(s, a, clamp, id);
    if a.ForgetMark? {
      assert Step(s, a, clamp) == ForgetMarkEffect(s, a.id);
    } else if a.IssueToken? {
      assert Step(s, a, clamp) == IssueEffect(s, a.id, a.t);
    } else if a.DropToken? {
      assert Step(s, a, clamp) == s.(tokens := s.tokens[a.t := s.tokens[a.t].(held := false)]);
    } else {
      TokensFrame(s, a, clamp);
      hide Step; hide Enabled;
    }
  }

  lemma {:induction false} UsableAlong<R>(tr: seq<Sys<R>>, acts: seq<Action<R>>, clamp: R -> R, id: Uuid, t: TokenId,
                                          i: nat, j: nat)
    requires Behaviour(tr, acts, clamp) && i <= j < |tr| && Usable(tr[i], id, t)
    requires forall m | i <= m < j :: !(acts[m].ForgetMark? && acts[m].id == id) && acts[m] != DropToken(t)
    ensures Usable(tr[j], id, t)
    decreases j
  {
    hide Step; hide Enabled; hide Usable;
    if i < j {
      UsableAlong(tr, acts, clamp, id, t, i, j - 1);
      RefsValid(tr, acts, clamp, j - 1);
      assert Enabled(tr[j - 1], acts[j - 1]);
      TokenStays(tr[j - 1], acts[j - 1], clamp, id, t);
    }
  }

  /** A token handed out for a connection that is not forgotten saves until that is forgotten or it is dropped. */
  lemma {:induction false} TokenServes<R>(tr: seq<Sys<R>>, acts: seq<Action<R>>, clamp: R -> R, id: Uuid, new_: TokenId,
                                          i: nat, j: nat, state: R)
    requires Behaviour(tr, acts, clamp) && i < j < |tr| && acts[i] == IssueToken(id, new_) && id !in tr[i].q.forgotten
    ensures id in tr[i + 1].q.saveTokens
    ensures var t := tr[i + 1].q.saveTokens[id];
      (forall m | i < m < j :: !(acts[m].ForgetMark? && acts[m].id == id) && acts[m] != DropToken(t)) ==>
        Enabled(tr[j], SaveConnection(id, state, Some(t)))
  {
    hide Step;
    assert Enabled(tr[i], acts[i]) && tr[i + 1] == Step(tr[i], acts[i], clamp);
    RefsValid(tr, acts, clamp, i);
    IssueHandsOut(tr[i], id, new_, clamp);
    var t := tr[i + 1].q.saveTokens[id];
    if forall m | i < m < j :: !(acts[m].ForgetMark? && acts[m].id == id) && acts[m] != DropToken(t) {
      UsableAlong(tr, acts, clamp, id, t, i + 1, j);
    }
  }

  /** A token handed out for a forgotten connection never saves. */
  lemma {:induction false} BlockedTokenNeverSaves<R>(tr: seq<Sys<R>>, acts: seq<Action<R>>, clamp: R -> R, id: Uuid,
                                                     t: TokenId, i: nat, j: nat)
    requires Behaviour(tr, acts, clamp) && i < j < |acts| && acts[i] == IssueToken(id, t) && id in tr[i].q.forgotten
    ensures t in tr[i + 1].tokens && tr[i + 1].tokens[t].held
    ensures !(acts[j].SaveConnection? && acts[j].token == Some(t))
  {
    assert Enabled(tr[i], acts[i]) && tr[i + 1] == Step(tr[i], acts[i], clamp);
    RefsValid(tr, acts, clamp, i);
    IssueHandsOut(tr[i], id, t, clamp);
    AlwaysTokens(tr, acts, clamp, i + 1, j);
    assert Enabled(tr[j], acts[j]);
  }

  // ---------- allow calls ----------

  /** An allow call ends as its drain did: with Ok the block is lifted, with an error it stays. */
  lemma {:induction false} AllowEndsAsDrain<R>(tr: seq<Sys<R>>, acts: seq<Action<R>>, clamp: R -> R, i: nat, c: AllowId)
    requires Behaviour(tr, acts, clamp) && i < |acts| && (acts[i] == AllowLift(c) || acts[i] == AllowAbort(c))
    ensures c in tr[i].allows && tr[i].allows[c].Draining? && tr[i].allows[c].flush in tr[i].flushes
    ensures tr[i].flushes[tr[i].allows[c].flush].answer == Some(acts[i].AllowLift?)
    ensures c !in tr[i + 1].allows
    ensures var id := tr[i].allows[c].id;
      if acts[i].AllowLift? then id !in tr[i + 1].q.forgotten else tr[i + 1].q.forgotten == tr[i].q.forgotten
  {
    assert Enabled(tr[i], acts[i]) && tr[i + 1] == Step(tr[i], acts[i], clamp);
  }
}
