/**
 Forgetting a connection: nothing accepted before the forget comes back to disk or cache, also after
 saves are allowed again, and no save token handed out before it can save.

 The first of these is about one connection and one forget of it, whatever happens to other connections
 or in other forgets. It holds exactly as long as every `allow_connection_saves` call for that connection
 ends when no entry from before the forget is queued or in flight. That is so if no two such calls run at
 the same time; `WorkspaceLeaks.OverlappingAllowsLeak` is a run in which two do. Where the removal from
 disk fails, the record it should have removed is what stays.
 */
module WorkspaceForget {

  import opened Options
  import opened WorkspaceProtocol
  import opened WorkspaceSafety
  import opened WorkspaceTheorems

  /** No allow call for `id` begins while another one for `id` is under way. */
  ghost predicate AllowsApart<R>(s: Sys<R>, a: Action<R>, id: Uuid) {
    a.AllowCheck? && a.id == id ==> forall b | b in s.allows :: s.allows[b].id != id
  }

  // ---------- what holds throughout ----------

  ghost predicate CameFrom<R>(r: R, id: Uuid, n: nat, log: seq<Save<R>>, clamp: R -> R) {
    n > 0 ==> n <= |log| && log[n - 1].id == id && (r == log[n - 1].state || r == clamp(log[n - 1].state))
  }

  /** Between its check and its lift an allow call owns the connection's block, and no save slips past its flush. */
  ghost predicate AllowInv<R>(id: Uuid, allows: map<AllowId, Allow>, forgotten: set<Uuid>, flushes: map<FlushId, Flush>,
                              log: seq<Save<R>>) {
    && (forall a | a in allows && allows[a].id == id :: id in forgotten)
    && (forall a, b | a in allows && b in allows && allows[a].id == id == allows[b].id :: a == b)
    && (forall a | a in allows && allows[a].id == id && allows[a].Draining? ::
          allows[a].flush in flushes && forall k | 0 <= k < |log| && log[k].id == id ::
            k < flushes[allows[a].flush].target)
  }

  ghost predicate CacheFrom<R>(id: Uuid, mem: Memory<R>, h: History<R>, clamp: R -> R) {
    id in mem.cache && mem.cache[id].Some? ==>
      id in h.inCache && CameFrom(mem.cache[id].value, id, h.inCache[id], h.log, clamp)
  }

  ghost predicate LoadFrom<R>(id: Uuid, p: PrefetchId, pre: Prefetch<R>, h: History<R>, clamp: R -> R) {
    pre.Loaded? ==>
      && p in h.loadedFrom && (id in pre.content <==> id in h.loadedFrom[p])
      && (id in pre.content ==> CameFrom(pre.content[id], id, h.loadedFrom[p][id], h.log, clamp))
  }

  ghost predicate LoadsFrom<R>(id: Uuid, prefetches: map<PrefetchId, Prefetch<R>>, h: History<R>, clamp: R -> R) {
    forall p | p in prefetches :: LoadFrom(id, p, prefetches[p], h, clamp)
  }

  /** While `id` is being forgotten it is not cached, and no prefetch can install it. */
  ghost predicate Quiet<R>(id: Uuid, forgetting: Option<Uuid>, mem: Memory<R>, prefetches: map<PrefetchId, Prefetch<R>>,
                           h: History<R>) {
    forgetting == Some(id) ==>
      && id !in h.inCache
      && forall p | p in prefetches && prefetches[p].Loaded? && id in prefetches[p].content ::
           !Unsaved(id, mem.savedAt, prefetches[p].started)
  }

  ghost predicate RecordsInv<R>(id: Uuid, s: Sys<R>, clamp: R -> R) {
    && CacheFrom(id, s.mem, s.h, clamp)
    && LoadsFrom(id, s.prefetches, s.h, clamp)
    && Quiet(id, s.forgetting, s.mem, s.prefetches, s.h)
  }

  ghost predicate ForgetInv<R>(id: Uuid, s: Sys<R>, clamp: R -> R) {
    AllowInv(id, s.allows, s.q.forgotten, s.flushes, s.h.log) && RecordsInv(id, s, clamp)
  }

  // ---------- what holds after a forget ----------

  /** The forget of `id` began when `mark` saves were accepted; `left` is what its removal failed to remove. */
  datatype Forget<R> = Forget(id: Uuid, mark: nat, left: Option<R>)

  ghost predicate LeftOver<R>(f: Forget<R>, r: R, clamp: R -> R) {
    f.left.Some? && (r == f.left.value || r == clamp(f.left.value))
  }

  ghost predicate EntriesSince<R>(f: Forget<R>, q: Queue<R>, w: Writer<R>) {
    && (f.id !in q.forgotten && f.id in q.pending ==> f.mark < q.pending[f.id].sequence)
    && (w.InFlight() && f.id !in q.forgotten && f.id in w.batch ==> f.mark < w.batch[f.id].sequence)
    && (w.Filtered? && f.id in w.updates ==> f.mark < w.updates[f.id].sequence)
  }

  ghost predicate DiskSince<R>(f: Forget<R>, disk: map<Uuid, R>, h: History<R>, clamp: R -> R) {
    f.id in disk ==> f.id in h.onDisk && (f.mark < h.onDisk[f.id] || LeftOver(f, disk[f.id], clamp))
  }

  ghost predicate CacheSince<R>(f: Forget<R>, mem: Memory<R>, h: History<R>, clamp: R -> R) {
    f.id in mem.cache && mem.cache[f.id].Some? && f.id in h.inCache ==>
      f.mark < h.inCache[f.id] || LeftOver(f, mem.cache[f.id].value, clamp)
  }

  ghost predicate LoadSince<R>(f: Forget<R>, p: PrefetchId, pre: Prefetch<R>, savedAt: map<Uuid, nat>, h: History<R>,
                               clamp: R -> R) {
    pre.Loaded? && f.id in pre.content && Unsaved(f.id, savedAt, pre.started)
    && p in h.loadedFrom && f.id in h.loadedFrom[p] ==>
      f.mark < h.loadedFrom[p][f.id] || LeftOver(f, pre.content[f.id], clamp)
  }

  ghost predicate LoadsSince<R>(f: Forget<R>, prefetches: map<PrefetchId, Prefetch<R>>, savedAt: map<Uuid, nat>,
                                h: History<R>, clamp: R -> R) {
    forall p | p in prefetches :: LoadSince(f, p, prefetches[p], savedAt, h, clamp)
  }

  /** Nothing accepted before the forget is queued past the block, stored, cached or about to be. */
  ghost predicate Since<R>(f: Forget<R>, s: Sys<R>, clamp: R -> R) {
    && f.mark <= |s.h.log|
    && EntriesSince(f, s.q, s.writer)
    && DiskSince(f, s.disk, s.h, clamp)
    && CacheSince(f, s.mem, s.h, clamp)
    && LoadsSince(f, s.prefetches, s.mem.savedAt, s.h, clamp)
  }

  lemma {:induction false} InitForget<R>(id: Uuid, s: Sys<R>, clamp: R -> R)
    requires Init(s)
    ensures ForgetInv(id, s, clamp)
  {}

  // ---------- steps that leave the records alone ----------

  predicate Calm<R>(a: Action<R>) {
    !a.SaveConnection? && !a.WriterWrite? && !PrefetchStep(a) && !a.ForgetMark? && !a.ForgetRemove?
  }

  ghost predicate SameRecords<R>(s: Sys<R>, t: Sys<R>) {
    t.mem == s.mem && t.disk == s.disk && t.prefetches == s.prefetches && t.forgetting == s.forgetting && t.h == s.h
  }

  lemma {:induction false} TakeIsCalm<R>(s: Sys<R>)
    ensures SameRecords(s, TakeEffect(s)) && TakeEffect(s).allows == s.allows && TakeEffect(s).flushes == s.flushes
    ensures TakeEffect(s).q.forgotten == s.q.forgotten
  {
    hide Newest;
    if s.q.pending != map[] {
      var newest := Newest(s.q.pending);
      assert TakeEffect(s) == s.(writer := Took(s.q.pending, newest), q := s.q.(pending := map[]));
    } else {
      assert TakeEffect(s) == s.(writer := Idle);
    }
  }

  lemma {:induction false} CalmWriter<R>(s: Sys<R>, a: Action<R>, clamp: R -> R)
    requires Enabled(s, a) && Calm(a) && WriterStep(a)
    ensures SameRecords(s, Step(s, a, clamp))
  {
    hide TakeEffect; hide CompleteEffect; hide FilterEffect;
    match a {
      case WriterReceive => assert Step(s, a, clamp) == s.(wake := false, writer := Woken);
      case WriterTake => TakeIsCalm(s);
      case WriterFilter => assert Step(s, a, clamp) == FilterEffect(s); FilterIsCalm(s);
      case WriterComplete => assert Step(s, a, clamp) == CompleteEffect(s); CompleteFrame(s);
    }
  }

  lemma {:induction false} FilterIsCalm<R>(s: Sys<R>)
    requires s.writer.Took?
    ensures SameRecords(s, FilterEffect(s)) && FilterEffect(s).q == s.q
  {
    hide Unforgotten;
  }

  lemma {:induction false} FlushIsCalm<R>(s: Sys<R>, f: FlushId)
    ensures SameRecords(s, FlushEffect(s, f))
    ensures FlushEffect(s, f).q.forgotten == s.q.forgotten && FlushEffect(s, f).q.pending == s.q.pending
    ensures FlushEffect(s, f).writer == s.writer && FlushEffect(s, f).allows == s.allows
    ensures f !in s.flushes ==> forall g | g in s.flushes ::
              g in FlushEffect(s, f).flushes && FlushEffect(s, f).flushes[g] == s.flushes[g]
  {}

  lemma {:induction false} RemoveFrame<R>(s: Sys<R>, ok: bool)
    requires s.forgetting.Some?
    ensures var t := ForgetRemoveEffect(s, ok);
      t.allows == s.allows && t.q == s.q && t.flushes == s.flushes && t.h.log == s.h.log
  {}

  lemma {:induction false} MarkFrame<R>(s: Sys<R>, id: Uuid)
    ensures var t := ForgetMarkEffect(s, id);
      t.allows == s.allows && t.q.forgotten == s.q.forgotten + {id} && t.flushes == s.flushes && t.h.log == s.h.log
  {
    hide RevokedTokens;
  }

  lemma {:induction false} IssueIsCalm<R>(s: Sys<R>, id: Uuid, t: TokenId)
    ensures var u := IssueEffect(s, id, t);
      && SameRecords(s, u) && u.writer == s.writer && u.allows == s.allows && u.flushes == s.flushes
      && u.q.forgotten == s.q.forgotten && u.q.pending == s.q.pending
  {
    hide IssuedRefs; hide IssuedTokens;
  }

  lemma {:induction false} CalmClient<R>(s: Sys<R>, a: Action<R>, clamp: R -> R)
    requires Enabled(s, a) && Calm(a) && !WriterStep(a)
    ensures SameRecords(s, Step(s, a, clamp)) && Step(s, a, clamp).writer == s.writer
    ensures Step(s, a, clamp).q.pending == s.q.pending
    ensures !a.AllowLift? ==> Step(s, a, clamp).q.forgotten == s.q.forgotten
  {
    hide FlushEffect; hide IssueEffect;
    match a {
      case WakeWriter => assert Step(s, a, clamp) == s.(wake := true);
      case FlushStart(f) => FlushIsCalm(s, f);
      case FlushWake(f) =>
        assert Step(s, a, clamp) == s.(wake := true, flushes := s.flushes[f := s.flushes[f].(woken := true)]);
      case AllowCheck(c, id) => assert Step(s, a, clamp) == s.(allows := s.allows[c := Checked(id)]);
      case AllowFlush(c, f) =>
        FlushIsCalm(s, f);
        assert Step(s, a, clamp) == FlushEffect(s, f).(allows := s.allows[c := Draining(s.allows[c].id, f)]);
      case AllowLift(c) =>
        assert Step(s, a, clamp) == s.(q := s.q.(forgotten := s.q.forgotten - {s.allows[c].id}),
                                       allows := s.allows - {c});
      case AllowAbort(c) => assert Step(s, a, clamp) == s.(allows := s.allows - {c});
      case IssueToken(id, t) => IssueIsCalm(s, id, t);
      case DropToken(t) => assert Step(s, a, clamp) == s.(tokens := s.tokens[t := s.tokens[t].(held := false)]);
    }
  }

  lemma {:induction false} CalmFrame<R>(s: Sys<R>, a: Action<R>, clamp: R -> R)
    requires Enabled(s, a) && Calm(a)
    ensures SameRecords(s, Step(s, a, clamp))
  {
    hide Step; hide Enabled; hide SameRecords;
    if WriterStep(a) { CalmWriter(s, a, clamp); } else { CalmClient(s, a, clamp); }
  }

  // ---------- allow calls ----------

  lemma {:induction false} MoreFlushes<R>(i: Uuid, allows: map<AllowId, Allow>, forgotten: set<Uuid>,
                                          before: map<FlushId, Flush>, after: map<FlushId, Flush>, log: seq<Save<R>>)
    requires AllowInv(i, allows, forgotten, before, log)
    requires forall f | f in before :: f in after && after[f].target == before[f].target
    ensures AllowInv(i, allows, forgotten, after, log)
  {}

  lemma {:induction false} AllowsKept<R>(i: Uuid, s: Sys<R>, t: Sys<R>)
    requires AllowInv(i, s.allows, s.q.forgotten, s.flushes, s.h.log)
    requires t.allows == s.allows && t.q.forgotten == s.q.forgotten && t.h.log == s.h.log
    requires forall f | f in s.flushes :: f in t.flushes && t.flushes[f].target == s.flushes[f].target
    ensures AllowInv(i, t.allows, t.q.forgotten, t.flushes, t.h.log)
  {
    hide AllowInv;
    MoreFlushes(i, s.allows, s.q.forgotten, s.flushes, t.flushes, s.h.log);
  }

  lemma {:induction false} SaveKeepsAllows<R>(i: Uuid, s: Sys<R>, id: Uuid, state: R)
    requires AllowInv(i, s.allows, s.q.forgotten, s.flushes, s.h.log) && id !in s.q.forgotten
    ensures var t := SaveEffect(s, id, state); AllowInv(i, t.allows, t.q.forgotten, t.flushes, t.h.log)
  {
    var t := SaveEffect(s, id, state);
    assert forall k | 0 <= k < |s.h.log| :: t.h.log[k] == s.h.log[k];
  }

  lemma {:induction false} DrainKeepsAllows<R>(i: Uuid, s: Sys<R>, c: AllowId, f: FlushId)
    requires AllowInv(i, s.allows, s.q.forgotten, s.flushes, s.h.log) && c in s.allows && f !in s.flushes
    requires s.q.nextSequence == |s.h.log|
    ensures var t := FlushEffect(s, f).(allows := s.allows[c := Draining(s.allows[c].id, f)]);
      AllowInv(i, t.allows, t.q.forgotten, t.flushes, t.h.log)
  {}

  lemma {:induction false} LiftKeepsAllows<R>(i: Uuid, s: Sys<R>, c: AllowId)
    requires AllowInv(i, s.allows, s.q.forgotten, s.flushes, s.h.log) && c in s.allows
    ensures AllowInv(i, s.allows - {c}, s.q.forgotten - {s.allows[c].id}, s.flushes, s.h.log)
    ensures AllowInv(i, s.allows - {c}, s.q.forgotten, s.flushes, s.h.log)
  {}

  lemma {:induction false} AllowStepAllows<R>(i: Uuid, s: Sys<R>, a: Action<R>, clamp: R -> R)
    requires AllowInv(i, s.allows, s.q.forgotten, s.flushes, s.h.log) && Enabled(s, a) && AllowStep(a)
             && AllowsApart(s, a, i)
    requires s.q.nextSequence == |s.h.log|
    ensures var t := Step(s, a, clamp); AllowInv(i, t.allows, t.q.forgotten, t.flushes, t.h.log)
  {
    hide AllowInv; hide FlushEffect;
    match a {
      case AllowCheck(c, id) => CheckKeepsAllows(i, s, c, id);
      case AllowFlush(c, f) => DrainKeepsAllows(i, s, c, f);
      case AllowLift(c) => LiftKeepsAllows(i, s, c);
      case AllowAbort(c) => LiftKeepsAllows(i, s, c);
    }
  }

  lemma {:induction false} CheckKeepsAllows<R>(i: Uuid, s: Sys<R>, c: AllowId, id: Uuid)
    requires AllowInv(i, s.allows, s.q.forgotten, s.flushes, s.h.log) && c !in s.allows && id in s.q.forgotten
    requires id == i ==> forall b | b in s.allows :: s.allows[b].id != id
    ensures AllowInv(i, s.allows[c := Checked(id)], s.q.forgotten, s.flushes, s.h.log)
  {}

  /** Steps that are not about allow calls or saves keep the calls, the block and the flush targets, or extend them. */
  lemma {:induction false} OtherStepAllows<R>(i: Uuid, s: Sys<R>, a: Action<R>, clamp: R -> R)
    requires AllowInv(i, s.allows, s.q.forgotten, s.flushes, s.h.log) && Enabled(s, a)
    requires !AllowStep(a) && !a.SaveConnection? && !WriterStep(a) && !PrefetchStep(a)
    ensures var t := Step(s, a, clamp); AllowInv(i, t.allows, t.q.forgotten, t.flushes, t.h.log)
  {
    hide AllowInv; hide IssueEffect; hide FlushEffect; hide ForgetMarkEffect; hide ForgetRemoveEffect;
    match a {
      case WakeWriter => AllowsKept(i, s, s.(wake := true));
      case FlushStart(f) => FlushIsCalm(s, f); AllowsKept(i, s, FlushEffect(s, f));
      case FlushWake(f) => AllowsKept(i, s, s.(wake := true, flushes := s.flushes[f := s.flushes[f].(woken := true)]));
      case ForgetMark(id) => MarkFrame(s, id); MarkKeepsAllows(i, s.allows, s.q.forgotten, s.flushes, s.h.log, id);
      case ForgetRemove(ok) => RemoveFrame(s, ok); AllowsKept(i, s, ForgetRemoveEffect(s, ok));
      case IssueToken(id, t) => IssueIsCalm(s, id, t); AllowsKept(i, s, IssueEffect(s, id, t));
      case DropToken(t) => AllowsKept(i, s, s.(tokens := s.tokens[t := s.tokens[t].(held := false)]));
    }
  }

  lemma {:induction false} MarkKeepsAllows<R>(i: Uuid, allows: map<AllowId, Allow>, forgotten: set<Uuid>,
                                              flushes: map<FlushId, Flush>, log: seq<Save<R>>, id: Uuid)
    requires AllowInv(i, allows, forgotten, flushes, log)
    ensures AllowInv(i, allows, forgotten + {id}, flushes, log)
  {}

  lemma {:induction false} WriterStepAllows<R>(i: Uuid, s: Sys<R>, a: Action<R>, clamp: R -> R)
    requires AllowInv(i, s.allows, s.q.forgotten, s.flushes, s.h.log) && Enabled(s, a) && WriterStep(a)
    ensures var t := Step(s, a, clamp); AllowInv(i, t.allows, t.q.forgotten, t.flushes, t.h.log)
  {
    hide AllowInv; hide TakeEffect; hide CompleteEffect; hide Unforgotten; hide Published; hide PublishedFrom;
    match a {
      case WriterReceive => AllowsKept(i, s, s.(wake := false, writer := Woken));
      case WriterTake => TakeIsCalm(s); AllowsKept(i, s, TakeEffect(s));
      case WriterFilter => AllowsKept(i, s, FilterEffect(s));
      case WriterWrite(ok, landed) => AllowsKept(i, s, WriteEffect(s, ok, landed, clamp));
      case WriterComplete => CompleteFrame(s); CompleteAllows(s); AllowsKept(i, s, CompleteEffect(s));
    }
  }

  lemma {:induction false} CompleteAllows<R>(s: Sys<R>)
    requires s.writer.Wrote?
    ensures CompleteEffect(s).allows == s.allows
  {
    hide Restored; hide QueueComplete; hide Answered;
  }

  lemma {:induction false} PrefetchStepAllows<R>(i: Uuid, s: Sys<R>, a: Action<R>, clamp: R -> R)
    requires AllowInv(i, s.allows, s.q.forgotten, s.flushes, s.h.log) && Enabled(s, a) && PrefetchStep(a)
    ensures var t := Step(s, a, clamp); AllowInv(i, t.allows, t.q.forgotten, t.flushes, t.h.log)
  {
    hide AllowInv; hide ReadBack; hide ReadFrom; hide CacheInstalled; hide InstalledFrom; hide Installable;
    AllowsKept(i, s, Step(s, a, clamp));
  }

  lemma {:induction false} StepAllows<R>(i: Uuid, s: Sys<R>, a: Action<R>, clamp: R -> R)
    requires AllowInv(i, s.allows, s.q.forgotten, s.flushes, s.h.log) && Enabled(s, a) && AllowsApart(s, a, i)
    requires s.q.nextSequence == |s.h.log|
    ensures var t := Step(s, a, clamp); AllowInv(i, t.allows, t.q.forgotten, t.flushes, t.h.log)
  {
    hide AllowInv; hide SaveEffect; hide FlushEffect; hide TakeEffect; hide FilterEffect; hide WriteEffect;
    hide CompleteEffect; hide LoadEffect; hide InstallEffect; hide ForgetMarkEffect; hide ForgetRemoveEffect;
    hide IssueEffect; hide AllowsApart;
    if WriterStep(a) { WriterStepAllows(i, s, a, clamp); }
    else if PrefetchStep(a) { PrefetchStepAllows(i, s, a, clamp); }
    else if AllowStep(a) { AllowStepAllows(i, s, a, clamp); }
    else if a.SaveConnection? { SaveKeepsAllows(i, s, a.id, a.state); }
    else { OtherStepAllows(i, s, a, clamp); }
  }

  /** When the drain of an allow call returned Ok, nothing of its connection is queued or in flight. */
  lemma {:induction false} DrainedIsGone<R>(s: Sys<R>, a: AllowId)
    requires a in s.allows && AllowInv(s.allows[a].id, s.allows, s.q.forgotten, s.flushes, s.h.log)
    requires QueueInv(s.q, s.writer, s.h.log) && FlushInv(s.q, s.flushes)
    requires s.allows[a].Draining? && FlushReturned(s, s.allows[a].flush, true)
    ensures s.allows[a].id !in s.q.pending
    ensures s.writer.InFlight() ==> s.allows[a].id !in s.writer.batch
  {
    assert s.flushes[s.allows[a].flush].target <= s.q.persistedSequence;
    assert forall id | id in s.q.pending :: EntryOf(s.q.pending[id], id, s.h.log);
    assert s.writer.InFlight() ==> forall id | id in s.writer.batch :: EntryOf(s.writer.batch[id], id, s.h.log);
  }

  // ---------- where cached and loaded records come from ----------

  lemma {:induction false} SaveRecords<R>(i: Uuid, s: Sys<R>, id: Uuid, state: R, clamp: R -> R)
    requires RecordsInv(i, s, clamp) && id !in s.q.forgotten && s.q.nextSequence == |s.h.log|
    requires LogInv(s.q, s.mem, s.h.log) && (s.forgetting.Some? ==> s.forgetting.value in s.q.forgotten)
    ensures RecordsInv(i, SaveEffect(s, id, state), clamp)
  {
    var t := SaveEffect(s, id, state);
    assert t.h.log[|s.h.log|] == Save(id, state, s.mem.clock + 1);
    assert forall k | 0 <= k < |s.h.log| :: t.h.log[k] == s.h.log[k];
    forall p | p in t.prefetches ensures LoadFrom(i, p, t.prefetches[p], t.h, clamp) {
      assert LoadFrom(i, p, s.prefetches[p], s.h, clamp);
    }
  }

  lemma {:induction false} WriteRecords<R>(i: Uuid, s: Sys<R>, ok: bool, landed: bool, clamp: R -> R)
    requires RecordsInv(i, s, clamp) && s.writer.Filtered?
    ensures RecordsInv(i, WriteEffect(s, ok, landed, clamp), clamp)
  {
    hide Published; hide PublishedFrom;
    var t := WriteEffect(s, ok, landed, clamp);
    forall p | p in t.prefetches ensures LoadFrom(i, p, t.prefetches[p], t.h, clamp) {
      assert LoadFrom(i, p, s.prefetches[p], s.h, clamp);
    }
  }

  lemma {:induction false} WaitingRecords<R>(i: Uuid, s: Sys<R>, t: Sys<R>, p: PrefetchId, clamp: R -> R)
    requires RecordsInv(i, s, clamp) && t.mem == s.mem && t.forgetting == s.forgetting
    requires t.h.log == s.h.log && t.h.inCache == s.h.inCache && t.h.loadedFrom == s.h.loadedFrom
    requires forall o | o in t.prefetches && o != p :: o in s.prefetches && t.prefetches[o] == s.prefetches[o]
    requires p in t.prefetches ==> !t.prefetches[p].Loaded?
    ensures RecordsInv(i, t, clamp)
  {
    forall o | o in t.prefetches ensures LoadFrom(i, o, t.prefetches[o], t.h, clamp) {
      if o != p { assert LoadFrom(i, o, s.prefetches[o], s.h, clamp); }
    }
  }

  lemma {:induction false} LoadRecords<R(!new)>(i: Uuid, s: Sys<R>, p: PrefetchId, unreadable: set<Uuid>, clamp: R -> R)
    requires Idempotent(clamp) && DiskInv(s.q, s.writer, s.disk, s.h, clamp)
    requires RecordsInv(i, s, clamp) && s.forgetting.None? && p in s.prefetches && s.prefetches[p].Flushing?
    ensures RecordsInv(i, LoadEffect(s, p, unreadable, clamp), clamp)
  {
    var t := LoadEffect(s, p, unreadable, clamp);
    forall o | o in t.prefetches ensures LoadFrom(i, o, t.prefetches[o], t.h, clamp) {
      if o != p { assert LoadFrom(i, o, s.prefetches[o], s.h, clamp); }
    }
  }

  lemma {:induction false} InstallRecords<R>(i: Uuid, s: Sys<R>, p: PrefetchId, clamp: R -> R)
    requires RecordsInv(i, s, clamp) && p in s.prefetches && s.prefetches[p].Loaded?
    ensures RecordsInv(i, InstallEffect(s, p), clamp)
  {
    var t := InstallEffect(s, p);
    assert LoadFrom(i, p, s.prefetches[p], s.h, clamp);
    forall o | o in t.prefetches ensures LoadFrom(i, o, t.prefetches[o], t.h, clamp) {
      assert LoadFrom(i, o, s.prefetches[o], s.h, clamp);
    }
  }

  lemma {:induction false} MarkRecords<R>(i: Uuid, s: Sys<R>, id: Uuid, clamp: R -> R)
    requires RecordsInv(i, s, clamp) && s.forgetting.None?
    requires forall p | p in s.prefetches :: s.prefetches[p].started <= s.mem.clock
    ensures RecordsInv(i, ForgetMarkEffect(s, id), clamp)
  {
    hide RevokedTokens;
    var t := ForgetMarkEffect(s, id);
    forall p | p in t.prefetches ensures LoadFrom(i, p, t.prefetches[p], t.h, clamp) {
      assert LoadFrom(i, p, s.prefetches[p], s.h, clamp);
    }
  }

  lemma {:induction false} RemoveRecords<R>(i: Uuid, s: Sys<R>, ok: bool, clamp: R -> R)
    requires RecordsInv(i, s, clamp) && s.forgetting.Some?
    ensures RecordsInv(i, ForgetRemoveEffect(s, ok), clamp)
  {
    var t := ForgetRemoveEffect(s, ok);
    forall p | p in t.prefetches ensures LoadFrom(i, p, t.prefetches[p], t.h, clamp) {
      assert LoadFrom(i, p, s.prefetches[p], s.h, clamp);
    }
  }

  lemma {:induction false} PrefetchStepRecords<R(!new)>(i: Uuid, s: Sys<R>, a: Action<R>, clamp: R -> R)
    requires Idempotent(clamp) && DiskInv(s.q, s.writer, s.disk, s.h, clamp)
    requires RecordsInv(i, s, clamp) && Enabled(s, a) && PrefetchStep(a)
    ensures RecordsInv(i, Step(s, a, clamp), clamp)
  {
    hide RecordsInv; hide FlushEffect; hide LoadEffect; hide InstallEffect; hide DiskInv; hide Idempotent;
    match a {
      case PrefetchBegin(p, ids) => WaitingRecords(i, s, Step(s, a, clamp), p, clamp);
      case PrefetchFlush(p, f) => FlushIsCalm(s, f); WaitingRecords(i, s, Step(s, a, clamp), p, clamp);
      case PrefetchLoad(p, unreadable) => LoadRecords(i, s, p, unreadable, clamp);
      case PrefetchInstall(p) => InstallRecords(i, s, p, clamp);
      case PrefetchAbort(p) => WaitingRecords(i, s, Step(s, a, clamp), p, clamp);
    }
  }

  lemma {:induction false} CalmRecords<R>(i: Uuid, s: Sys<R>, t: Sys<R>, clamp: R -> R)
    requires RecordsInv(i, s, clamp) && SameRecords(s, t)
    ensures RecordsInv(i, t, clamp)
  {}

  lemma {:induction false} PrefetchStarts<R>(s: Sys<R>, clamp: R -> R)
    requires Inv(s, clamp)
    ensures forall p | p in s.prefetches :: s.prefetches[p].started <= s.mem.clock
  {
    hide LogInv; hide QueueInv; hide NewestInv; hide CoverInv; hide DiskInv; hide ForgottenInv; hide FlushInv;
    hide WakeInv; hide CacheInv;
    assert forall p | p in s.prefetches :: PrefetchOk(p, s.prefetches[p], s.mem, s.flushes, s.h, clamp);
  }

  lemma {:induction false} Blocked<R>(s: Sys<R>, clamp: R -> R)
    requires Inv(s, clamp)
    ensures s.forgetting.Some? ==> s.forgetting.value in s.q.forgotten && !s.writer.Filtered?
  {
    InvParts(s, clamp);
    hide Inv; hide LogInv; hide QueueInv; hide NewestInv; hide CoverInv; hide DiskInv; hide FlushInv; hide WakeInv;
    hide CacheInv;
  }

  lemma {:induction false} StepRecords<R(!new)>(i: Uuid, s: Sys<R>, a: Action<R>, clamp: R -> R)
    requires Idempotent(clamp) && Inv(s, clamp) && RecordsInv(i, s, clamp) && Enabled(s, a)
    ensures RecordsInv(i, Step(s, a, clamp), clamp)
  {
    hide Inv; hide RecordsInv; hide LogInv; hide QueueInv; hide NewestInv; hide CoverInv; hide DiskInv;
    hide SameRecords; hide ForgottenInv; hide FlushInv; hide WakeInv; hide CacheInv; hide Idempotent;
    hide SaveEffect; hide FlushEffect; hide TakeEffect; hide FilterEffect; hide WriteEffect; hide CompleteEffect;
    hide LoadEffect; hide InstallEffect; hide ForgetMarkEffect; hide ForgetRemoveEffect; hide IssueEffect;
    InvParts(s, clamp);
    Blocked(s, clamp);
    SequenceCountsLog(s, clamp);
    if Calm(a) {
      CalmFrame(s, a, clamp);
      CalmRecords(i, s, Step(s, a, clamp), clamp);
    } else if PrefetchStep(a) {
      PrefetchStepRecords(i, s, a, clamp);
    } else {
      match a {
        case SaveConnection(id, state, _) => SaveRecords(i, s, id, state, clamp);
        case WriterWrite(ok, landed) => WriteRecords(i, s, ok, landed, clamp);
        case ForgetMark(id) => PrefetchStarts(s, clamp); MarkRecords(i, s, id, clamp);
        case ForgetRemove(ok) => RemoveRecords(i, s, ok, clamp);
      }
    }
  }

  /** Every step keeps the invariant about `id`, if it begins no second allow call for `id`. */
  lemma {:induction false} StepForgets<R(!new)>(i: Uuid, s: Sys<R>, a: Action<R>, clamp: R -> R)
    requires Idempotent(clamp) && Inv(s, clamp) && ForgetInv(i, s, clamp) && Enabled(s, a) && AllowsApart(s, a, i)
    ensures ForgetInv(i, Step(s, a, clamp), clamp)
  {
    hide Inv; hide AllowInv; hide CacheFrom; hide LoadsFrom; hide Quiet; hide Idempotent; hide Step; hide Enabled;
    hide AllowsApart;
    SequenceCountsLog(s, clamp);
    StepAllows(i, s, a, clamp);
    StepRecords(i, s, a, clamp);
  }

  // ---------- after the forget, step by step ----------

  /** What a forget about to remove its record from disk leaves behind. */
  ghost function ForgetOf<R>(s: Sys<R>, ok: bool): Forget<R>
    requires s.forgetting.Some? && s.forgetting.value in s.h.mark
  {
    var id := s.forgetting.value;
    Forget(id, s.h.mark[id], if !ok && id in s.disk then Some(s.disk[id]) else None)
  }

  lemma {:induction false} RemoveBeginsLoads<R>(s: Sys<R>, ok: bool, clamp: R -> R)
    requires s.forgetting.Some? && s.forgetting.value in s.h.mark
    requires Quiet(s.forgetting.value, s.forgetting, s.mem, s.prefetches, s.h)
    ensures var t := ForgetRemoveEffect(s, ok);
      CacheSince(ForgetOf(s, ok), t.mem, t.h, clamp) && LoadsSince(ForgetOf(s, ok), t.prefetches, t.mem.savedAt, t.h,
                                                                   clamp)
  {
    hide LeftOver;
  }

  lemma {:induction false} RemoveBeginsDisk<R>(s: Sys<R>, ok: bool, clamp: R -> R)
    requires s.forgetting.Some? && s.forgetting.value in s.h.mark && s.disk.Keys == s.h.onDisk.Keys
    ensures var t := ForgetRemoveEffect(s, ok); DiskSince(ForgetOf(s, ok), t.disk, t.h, clamp)
  {}

  /** The removal leaves everything of the connection as the theorem needs it, whether it succeeded or not. */
  lemma {:induction false} RemoveBegins<R>(s: Sys<R>, ok: bool, clamp: R -> R)
    requires Inv(s, clamp) && s.forgetting.Some? && RecordsInv(s.forgetting.value, s, clamp)
    requires s.forgetting.value in s.h.mark && s.h.mark[s.forgetting.value] <= |s.h.log|
    ensures Since(ForgetOf(s, ok), ForgetRemoveEffect(s, ok), clamp)
  {
    hide Inv; hide LogInv; hide QueueInv; hide NewestInv; hide CoverInv; hide ForgottenInv; hide FlushInv;
    hide WakeInv; hide CacheInv; hide DiskInv; hide CacheSince; hide LoadsSince; hide DiskSince; hide CacheFrom;
    hide LoadsFrom; hide Quiet;
    Blocked(s, clamp);
    InvParts(s, clamp);
    DiskKeys(s, clamp);
    RemoveBeginsLoads(s, ok, clamp);
    RemoveBeginsDisk(s, ok, clamp);
  }

  lemma {:induction false} SaveSince<R>(f: Forget<R>, s: Sys<R>, id: Uuid, state: R, clamp: R -> R)
    requires Since(f, s, clamp) && s.q.nextSequence == |s.h.log| && LogInv(s.q, s.mem, s.h.log)
    ensures Since(f, SaveEffect(s, id, state), clamp)
  {
    var t := SaveEffect(s, id, state);
    forall p | p in t.prefetches ensures LoadSince(f, p, t.prefetches[p], t.mem.savedAt, t.h, clamp) {
      assert LoadSince(f, p, s.prefetches[p], s.mem.savedAt, s.h, clamp);
    }
  }

  lemma {:induction false} TakeSince<R>(f: Forget<R>, q: Queue<R>, w: Writer<R>, newest: nat)
    requires EntriesSince(f, q, w) && !w.InFlight()
    ensures EntriesSince(f, q, Idle) && EntriesSince(f, q.(pending := map[]), Took(q.pending, newest))
  {}

  lemma {:induction false} WriterEntries<R>(f: Forget<R>, s: Sys<R>, a: Action<R>, clamp: R -> R)
    requires EntriesSince(f, s.q, s.writer) && Enabled(s, a) && WriterStep(a) && Calm(a)
    ensures var t := Step(s, a, clamp); EntriesSince(f, t.q, t.writer)
  {
    hide Newest; hide CompleteEffect;
    match a {
      case WriterReceive => assert Step(s, a, clamp) == s.(wake := false, writer := Woken);
      case WriterTake =>
        if s.q.pending != map[] {
          var newest := Newest(s.q.pending);
          TakeSince(f, s.q, s.writer, newest);
          assert Step(s, a, clamp) == s.(writer := Took(s.q.pending, newest), q := s.q.(pending := map[]));
        } else {
          assert Step(s, a, clamp) == s.(writer := Idle);
        }
      case WriterFilter => assert Step(s, a, clamp) == FilterEffect(s);
      case WriterComplete => assert Step(s, a, clamp) == CompleteEffect(s); CompleteFrame(s); CompleteEntries(f, s);
    }
  }

  lemma {:induction false} CompleteEntries<R>(f: Forget<R>, s: Sys<R>)
    requires EntriesSince(f, s.q, s.writer) && s.writer.Wrote?
    ensures EntriesSince(f, CompleteEffect(s).q, Idle)
  {}

  /** An entry of the connection that is queued or in flight was accepted before the forget. */
  ghost predicate Stale<R>(f: Forget<R>, q: Queue<R>, w: Writer<R>) {
    || (f.id in q.pending && q.pending[f.id].sequence <= f.mark)
    || (w.InFlight() && f.id in w.batch && w.batch[f.id].sequence <= f.mark)
  }

  /** If the step ends an allow call of the connection, then at a time when nothing is stale. */
  ghost predicate CleanLift<R>(f: Forget<R>, s: Sys<R>, a: Action<R>) {
    a.AllowLift? && a.a in s.allows && s.allows[a.a].id == f.id ==> !Stale(f, s.q, s.writer)
  }

  lemma {:induction false} ClientEntries<R>(f: Forget<R>, s: Sys<R>, a: Action<R>, clamp: R -> R)
    requires EntriesSince(f, s.q, s.writer) && Enabled(s, a) && !WriterStep(a) && Calm(a)
    ensures var t := Step(s, a, clamp); EntriesSince(f, t.q, t.writer) <==> CleanLift(f, s, a)
  {
    CalmClient(s, a, clamp);
    if a.AllowLift? {
      assert Step(s, a, clamp).q == s.q.(forgotten := s.q.forgotten - {s.allows[a.a].id});
    } else {
      hide Step; hide Enabled;
    }
  }

  lemma {:induction false} CalmSince<R>(f: Forget<R>, s: Sys<R>, t: Sys<R>, clamp: R -> R)
    requires Since(f, s, clamp) && SameRecords(s, t)
    ensures Since(f, t, clamp) <==> EntriesSince(f, t.q, t.writer)
  {
    hide EntriesSince; hide DiskSince; hide CacheSince; hide LoadsSince;
  }

  lemma {:induction false} WriteSince<R(!new)>(f: Forget<R>, s: Sys<R>, ok: bool, landed: bool, clamp: R -> R)
    requires Idempotent(clamp) && DiskInv(s.q, s.writer, s.disk, s.h, clamp)
    requires Since(f, s, clamp) && s.writer.Filtered?
    ensures Since(f, WriteEffect(s, ok, landed, clamp), clamp)
  {
    var t := WriteEffect(s, ok, landed, clamp);
    WriteDiskSince(f, s, ok, landed, clamp);
    hide DiskSince; hide DiskInv; hide Published; hide PublishedFrom; hide Idempotent;
    forall p | p in t.prefetches ensures LoadSince(f, p, t.prefetches[p], t.mem.savedAt, t.h, clamp) {
      assert LoadSince(f, p, s.prefetches[p], s.mem.savedAt, s.h, clamp);
    }
  }

  lemma {:induction false} WriteDiskSince<R(!new)>(f: Forget<R>, s: Sys<R>, ok: bool, landed: bool, clamp: R -> R)
    requires Idempotent(clamp) && DiskInv(s.q, s.writer, s.disk, s.h, clamp)
    requires EntriesSince(f, s.q, s.writer) && DiskSince(f, s.disk, s.h, clamp) && s.writer.Filtered?
    ensures var t := WriteEffect(s, ok, landed, clamp); DiskSince(f, t.disk, t.h, clamp)
  {
    if landed && f.id in s.disk && f.left.Some? { assert clamp(clamp(f.left.value)) == clamp(f.left.value); }
  }

  lemma {:induction false} WaitingSince<R>(f: Forget<R>, s: Sys<R>, t: Sys<R>, p: PrefetchId, clamp: R -> R)
    requires Since(f, s, clamp) && t.mem == s.mem && t.disk == s.disk && t.writer == s.writer
    requires t.q.forgotten == s.q.forgotten && t.q.pending == s.q.pending
    requires t.h.log == s.h.log && t.h.inCache == s.h.inCache && t.h.loadedFrom == s.h.loadedFrom
             && t.h.onDisk == s.h.onDisk
    requires forall o | o in t.prefetches && o != p :: o in s.prefetches && t.prefetches[o] == s.prefetches[o]
    requires p in t.prefetches ==> !t.prefetches[p].Loaded?
    ensures Since(f, t, clamp)
  {
    forall o | o in t.prefetches ensures LoadSince(f, o, t.prefetches[o], t.mem.savedAt, t.h, clamp) {
      if o != p { assert LoadSince(f, o, s.prefetches[o], s.mem.savedAt, s.h, clamp); }
    }
  }

  lemma {:induction false} LoadingSince<R(!new)>(f: Forget<R>, s: Sys<R>, p: PrefetchId, unreadable: set<Uuid>,
                                                 clamp: R -> R)
    requires Idempotent(clamp) && Since(f, s, clamp) && p in s.prefetches && s.prefetches[p].Flushing?
    ensures Since(f, LoadEffect(s, p, unreadable, clamp), clamp)
  {
    hide EntriesSince;
    var t := LoadEffect(s, p, unreadable, clamp);
    if f.left.Some? { assert clamp(clamp(f.left.value)) == clamp(f.left.value); }
    forall o | o in t.prefetches ensures LoadSince(f, o, t.prefetches[o], t.mem.savedAt, t.h, clamp) {
      if o != p { assert LoadSince(f, o, s.prefetches[o], s.mem.savedAt, s.h, clamp); }
    }
  }

  lemma {:induction false} InstallSince<R>(f: Forget<R>, s: Sys<R>, p: PrefetchId, clamp: R -> R)
    requires Since(f, s, clamp) && p in s.prefetches && s.prefetches[p].Loaded?
             && LoadsFrom(f.id, s.prefetches, s.h, clamp)
    ensures Since(f, InstallEffect(s, p), clamp)
  {
    hide EntriesSince;
    var t := InstallEffect(s, p);
    assert LoadFrom(f.id, p, s.prefetches[p], s.h, clamp);
    assert LoadSince(f, p, s.prefetches[p], s.mem.savedAt, s.h, clamp);
    forall o | o in t.prefetches ensures LoadSince(f, o, t.prefetches[o], t.mem.savedAt, t.h, clamp) {
      assert LoadSince(f, o, s.prefetches[o], s.mem.savedAt, s.h, clamp);
    }
  }

  lemma {:induction false} MarkSince<R>(f: Forget<R>, s: Sys<R>, id: Uuid, clamp: R -> R)
    requires Since(f, s, clamp) && LockFree(s)
    requires forall p | p in s.prefetches :: s.prefetches[p].started <= s.mem.clock
    ensures Since(f, ForgetMarkEffect(s, id), clamp)
  {
    hide RevokedTokens;
    var t := ForgetMarkEffect(s, id);
    forall p | p in t.prefetches ensures LoadSince(f, p, t.prefetches[p], t.mem.savedAt, t.h, clamp) {
      assert LoadSince(f, p, s.prefetches[p], s.mem.savedAt, s.h, clamp);
    }
  }

  lemma {:induction false} RemoveSince<R>(f: Forget<R>, s: Sys<R>, ok: bool, clamp: R -> R)
    requires Since(f, s, clamp) && s.forgetting.Some?
    ensures Since(f, ForgetRemoveEffect(s, ok), clamp)
  {
    hide EntriesSince;
    var t := ForgetRemoveEffect(s, ok);
    forall p | p in t.prefetches ensures LoadSince(f, p, t.prefetches[p], t.mem.savedAt, t.h, clamp) {
      assert LoadSince(f, p, s.prefetches[p], s.mem.savedAt, s.h, clamp);
    }
  }

  lemma {:induction false} PrefetchStepSince<R(!new)>(f: Forget<R>, s: Sys<R>, a: Action<R>, clamp: R -> R)
    requires Idempotent(clamp) && LoadsFrom(f.id, s.prefetches, s.h, clamp)
    requires Since(f, s, clamp) && Enabled(s, a) && PrefetchStep(a)
    ensures Since(f, Step(s, a, clamp), clamp)
  {
    hide Since; hide LoadsFrom; hide FlushEffect; hide LoadEffect; hide InstallEffect; hide Idempotent;
    match a {
      case PrefetchBegin(p, ids) => WaitingSince(f, s, Step(s, a, clamp), p, clamp);
      case PrefetchFlush(p, g) => FlushIsCalm(s, g); WaitingSince(f, s, Step(s, a, clamp), p, clamp);
      case PrefetchLoad(p, unreadable) => LoadingSince(f, s, p, unreadable, clamp);
      case PrefetchInstall(p) => InstallSince(f, s, p, clamp);
      case PrefetchAbort(p) => WaitingSince(f, s, Step(s, a, clamp), p, clamp);
    }
  }

  lemma {:induction false} CalmStepSince<R>(f: Forget<R>, s: Sys<R>, a: Action<R>, clamp: R -> R)
    requires Since(f, s, clamp) && Enabled(s, a) && Calm(a)
    ensures Since(f, Step(s, a, clamp), clamp) <==> CleanLift(f, s, a)
  {
    hide Step; hide Enabled; hide SameRecords; hide EntriesSince; hide DiskSince; hide CacheSince; hide LoadsSince;
    hide Stale;
    CalmFrame(s, a, clamp);
    if WriterStep(a) { WriterEntries(f, s, a, clamp); } else { ClientEntries(f, s, a, clamp); }
    CalmSince(f, s, Step(s, a, clamp), clamp);
  }

  /** The only step after which something forgotten may come back is the end of an allow call with stale entries. */
  lemma {:induction false} StepSince<R(!new)>(f: Forget<R>, s: Sys<R>, a: Action<R>, clamp: R -> R)
    requires Idempotent(clamp) && Inv(s, clamp) && RecordsInv(f.id, s, clamp) && Since(f, s, clamp) && Enabled(s, a)
    ensures Since(f, Step(s, a, clamp), clamp) <==> CleanLift(f, s, a)
  {
    hide Inv; hide Since; hide LogInv; hide QueueInv; hide NewestInv; hide CoverInv; hide DiskInv; hide CacheFrom;
    hide ForgottenInv; hide FlushInv; hide WakeInv; hide CacheInv; hide Idempotent; hide LoadsFrom; hide Quiet;
    hide Stale; hide SaveEffect; hide FlushEffect; hide TakeEffect; hide FilterEffect; hide WriteEffect;
    hide CompleteEffect; hide LoadEffect; hide InstallEffect; hide ForgetMarkEffect; hide ForgetRemoveEffect;
    hide IssueEffect;
    InvParts(s, clamp);
    SequenceCountsLog(s, clamp);
    if Calm(a) {
      CalmStepSince(f, s, a, clamp);
    } else if PrefetchStep(a) {
      PrefetchStepSince(f, s, a, clamp);
    } else {
      match a {
        case SaveConnection(id, state, _) => SaveSince(f, s, id, state, clamp);
        case WriterWrite(ok, landed) => WriteSince(f, s, ok, landed, clamp);
        case ForgetMark(id) => PrefetchStarts(s, clamp); MarkSince(f, s, id, clamp);
        case ForgetRemove(ok) => RemoveSince(f, s, ok, clamp);
      }
    }
  }

  // ---------- the theorem ----------

  ghost predicate AllowsApartUntil<R>(tr: seq<Sys<R>>, acts: seq<Action<R>>, id: Uuid, n: nat) {
    n <= |acts| < |tr| && forall k | 0 <= k < n :: AllowsApart(tr[k], acts[k], id)
  }

  lemma {:induction false} AlwaysForgets<R(!new)>(tr: seq<Sys<R>>, acts: seq<Action<R>>, clamp: R -> R, id: Uuid,
                                                  n: nat)
    requires Idempotent(clamp) && Behaviour(tr, acts, clamp) && AllowsApartUntil(tr, acts, id, n)
    ensures ForgetInv(id, tr[n], clamp)
  {
    hide Inv; hide ForgetInv; hide Idempotent; hide Step; hide Enabled; hide AllowsApart;
    if n == 0 {
      InitForget(id, tr[0], clamp);
    } else {
      AlwaysForgets(tr, acts, clamp, id, n - 1);
      AlwaysInv(tr, acts, clamp, n - 1);
      assert Enabled(tr[n - 1], acts[n - 1]) && AllowsApart(tr[n - 1], acts[n - 1], id);
      StepForgets(id, tr[n - 1], acts[n - 1], clamp);
    }
  }

  lemma {:induction false} AlwaysRecords<R(!new)>(tr: seq<Sys<R>>, acts: seq<Action<R>>, clamp: R -> R, id: Uuid,
                                                  n: nat)
    requires Idempotent(clamp) && Behaviour(tr, acts, clamp) && n < |tr|
    ensures RecordsInv(id, tr[n], clamp)
  {
    hide Inv; hide Idempotent; hide Step; hide Enabled;
    if n == 0 {
      InitForget(id, tr[0], clamp);
    } else {
      hide RecordsInv;
      AlwaysRecords(tr, acts, clamp, id, n - 1);
      AlwaysInv(tr, acts, clamp, n - 1);
      assert Enabled(tr[n - 1], acts[n - 1]);
      StepRecords(id, tr[n - 1], acts[n - 1], clamp);
    }
  }

  ghost predicate CleanLifts<R>(f: Forget<R>, tr: seq<Sys<R>>, acts: seq<Action<R>>, i: nat, j: nat) {
    i <= j <= |acts| < |tr| && forall k | i <= k < j :: CleanLift(f, tr[k], acts[k])
  }

  /** Through a run nothing from before the forget comes back, if and only if every allow call ends cleanly. */
  lemma {:induction false} SinceExactly<R(!new)>(tr: seq<Sys<R>>, acts: seq<Action<R>>, clamp: R -> R, f: Forget<R>,
                                                 i: nat, j: nat)
    requires Idempotent(clamp) && Behaviour(tr, acts, clamp) && i <= j < |tr| && Since(f, tr[i], clamp)
    ensures CleanLifts(f, tr, acts, i, j) <==> forall k | i <= k <= j :: Since(f, tr[k], clamp)
    decreases j
  {
    hide Inv; hide RecordsInv; hide Idempotent; hide Step; hide Enabled; hide CleanLift; hide Since;
    if i < j {
      SinceExactly(tr, acts, clamp, f, i, j - 1);
      assert CleanLifts(f, tr, acts, i, j) <==>
               CleanLifts(f, tr, acts, i, j - 1) && CleanLift(f, tr[j - 1], acts[j - 1]);
      assert (forall k | i <= k <= j :: Since(f, tr[k], clamp)) <==>
               (forall k | i <= k <= j - 1 :: Since(f, tr[k], clamp)) && Since(f, tr[j], clamp);
      if Since(f, tr[j - 1], clamp) {
        AlwaysRecords(tr, acts, clamp, f.id, j - 1);
        AlwaysInv(tr, acts, clamp, j - 1);
        assert Enabled(tr[j - 1], acts[j - 1]);
        StepSince(f, tr[j - 1], acts[j - 1], clamp);
      }
    }
  }

  lemma {:induction false} DrainedIsClean<R>(f: Forget<R>, s: Sys<R>, a: Action<R>)
    requires Enabled(s, a) && AllowInv(f.id, s.allows, s.q.forgotten, s.flushes, s.h.log)
    requires QueueInv(s.q, s.writer, s.h.log) && FlushInv(s.q, s.flushes)
    ensures CleanLift(f, s, a)
  {
    hide AllowInv; hide QueueInv; hide FlushInv;
    if a.AllowLift? && s.allows[a.a].id == f.id { DrainedIsGone(s, a.a); }
  }

  /** Allow calls that do not overlap end cleanly, because each has drained the queue by itself. */
  lemma {:induction false} ApartIsClean<R(!new)>(tr: seq<Sys<R>>, acts: seq<Action<R>>, clamp: R -> R, f: Forget<R>,
                                                 i: nat, j: nat)
    requires Idempotent(clamp) && Behaviour(tr, acts, clamp) && i <= j && AllowsApartUntil(tr, acts, f.id, j)
    ensures CleanLifts(f, tr, acts, i, j)
  {
    hide Inv; hide AllowInv; hide RecordsInv; hide Idempotent; hide Step; hide Enabled; hide AllowsApart;
    hide QueueInv; hide FlushInv; hide CleanLift;
    forall k | i <= k < j ensures CleanLift(f, tr[k], acts[k]) {
      assert AllowsApartUntil(tr, acts, f.id, k) && Enabled(tr[k], acts[k]);
      AlwaysForgets(tr, acts, clamp, f.id, k);
      AlwaysInv(tr, acts, clamp, k);
      InvParts(tr[k], clamp);
      DrainedIsClean(f, tr[k], acts[k]);
    }
  }

  /** `r` is a save of `id` accepted as number `from + 1` or later, as saved or as clamped by disk. */
  ghost predicate SavedAfter<R>(r: R, id: Uuid, from: nat, log: seq<Save<R>>, clamp: R -> R) {
    exists m | from <= m < |log| :: log[m].id == id && (r == log[m].state || r == clamp(log[m].state))
  }

  /** The record that a failed removal found on disk, as it was or clamped. */
  ghost predicate Unremoved<R>(r: R, id: Uuid, ok: bool, disk: map<Uuid, R>, clamp: R -> R) {
    !ok && id in disk && (r == disk[id] || r == clamp(disk[id]))
  }

  /** What disk or cache may hold for `id` after step `i` removed it, or failed to. */
  ghost predicate NotBefore<R>(r: R, id: Uuid, ok: bool, before: Sys<R>, now: Sys<R>, clamp: R -> R) {
    && id in before.h.mark
    && (SavedAfter(r, id, before.h.mark[id], now.h.log, clamp) || Unremoved(r, id, ok, before.disk, clamp))
  }

  /**
   After a forget of `id` (its disk removal is step `i`), whatever disk or cache holds for `id` in any
   later state comes from a save accepted after the forget began, if allow calls of `id` end only at
   times when no entry of `id` from before the forget is queued or in flight. Only when that removal
   failed, it may be the stored record it should have removed. Other forgets, of `id` or of other
   connections, and the allow calls of other connections may go as they like.
   */
  lemma {:induction false} CleanlyForgotten<R(!new)>(tr: seq<Sys<R>>, acts: seq<Action<R>>, clamp: R -> R,
                                                     i: nat, j: nat, id: Uuid, ok: bool)
    requires Idempotent(clamp) && Behaviour(tr, acts, clamp) && i < j < |tr|
    requires acts[i] == ForgetRemove(ok) && tr[i].forgetting == Some(id)
    requires id in tr[i].h.mark ==> CleanLifts(ForgetOf(tr[i], ok), tr, acts, i + 1, j)
    ensures id in tr[i].h.mark
    ensures id in tr[j].disk ==> NotBefore(tr[j].disk[id], id, ok, tr[i], tr[j], clamp)
    ensures id in tr[j].mem.cache && tr[j].mem.cache[id].Some? ==>
              NotBefore(tr[j].mem.cache[id].value, id, ok, tr[i], tr[j], clamp)
  {
    hide Inv; hide RecordsInv; hide Idempotent; hide Since; hide SavedAfter; hide CleanLift; hide Step; hide Enabled;
    RemovalBegins(tr, acts, clamp, i, id, ok);
    var f := ForgetOf(tr[i], ok);
    SinceExactly(tr, acts, clamp, f, i + 1, j);
    AlwaysInv(tr, acts, clamp, j);
    AlwaysRecords(tr, acts, clamp, id, j);
    StoredIsFresh(f, tr[j], clamp);
  }

  /** The same, if only no two allow calls of `id` overlap. */
  lemma {:induction false} ForgottenStaysGone<R(!new)>(tr: seq<Sys<R>>, acts: seq<Action<R>>, clamp: R -> R,
                                                       i: nat, j: nat, id: Uuid, ok: bool)
    requires Idempotent(clamp) && Behaviour(tr, acts, clamp) && i < j && AllowsApartUntil(tr, acts, id, j)
    requires acts[i] == ForgetRemove(ok) && tr[i].forgetting == Some(id)
    ensures id in tr[i].h.mark
    ensures id in tr[j].disk ==> NotBefore(tr[j].disk[id], id, ok, tr[i], tr[j], clamp)
    ensures id in tr[j].mem.cache && tr[j].mem.cache[id].Some? ==>
              NotBefore(tr[j].mem.cache[id].value, id, ok, tr[i], tr[j], clamp)
  {
    hide Idempotent; hide Behaviour; hide AllowsApart; hide CleanLift; hide NotBefore; hide Step;
    if id in tr[i].h.mark { ApartIsClean(tr, acts, clamp, ForgetOf(tr[i], ok), i + 1, j); }
    CleanlyForgotten(tr, acts, clamp, i, j, id, ok);
  }

  lemma {:induction false} RemovalBegins<R(!new)>(tr: seq<Sys<R>>, acts: seq<Action<R>>, clamp: R -> R, i: nat,
                                                  id: Uuid, ok: bool)
    requires Idempotent(clamp) && Behaviour(tr, acts, clamp) && i < |acts|
    requires acts[i] == ForgetRemove(ok) && tr[i].forgetting == Some(id)
    ensures id in tr[i].h.mark && Since(ForgetOf(tr[i], ok), tr[i + 1], clamp)
  {
    hide Inv; hide Idempotent; hide Since; hide RecordsInv;
    AlwaysInv(tr, acts, clamp, i);
    AlwaysRecords(tr, acts, clamp, id, i);
    RemovedWasMarked(tr[i], clamp);
    InvCounts(tr[i], clamp);
    assert tr[i + 1] == Step(tr[i], acts[i], clamp);
    RemoveBegins(tr[i], ok, clamp);
  }

  lemma {:induction false} StoredIsFresh<R>(f: Forget<R>, s: Sys<R>, clamp: R -> R)
    requires Inv(s, clamp) && RecordsInv(f.id, s, clamp) && Since(f, s, clamp)
    ensures f.id in s.disk ==>
              SavedAfter(s.disk[f.id], f.id, f.mark, s.h.log, clamp) || LeftOver(f, s.disk[f.id], clamp)
    ensures f.id in s.mem.cache && s.mem.cache[f.id].Some? ==>
              SavedAfter(s.mem.cache[f.id].value, f.id, f.mark, s.h.log, clamp)
                || LeftOver(f, s.mem.cache[f.id].value, clamp)
  {
    hide Inv; hide LogInv; hide QueueInv; hide NewestInv; hide CoverInv; hide ForgottenInv; hide FlushInv;
    hide WakeInv; hide CacheInv; hide AllowInv; hide EntriesSince; hide LoadsSince; hide LoadsFrom; hide Quiet;
    hide LeftOver;
    InvParts(s, clamp);
    if f.id in s.disk && !LeftOver(f, s.disk[f.id], clamp) {
      var m := s.h.onDisk[f.id] - 1;
      assert f.mark <= m < |s.h.log| && s.h.log[m].id == f.id && s.disk[f.id] == clamp(s.h.log[m].state);
    }
    if f.id in s.mem.cache && s.mem.cache[f.id].Some? && !LeftOver(f, s.mem.cache[f.id].value, clamp) {
      var m := s.h.inCache[f.id] - 1;
      assert f.mark <= m < |s.h.log| && s.h.log[m].id == f.id;
    }
  }

  /**
   A remark on the case of a failed removal above: right after the removal step the record is on disk
   exactly when it was there and the removal failed, and nothing else moved.
   */
  lemma {:induction false} RemovalDecides<R>(s: Sys<R>, ok: bool, clamp: R -> R, id: Uuid)
    requires Enabled(s, ForgetRemove(ok)) && s.forgetting == Some(id)
    ensures var t := Step(s, ForgetRemove(ok), clamp);
      && (id in t.disk <==> !ok && id in s.disk)
      && (forall other | other != id :: other in t.disk <==> other in s.disk)
      && (forall other | other in t.disk :: t.disk[other] == s.disk[other])
  {
    assert Step(s, ForgetRemove(ok), clamp) == ForgetRemoveEffect(s, ok);
  }

  // ---------- save tokens ----------

  /** A connection has at most one usable token, the one the store points at. */
  ghost predicate TokenInv(saveTokens: map<Uuid, TokenId>, tokens: map<TokenId, Token>) {
    && (forall t | t in tokens && tokens[t].held && tokens[t].valid ::
          tokens[t].owner in saveTokens && saveTokens[tokens[t].owner] == t)
    && (forall id | id in saveTokens :: saveTokens[id] in tokens && tokens[saveTokens[id]].owner == id)
  }

  lemma {:induction false} TokensFrame<R>(s: Sys<R>, a: Action<R>, clamp: R -> R)
    requires Enabled(s, a) && !a.ForgetMark? && !a.IssueToken? && !a.DropToken?
    ensures var t := Step(s, a, clamp); t.tokens == s.tokens && t.q.saveTokens == s.q.saveTokens
  {
    hide CompleteEffect; hide TakeEffect; hide FilterEffect; hide WriteEffect; hide LoadEffect; hide InstallEffect;
    hide ForgetMarkEffect; hide IssueEffect;
    if WriterStep(a) {
      TokensWriterFrame(s, a, clamp);
      hide Step; hide Enabled;
    } else if PrefetchStep(a) {
      TokensPrefetchFrame(s, a, clamp);
      hide Step; hide Enabled;
    } else {
      TokensClientFrame(s, a, clamp);
      hide Step; hide Enabled;
    }
  }

  lemma {:induction false} TokensClientFrame<R>(s: Sys<R>, a: Action<R>, clamp: R -> R)
    requires Enabled(s, a) && !WriterStep(a) && !PrefetchStep(a) && !a.ForgetMark? && !a.IssueToken? && !a.DropToken?
    ensures var t := Step(s, a, clamp); t.tokens == s.tokens && t.q.saveTokens == s.q.saveTokens
  {
    hide CompleteEffect; hide TakeEffect; hide FilterEffect; hide WriteEffect; hide LoadEffect; hide InstallEffect;
    hide ForgetMarkEffect; hide IssueEffect;
    match a {
      case SaveConnection(id, state, _) => assert Step(s, a, clamp) == SaveEffect(s, id, state);
      case WakeWriter => assert Step(s, a, clamp) == s.(wake := true);
      case FlushStart(f) => assert Step(s, a, clamp) == FlushEffect(s, f);
      case FlushWake(f) =>
        assert Step(s, a, clamp) == s.(wake := true, flushes := s.flushes[f := s.flushes[f].(woken := true)]);
      case ForgetRemove(ok) => assert Step(s, a, clamp) == ForgetRemoveEffect(s, ok);
      case AllowCheck(c, id) => assert Step(s, a, clamp) == s.(allows := s.allows[c := Checked(id)]);
      case AllowFlush(c, f) =>
        assert Step(s, a, clamp) == FlushEffect(s, f).(allows := s.allows[c := Draining(s.allows[c].id, f)]);
      case AllowLift(c) =>
        assert Step(s, a, clamp) == s.(q := s.q.(forgotten := s.q.forgotten - {s.allows[c].id}),
                                       allows := s.allows - {c});
      case AllowAbort(c) => assert Step(s, a, clamp) == s.(allows := s.allows - {c});
    }
  }

  lemma {:induction false} TokensPrefetchFrame<R>(s: Sys<R>, a: Action<R>, clamp: R -> R)
    requires Enabled(s, a) && PrefetchStep(a)
    ensures var t := Step(s, a, clamp); t.tokens == s.tokens && t.q.saveTokens == s.q.saveTokens
  {
    hide CacheInstalled; hide Installable; hide InstalledFrom; hide ReadBack; hide ReadFrom;
  }

  lemma {:induction false} CompleteTokensFrame<R>(s: Sys<R>)
    requires s.writer.Wrote?
    ensures var t := CompleteEffect(s); t.tokens == s.tokens && t.q.saveTokens == s.q.saveTokens
  {}

  lemma {:induction false} TakeTokensFrame<R>(s: Sys<R>)
    ensures TakeEffect(s).tokens == s.tokens && TakeEffect(s).q.saveTokens == s.q.saveTokens
  {
    hide Newest;
    if s.q.pending != map[] {
      var newest := Newest(s.q.pending);
      assert TakeEffect(s) == s.(writer := Took(s.q.pending, newest), q := s.q.(pending := map[]));
    }
  }

  lemma {:induction false} WriteTokensFrame<R>(s: Sys<R>, ok: bool, landed: bool, clamp: R -> R)
    requires s.writer.Filtered?
    ensures var t := WriteEffect(s, ok, landed, clamp); t.tokens == s.tokens && t.q.saveTokens == s.q.saveTokens
  {
    hide Published; hide PublishedFrom;
  }

  lemma {:induction false} TokensWriterFrame<R>(s: Sys<R>, a: Action<R>, clamp: R -> R)
    requires Enabled(s, a) && WriterStep(a)
    ensures var t := Step(s, a, clamp); t.tokens == s.tokens && t.q.saveTokens == s.q.saveTokens
  {
    hide Unforgotten; hide CompleteEffect; hide TakeEffect; hide WriteEffect;
    hide SaveEffect; hide FlushEffect; hide LoadEffect; hide InstallEffect; hide ForgetMarkEffect;
    hide ForgetRemoveEffect; hide IssueEffect;
    match a {
      case WriterTake => TakeTokensFrame(s);
      case WriterWrite(ok, landed) => WriteTokensFrame(s, ok, landed, clamp);
      case WriterComplete => CompleteTokensFrame(s);
      case _ =>
    }
  }

  /** A token once invalid stays invalid, and ownership never changes. */
  ghost predicate TokensWear(before: map<TokenId, Token>, after: map<TokenId, Token>) {
    forall t | t in before ::
      t in after && after[t].owner == before[t].owner && (after[t].valid ==> before[t].valid)
      && (after[t].held ==> before[t].held)
  }

  lemma {:induction false} IssueTokens(refs: map<Uuid, TokenId>, tokens: map<TokenId, Token>, forgotten: set<Uuid>,
                                       id: Uuid, t: TokenId)
    requires TokenInv(refs, tokens) && t !in tokens
    ensures TokenInv(IssuedRefs(refs, tokens, forgotten, id, t), IssuedTokens(refs, tokens, forgotten, id, t))
    ensures TokensWear(tokens, IssuedTokens(refs, tokens, forgotten, id, t))
  {
  }

  lemma {:induction false} MarkTokens(refs: map<Uuid, TokenId>, tokens: map<TokenId, Token>, id: Uuid)
    requires TokenInv(refs, tokens)
    ensures TokenInv(refs - {id}, RevokedTokens(refs, tokens, id))
    ensures TokensWear(tokens, RevokedTokens(refs, tokens, id))
    ensures forall t | t in tokens && tokens[t].owner == id ::
              !(RevokedTokens(refs, tokens, id)[t].held && RevokedTokens(refs, tokens, id)[t].valid)
  {
  }

  lemma {:induction false} StepTokens<R>(s: Sys<R>, a: Action<R>, clamp: R -> R)
    requires Enabled(s, a) && TokenInv(s.q.saveTokens, s.tokens)
    ensures var t := Step(s, a, clamp); TokenInv(t.q.saveTokens, t.tokens) && TokensWear(s.tokens, t.tokens)
  {
    if a.ForgetMark? {
      MarkTokens(s.q.saveTokens, s.tokens, a.id);
      hide RevokedTokens; hide TokenInv; hide TokensWear;
    } else if a.IssueToken? {
      IssueTokens(s.q.saveTokens, s.tokens, s.q.forgotten, a.id, a.t);
      hide IssuedRefs; hide IssuedTokens; hide TokenInv; hide TokensWear;
    } else if !a.DropToken? {
      TokensFrame(s, a, clamp);
      hide Step; hide Enabled;
    }
  }

  lemma {:induction false} AlwaysTokens<R>(tr: seq<Sys<R>>, acts: seq<Action<R>>, clamp: R -> R, i: nat, j: nat)
    requires Behaviour(tr, acts, clamp) && i <= j < |tr|
    ensures TokenInv(tr[j].q.saveTokens, tr[j].tokens) && TokensWear(tr[i].tokens, tr[j].tokens)
    decreases j
  {
    hide Step; hide Enabled;
    if j > 0 {
      AlwaysTokens(tr, acts, clamp, if i < j then i else j - 1, j - 1);
      assert Enabled(tr[j - 1], acts[j - 1]);
      StepTokens(tr[j - 1], acts[j - 1], clamp);
    }
  }

  /** No token handed out for `id` before a forget of `id` is ever used by a save after it. */
  lemma {:induction false} RevokedTokenNeverSaves<R>(tr: seq<Sys<R>>, acts: seq<Action<R>>, clamp: R -> R,
                                                     i: nat, j: nat, id: Uuid, t: TokenId)
    requires Behaviour(tr, acts, clamp) && i < j < |acts|
    requires acts[i] == ForgetMark(id) && t in tr[i].tokens && tr[i].tokens[t].owner == id
    ensures !(acts[j].SaveConnection? && acts[j].token == Some(t))
  {
    AlwaysTokens(tr, acts, clamp, 0, i);
    MarkTokens(tr[i].q.saveTokens, tr[i].tokens, id);
    assert tr[i + 1] == Step(tr[i], acts[i], clamp);
    AlwaysTokens(tr, acts, clamp, i + 1, j);
    assert Enabled(tr[j], acts[j]);
  }
}
