/**
 Inductive invariants of the workspace protocol and what they give over whole behaviours:
 a flush answered Ok is durable, stored saves never go back, no flush is stranded, and a prefetch
 never puts older content over a newer save.
 */
module WorkspaceSafety {

  import opened Options
  import opened WorkspaceProtocol

  ghost predicate Idempotent<R(!new)>(clamp: R -> R) {
    forall r :: clamp(clamp(r)) == clamp(r)
  }

  // ---------- invariants ----------

  /** Save numbers count the log; `savedAt` bounds the clock of every save of a connection. */
  ghost predicate LogInv<R>(q: Queue<R>, mem: Memory<R>, log: seq<Save<R>>) {
    && q.nextSequence == |log|
    && (forall k | 0 <= k < |log| ::
          log[k].clock <= mem.clock && log[k].id in mem.savedAt && log[k].clock <= mem.savedAt[log[k].id])
    && (forall id | id in mem.savedAt :: mem.savedAt[id] <= mem.clock)
  }

  ghost predicate EntryOf<R>(e: Entry<R>, id: Uuid, log: seq<Save<R>>) {
    1 <= e.sequence <= |log| && log[e.sequence - 1].id == id && log[e.sequence - 1].state == e.state
  }

  /** Queued and in-flight entries are accepted saves that are not yet persisted. */
  ghost predicate QueueInv<R>(q: Queue<R>, w: Writer<R>, log: seq<Save<R>>) {
    && q.persistedSequence <= q.nextSequence == |log|
    && (forall id | id in q.pending :: EntryOf(q.pending[id], id, log) && q.pending[id].sequence > q.persistedSequence)
    && (w.InFlight() ==>
          && q.persistedSequence < w.attempted <= |log|
          && (forall id | id in w.batch ::
                EntryOf(w.batch[id], id, log) && q.persistedSequence < w.batch[id].sequence <= w.attempted)
          && (forall id | id in q.pending :: q.pending[id].sequence > w.attempted))
  }

  ghost predicate Holds<R>(entries: map<Uuid, Entry<R>>, log: seq<Save<R>>, sequence: nat) {
    1 <= sequence <= |log| && log[sequence - 1].id in entries && entries[log[sequence - 1].id].sequence == sequence
  }

  /** The newest save is never lost: until it is persisted it is queued or in flight. */
  ghost predicate NewestInv<R>(q: Queue<R>, w: Writer<R>, log: seq<Save<R>>) {
    if w.InFlight() then
      && Holds(w.batch, log, w.attempted)
      && (w.attempted < q.nextSequence ==> Holds(q.pending, log, q.nextSequence))
    else
      q.persistedSequence < q.nextSequence ==> Holds(q.pending, log, q.nextSequence)
  }

  ghost predicate Durable(id: Uuid, sequence: nat, onDisk: map<Uuid, nat>, mark: map<Uuid, nat>) {
    (id in onDisk && sequence <= onDisk[id]) || (id in mark && sequence <= mark[id])
  }

  /** Save number `k + 1` is safe, or an entry at least as new is on its way. */
  ghost predicate Covered<R>(k: nat, q: Queue<R>, w: Writer<R>, h: History<R>)
    requires k < |h.log|
  {
    var id := h.log[k].id;
    || Durable(id, k + 1, h.onDisk, h.mark)
    || (w.InFlight() && k < w.attempted && id in w.batch && k < w.batch[id].sequence)
    || ((w.InFlight() ==> k >= w.attempted) && id in q.pending && k < q.pending[id].sequence)
  }

  ghost predicate CoverInv<R>(q: Queue<R>, w: Writer<R>, h: History<R>) {
    && (forall k | 0 <= k < |h.log| :: Covered(k, q, w, h))
    && (forall k | 0 <= k < |h.log| && k < q.persistedSequence :: Durable(h.log[k].id, k + 1, h.onDisk, h.mark))
    && (w.Wrote? && w.ok ==> forall id | id in w.batch :: Durable(id, w.batch[id].sequence, h.onDisk, h.mark))
    && UpdatesInv(w)
    && (w.Filtered? ==>
          forall id | id in w.batch && id !in w.updates :: id in h.mark && w.batch[id].sequence <= h.mark[id])
  }

  /** What the writer is about to store is part of its batch. */
  ghost predicate UpdatesInv<R>(w: Writer<R>) {
    w.Filtered? ==>
      w.updates.Keys <= w.batch.Keys && forall id | id in w.updates :: w.updates[id] == w.batch[id]
  }

  /** Disk records are clamped accepted saves, and nothing queued is older than what is stored. */
  ghost predicate DiskInv<R>(q: Queue<R>, w: Writer<R>, disk: map<Uuid, R>, h: History<R>, clamp: R -> R) {
    && disk.Keys == h.onDisk.Keys
    && (forall id | id in h.onDisk :: h.onDisk[id] > 0 ==>
          && h.onDisk[id] <= |h.log|
          && h.log[h.onDisk[id] - 1].id == id
          && disk[id] == clamp(h.log[h.onDisk[id] - 1].state))
    && (forall id | id in h.onDisk && id in q.pending :: h.onDisk[id] <= q.pending[id].sequence)
    && (w.InFlight() ==> forall id | id in h.onDisk && id in w.batch :: h.onDisk[id] <= w.batch[id].sequence)
  }

  /** While a connection is forgotten none of its saves is newer than its mark. */
  ghost predicate ForgottenInv<R>(q: Queue<R>, forgetting: Option<Uuid>, w: Writer<R>, h: History<R>) {
    && (forall id | id in q.forgotten :: id in h.mark)
    && (forall id | id in h.mark :: h.mark[id] <= |h.log|)
    && (forall k | 0 <= k < |h.log| && h.log[k].id in q.forgotten :: k < h.mark[h.log[k].id])
    && (forgetting.Some? ==> forgetting.value in q.forgotten && !w.Filtered?)
  }

  /** The queue's waiters and the callers' view of them agree; an Ok answer covers its target. */
  ghost predicate FlushInv<R>(q: Queue<R>, flushes: map<FlushId, Flush>) {
    && (forall f | f in flushes :: flushes[f].target <= q.nextSequence)
    && (forall w | w in q.flushes ::
          w.1 in flushes && flushes[w.1].target == w.0 && flushes[w.1].answer == None && w.0 > q.persistedSequence)
    && (forall f | f in flushes && flushes[f].answer == None :: (flushes[f].target, f) in q.flushes)
    && (forall f | f in flushes && flushes[f].answer == Some(true) :: flushes[f].target <= q.persistedSequence)
  }

  /** Somebody is on the way to serve an unanswered flush whose wake was sent. */
  ghost predicate Served<R>(target: nat, wake: bool, w: Writer<R>) {
    wake || w.Woken? || (w.InFlight() && w.attempted >= target)
  }

  ghost predicate WakeInv<R>(flushes: map<FlushId, Flush>, wake: bool, w: Writer<R>) {
    forall f | f in flushes && flushes[f].answer == None && flushes[f].woken :: Served(flushes[f].target, wake, w)
  }

  /** Save number `k + 1` is the latest save of its connection and was not forgotten since. */
  ghost predicate LatestLive<R>(k: nat, h: History<R>)
    requires k < |h.log|
  {
    && (forall j | k < j < |h.log| :: h.log[j].id != h.log[k].id)
    && !(h.log[k].id in h.mark && k < h.mark[h.log[k].id])
  }

  /** A saved connection's cache entry is its latest save, as saved or as disk would return it. */
  ghost predicate CacheInv<R>(mem: Memory<R>, h: History<R>, clamp: R -> R) {
    forall k | 0 <= k < |h.log| && LatestLive(k, h) ::
      && h.log[k].id in mem.cache
      && (mem.cache[h.log[k].id] == Some(h.log[k].state) || mem.cache[h.log[k].id] == Some(clamp(h.log[k].state)))
  }

  ghost predicate Unsaved(id: Uuid, savedAt: map<Uuid, nat>, started: nat) {
    id in savedAt ==> savedAt[id] <= started
  }

  ghost predicate PrefetchOk<R>(p: PrefetchId, pre: Prefetch<R>, mem: Memory<R>, flushes: map<FlushId, Flush>,
                                h: History<R>, clamp: R -> R) {
    && pre.started <= mem.clock
    && p in h.begunAt && h.begunAt[p] <= |h.log|
    && (forall k | h.begunAt[p] <= k < |h.log| :: h.log[k].clock > pre.started)
    && (pre.Flushing? ==> pre.flush in flushes && flushes[pre.flush].target >= h.begunAt[p])
    && (pre.Loaded? ==>
          && p in h.loadedFrom
          && (forall k | 0 <= k < |h.log| && LatestLive(k, h) ::
                h.log[k].id in pre.ids && Unsaved(h.log[k].id, mem.savedAt, pre.started) ==>
                  h.log[k].id in pre.content && pre.content[h.log[k].id] == clamp(h.log[k].state)))
  }

  ghost predicate PrefetchInv<R>(mem: Memory<R>, flushes: map<FlushId, Flush>, prefetches: map<PrefetchId, Prefetch<R>>,
                                 h: History<R>, clamp: R -> R) {
    forall p | p in prefetches :: PrefetchOk(p, prefetches[p], mem, flushes, h, clamp)
  }

  ghost predicate Inv<R>(s: Sys<R>, clamp: R -> R) {
    && LogInv(s.q, s.mem, s.h.log)
    && QueueInv(s.q, s.writer, s.h.log)
    && NewestInv(s.q, s.writer, s.h.log)
    && CoverInv(s.q, s.writer, s.h)
    && DiskInv(s.q, s.writer, s.disk, s.h, clamp)
    && ForgottenInv(s.q, s.forgetting, s.writer, s.h)
    && FlushInv(s.q, s.flushes)
    && WakeInv(s.flushes, s.wake, s.writer)
    && CacheInv(s.mem, s.h, clamp)
    && PrefetchInv(s.mem, s.flushes, s.prefetches, s.h, clamp)
  }

  lemma {:induction false} InitInv<R>(s: Sys<R>, clamp: R -> R)
    requires Init(s)
    ensures Inv(s, clamp)
  {
  }

  // ---------- saving ----------

  lemma {:induction false} SaveKeepsQueue<R>(q: Queue<R>, w: Writer<R>, log: seq<Save<R>>, save: Save<R>)
    requires QueueInv(q, w, log) && NewestInv(q, w, log)
    ensures QueueInv(QueueSave(q, save.id, save.state), w, log + [save])
    ensures NewestInv(QueueSave(q, save.id, save.state), w, log + [save])
  {
    var q', log' := QueueSave(q, save.id, save.state), log + [save];
    forall id | id in q'.pending ensures EntryOf(q'.pending[id], id, log') {
      assert id != save.id ==> EntryOf(q.pending[id], id, log);
    }
    if w.InFlight() {
      forall id | id in w.batch ensures EntryOf(w.batch[id], id, log') {
        assert EntryOf(w.batch[id], id, log);
      }
      assert Holds(w.batch, log, w.attempted);
    }
  }

  lemma {:induction false} SaveKeepsCover<R>(q: Queue<R>, w: Writer<R>, h: History<R>, h': History<R>, save: Save<R>)
    requires QueueInv(q, w, h.log) && CoverInv(q, w, h)
    requires h'.log == h.log + [save] && h'.onDisk == h.onDisk && h'.mark == h.mark
    ensures CoverInv(QueueSave(q, save.id, save.state), w, h')
  {
    var q' := QueueSave(q, save.id, save.state);
    forall k | 0 <= k < |h'.log| ensures Covered(k, q', w, h') {
      if k < |h.log| { assert h'.log[k] == h.log[k] && Covered(k, q, w, h); }
    }
    assert forall k | 0 <= k < |h.log| :: h'.log[k] == h.log[k];
  }

  lemma {:induction false} SaveKeepsDisk<R>(q: Queue<R>, w: Writer<R>, disk: map<Uuid, R>, h: History<R>,
                                            h': History<R>,
                         save: Save<R>, clamp: R -> R)
    requires q.nextSequence == |h.log| && DiskInv(q, w, disk, h, clamp)
    requires h'.log == h.log + [save] && h'.onDisk == h.onDisk
    ensures DiskInv(QueueSave(q, save.id, save.state), w, disk, h', clamp)
  {
    assert forall k | 0 <= k < |h.log| :: h'.log[k] == h.log[k];
  }

  lemma {:induction false} SaveKeepsPrefetch<R>(p: PrefetchId, pre: Prefetch<R>, mem: Memory<R>, mem': Memory<R>,
                             flushes: map<FlushId, Flush>, h: History<R>, h': History<R>, save: Save<R>, clamp: R -> R)
    requires PrefetchOk(p, pre, mem, flushes, h, clamp)
    requires h'.log == h.log + [save] && h'.mark == h.mark && h'.begunAt == h.begunAt && h'.loadedFrom == h.loadedFrom
    requires mem'.clock == mem.clock + 1 == save.clock && mem'.savedAt == mem.savedAt[save.id := save.clock]
    ensures PrefetchOk(p, pre, mem', flushes, h', clamp)
  {
    forall k | 0 <= k < |h.log| ensures h'.log[k] == h.log[k] {}
    if pre.Loaded? {
      forall k | 0 <= k < |h'.log| && LatestLive(k, h') && h'.log[k].id in pre.ids
                 && Unsaved(h'.log[k].id, mem'.savedAt, pre.started)
        ensures h'.log[k].id in pre.content && pre.content[h'.log[k].id] == clamp(h'.log[k].state)
      {
        assert h'.log[|h.log|] == save;
        LatestBefore(k, h, h', save);
      }
    }
  }

  lemma {:induction false} LatestBefore<R>(k: nat, h: History<R>, h': History<R>, save: Save<R>)
    requires h'.log == h.log + [save] && h'.mark == h.mark
    requires k < |h.log| && LatestLive(k, h')
    ensures h'.log[k] == h.log[k] && LatestLive(k, h) && h.log[k].id != save.id
  {
    assert h'.log[|h.log|] == save;
    forall j | k < j < |h.log| ensures h.log[j].id != h.log[k].id {
      assert h'.log[j] == h.log[j];
    }
  }

  lemma {:induction false} SaveKeepsCache<R>(mem: Memory<R>, mem': Memory<R>, h: History<R>, h': History<R>,
                                             save: Save<R>, clamp: R -> R)
    requires CacheInv(mem, h, clamp)
    requires h'.log == h.log + [save] && h'.mark == h.mark
    requires mem'.cache == mem.cache[save.id := Some(save.state)]
    ensures CacheInv(mem', h', clamp)
  {
    forall k | 0 <= k < |h'.log| && LatestLive(k, h')
      ensures h'.log[k].id in mem'.cache
      ensures mem'.cache[h'.log[k].id] == Some(h'.log[k].state)
              || mem'.cache[h'.log[k].id] == Some(clamp(h'.log[k].state))
    {
      if k < |h.log| { LatestBefore(k, h, h', save); }
    }
  }

  lemma {:induction false} SaveKeeps<R>(s: Sys<R>, id: Uuid, state: R, clamp: R -> R)
    requires Inv(s, clamp) && id !in s.q.forgotten
    ensures Inv(SaveEffect(s, id, state), clamp)
  {
    hide QueueInv; hide NewestInv; hide CoverInv; hide DiskInv; hide CacheInv;
    var t := SaveEffect(s, id, state);
    var save := Save(id, state, s.mem.clock + 1);
    SaveKeepsQueue(s.q, s.writer, s.h.log, save);
    SaveKeepsCover(s.q, s.writer, s.h, t.h, save);
    SaveKeepsDisk(s.q, s.writer, s.disk, s.h, t.h, save, clamp);
    SaveKeepsCache(s.mem, t.mem, s.h, t.h, save, clamp);
    forall p | p in t.prefetches ensures PrefetchOk(p, t.prefetches[p], t.mem, t.flushes, t.h, clamp) {
      SaveKeepsPrefetch(p, s.prefetches[p], s.mem, t.mem, s.flushes, s.h, t.h, save, clamp);
    }
  }

  // ---------- flushing ----------

  lemma {:induction false} FlushKeepsPrefetches<R>(s: Sys<R>, flushes: map<FlushId, Flush>, clamp: R -> R)
    requires PrefetchInv(s.mem, s.flushes, s.prefetches, s.h, clamp)
    requires forall f | f in s.flushes :: f in flushes && flushes[f].target == s.flushes[f].target
    ensures PrefetchInv(s.mem, flushes, s.prefetches, s.h, clamp)
  {
    forall p | p in s.prefetches ensures PrefetchOk(p, s.prefetches[p], s.mem, flushes, s.h, clamp) {
      assert PrefetchOk(p, s.prefetches[p], s.mem, s.flushes, s.h, clamp);
    }
  }

  lemma {:induction false} FlushKeepsWaiters<R>(q: Queue<R>, flushes: map<FlushId, Flush>, f: FlushId)
    requires FlushInv(q, flushes) && f !in flushes
    ensures FlushInv(QueueFlush(q, f),
                     flushes[f := Flush(q.nextSequence, false, if AnsweredAtOnce(q) then Some(true) else None)])
  {
  }

  /** The entry invariants read only the counters and the pending map of the queue. */
  lemma {:induction false} QueueFrame<R>(q: Queue<R>, q': Queue<R>, w: Writer<R>, disk: map<Uuid, R>, h: History<R>,
                                         clamp: R -> R)
    requires QueueInv(q, w, h.log) && NewestInv(q, w, h.log) && CoverInv(q, w, h) && DiskInv(q, w, disk, h, clamp)
    requires q'.pending == q.pending
    requires q'.nextSequence == q.nextSequence && q'.persistedSequence == q.persistedSequence
    ensures QueueInv(q', w, h.log) && NewestInv(q', w, h.log) && CoverInv(q', w, h) && DiskInv(q', w, disk, h, clamp)
  {
    forall k | 0 <= k < |h.log| ensures Covered(k, q', w, h) { assert Covered(k, q, w, h); }
  }

  lemma {:induction false} FlushKeeps<R>(s: Sys<R>, f: FlushId, clamp: R -> R)
    requires Inv(s, clamp) && f !in s.flushes
    ensures Inv(FlushEffect(s, f), clamp)
  {
    hide QueueInv; hide NewestInv; hide CoverInv; hide DiskInv; hide FlushInv; hide PrefetchInv; hide CacheInv;
    var t := FlushEffect(s, f);
    FlushKeepsWaiters(s.q, s.flushes, f);
    FlushKeepsPrefetches(s, t.flushes, clamp);
    QueueFrame(s.q, t.q, s.writer, s.disk, s.h, clamp);
  }

  lemma {:induction false} FlushWakeKeeps<R>(s: Sys<R>, f: FlushId, clamp: R -> R)
    requires Inv(s, clamp) && f in s.flushes
    ensures Inv(s.(wake := true, flushes := s.flushes[f := s.flushes[f].(woken := true)]), clamp)
  {
    hide QueueInv; hide NewestInv; hide CoverInv; hide DiskInv; hide PrefetchInv; hide CacheInv;
    var t := s.(wake := true, flushes := s.flushes[f := s.flushes[f].(woken := true)]);
    FlushKeepsPrefetches(s, t.flushes, clamp);
  }

  // ---------- the writer ----------

  lemma {:induction false} TakesEverything<R>(q: Queue<R>, w: Writer<R>, log: seq<Save<R>>)
    requires QueueInv(q, w, log) && NewestInv(q, w, log) && !w.InFlight() && q.pending != map[]
    ensures Sequences(q.pending) != {} && Largest(Sequences(q.pending)) == q.nextSequence
    ensures q.persistedSequence < q.nextSequence
  {
    var id :| id in q.pending;
    assert EntryOf(q.pending[id], id, log);
    assert Holds(q.pending, log, q.nextSequence);
    assert q.pending[log[q.nextSequence - 1].id].sequence in Sequences(q.pending);
    var m := Largest(Sequences(q.pending));
    var top :| top in q.pending && q.pending[top].sequence == m;
    assert EntryOf(q.pending[top], top, log);
  }

  lemma {:induction false} TakeKeepsCover<R>(q: Queue<R>, w: Writer<R>, h: History<R>)
    requires QueueInv(q, w, h.log) && CoverInv(q, w, h) && !w.InFlight()
    ensures CoverInv(q.(pending := map[]), Took(q.pending, q.nextSequence), h)
  {
    forall k | 0 <= k < |h.log| ensures Covered(k, q.(pending := map[]), Took(q.pending, q.nextSequence), h) {
      assert Covered(k, q, w, h);
    }
  }

  lemma {:induction false} TakeKeepsEntries<R>(s: Sys<R>, clamp: R -> R)
    requires QueueInv(s.q, s.writer, s.h.log) && NewestInv(s.q, s.writer, s.h.log) && CoverInv(s.q, s.writer, s.h)
    requires DiskInv(s.q, s.writer, s.disk, s.h, clamp) && s.writer.Woken? && s.q.pending != map[]
    ensures var t := TakeEffect(s);
      && t.writer == Took(s.q.pending, s.q.nextSequence)
      && QueueInv(t.q, t.writer, t.h.log) && NewestInv(t.q, t.writer, t.h.log)
      && CoverInv(t.q, t.writer, t.h) && DiskInv(t.q, t.writer, t.disk, t.h, clamp)
  {
    TakesEverything(s.q, s.writer, s.h.log);
    TakeKeepsCover(s.q, s.writer, s.h);
    assert Holds(s.q.pending, s.h.log, s.q.nextSequence);
  }

  /** With nothing queued and nothing in flight no flush is waiting. */
  lemma {:induction false} NothingPendingNothingWaiting<R>(q: Queue<R>, w: Writer<R>, log: seq<Save<R>>,
                                                           flushes: map<FlushId, Flush>)
    requires NewestInv(q, w, log) && FlushInv(q, flushes) && !w.InFlight() && q.pending == map[]
    ensures forall f | f in flushes :: flushes[f].answer != None
  {
    assert forall f | f in flushes && flushes[f].answer == None :: flushes[f].target > q.persistedSequence;
  }

  lemma {:induction false} TakeKeeps<R>(s: Sys<R>, clamp: R -> R)
    requires Inv(s, clamp) && s.writer.Woken?
    ensures Inv(TakeEffect(s), clamp)
  {
    hide QueueInv; hide NewestInv; hide CoverInv; hide DiskInv; hide PrefetchInv; hide CacheInv;
    if s.q.pending == map[] {
      NothingPendingNothingWaiting(s.q, s.writer, s.h.log, s.flushes);
      WriterFrame(s, Idle, clamp);
    } else {
      TakeKeepsEntries(s, clamp);
    }
  }

  lemma {:induction false} WriterFrame<R>(s: Sys<R>, w: Writer<R>, clamp: R -> R)
    requires QueueInv(s.q, s.writer, s.h.log) && NewestInv(s.q, s.writer, s.h.log) && CoverInv(s.q, s.writer, s.h)
    requires DiskInv(s.q, s.writer, s.disk, s.h, clamp) && !s.writer.InFlight() && !w.InFlight()
    ensures QueueInv(s.q, w, s.h.log) && NewestInv(s.q, w, s.h.log) && CoverInv(s.q, w, s.h)
    ensures DiskInv(s.q, w, s.disk, s.h, clamp)
  {
    forall k | 0 <= k < |s.h.log| ensures Covered(k, s.q, w, s.h) { assert Covered(k, s.q, s.writer, s.h); }
  }

  lemma {:induction false} ReceiveKeeps<R>(s: Sys<R>, clamp: R -> R)
    requires Inv(s, clamp) && s.writer.Idle?
    ensures Inv(s.(wake := false, writer := Woken), clamp)
  {
    hide QueueInv; hide NewestInv; hide CoverInv; hide DiskInv; hide PrefetchInv; hide CacheInv; hide FlushInv;
    WriterFrame(s, Woken, clamp);
  }

  lemma {:induction false} FilterKeepsEntries<R>(s: Sys<R>, clamp: R -> R)
    requires QueueInv(s.q, s.writer, s.h.log) && NewestInv(s.q, s.writer, s.h.log) && CoverInv(s.q, s.writer, s.h)
    requires DiskInv(s.q, s.writer, s.disk, s.h, clamp) && s.writer.Took?
    requires ForgottenInv(s.q, s.forgetting, s.writer, s.h)
    ensures var t := FilterEffect(s);
      && QueueInv(t.q, t.writer, t.h.log) && NewestInv(t.q, t.writer, t.h.log)
      && CoverInv(t.q, t.writer, t.h) && DiskInv(t.q, t.writer, t.disk, t.h, clamp)
  {
    var t := FilterEffect(s);
    forall k | 0 <= k < |t.h.log| ensures Covered(k, t.q, t.writer, t.h) {
      assert Covered(k, s.q, s.writer, s.h);
    }
    forall id | id in t.writer.batch && id !in t.writer.updates
      ensures id in t.h.mark && t.writer.batch[id].sequence <= t.h.mark[id]
    {
      assert EntryOf(s.writer.batch[id], id, s.h.log);
    }
  }

  lemma {:induction false} FilterKeeps<R>(s: Sys<R>, clamp: R -> R)
    requires Inv(s, clamp) && s.writer.Took? && LockFree(s)
    ensures Inv(FilterEffect(s), clamp)
  {
    hide QueueInv; hide NewestInv; hide CoverInv; hide DiskInv; hide PrefetchInv; hide CacheInv; hide FlushInv;
    FilterKeepsEntries(s, clamp);
  }

  lemma {:induction false} WriteKeepsRecords<R(!new)>(s: Sys<R>, clamp: R -> R)
    requires Idempotent(clamp) && s.writer.Filtered?
    requires QueueInv(s.q, s.writer, s.h.log) && DiskInv(s.q, s.writer, s.disk, s.h, clamp)
    requires UpdatesInv(s.writer)
    ensures var t := WriteEffect(s, true, true, clamp);
      forall id | id in t.h.onDisk && t.h.onDisk[id] > 0 ::
        && t.h.onDisk[id] <= |t.h.log| && t.h.log[t.h.onDisk[id] - 1].id == id
        && id in t.disk && t.disk[id] == clamp(t.h.log[t.h.onDisk[id] - 1].state)
  {
    forall id | id in s.writer.updates ensures EntryOf(s.writer.batch[id], id, s.h.log) {}
  }

  lemma {:induction false} WriteKeepsOrder<R>(s: Sys<R>, clamp: R -> R)
    requires s.writer.Filtered?
    requires QueueInv(s.q, s.writer, s.h.log) && DiskInv(s.q, s.writer, s.disk, s.h, clamp)
    requires UpdatesInv(s.writer)
    ensures var onDisk := WriteEffect(s, true, true, clamp).h.onDisk;
      && (forall id | id in onDisk && id in s.q.pending :: onDisk[id] <= s.q.pending[id].sequence)
      && (forall id | id in onDisk && id in s.writer.batch :: onDisk[id] <= s.writer.batch[id].sequence)
  {
  }

  lemma {:induction false} WriteKeepsDisk<R(!new)>(s: Sys<R>, ok: bool, landed: bool, clamp: R -> R)
    requires Idempotent(clamp) && s.writer.Filtered? && UpdatesInv(s.writer)
    requires QueueInv(s.q, s.writer, s.h.log) && DiskInv(s.q, s.writer, s.disk, s.h, clamp)
    ensures var t := WriteEffect(s, ok, landed, clamp); DiskInv(t.q, t.writer, t.disk, t.h, clamp)
  {
    hide QueueInv; hide Idempotent; hide UpdatesInv;
    WriteKeepsRecords(s, clamp);
    WriteKeepsOrder(s, clamp);
  }

  lemma {:induction false} WriteKeepsQueue<R>(q: Queue<R>, w: Writer<R>, ok: bool, log: seq<Save<R>>)
    requires w.Filtered? && QueueInv(q, w, log) && NewestInv(q, w, log)
    ensures QueueInv(q, Wrote(w.batch, w.attempted, ok), log) && NewestInv(q, Wrote(w.batch, w.attempted, ok), log)
  {
  }

  lemma {:induction false} WriteKeepsCover<R>(s: Sys<R>, ok: bool, landed: bool, clamp: R -> R)
    requires s.writer.Filtered? && (ok ==> landed)
    requires CoverInv(s.q, s.writer, s.h) && DiskInv(s.q, s.writer, s.disk, s.h, clamp)
    ensures var t := WriteEffect(s, ok, landed, clamp); CoverInv(t.q, t.writer, t.h)
  {
    var t := WriteEffect(s, ok, landed, clamp);
    assert forall id | id in s.h.onDisk :: id in t.h.onDisk && s.h.onDisk[id] <= t.h.onDisk[id];
    forall k | 0 <= k < |t.h.log| ensures Covered(k, t.q, t.writer, t.h) {
      assert Covered(k, s.q, s.writer, s.h);
    }
  }

  lemma {:induction false} HistoryFrame<R>(s: Sys<R>, h: History<R>, clamp: R -> R)
    requires CacheInv(s.mem, s.h, clamp) && PrefetchInv(s.mem, s.flushes, s.prefetches, s.h, clamp)
    requires h.log == s.h.log && h.mark == s.h.mark && h.begunAt == s.h.begunAt && h.loadedFrom == s.h.loadedFrom
    ensures CacheInv(s.mem, h, clamp) && PrefetchInv(s.mem, s.flushes, s.prefetches, h, clamp)
  {
    assert forall k | 0 <= k < |h.log| :: LatestLive(k, h) == LatestLive(k, s.h);
    forall p | p in s.prefetches ensures PrefetchOk(p, s.prefetches[p], s.mem, s.flushes, h, clamp) {
      assert PrefetchOk(p, s.prefetches[p], s.mem, s.flushes, s.h, clamp);
    }
  }

  lemma {:induction false} CoverGivesUpdates<R>(q: Queue<R>, w: Writer<R>, h: History<R>)
    requires CoverInv(q, w, h)
    ensures UpdatesInv(w)
  {
  }

  lemma {:induction false} WriteKeeps<R(!new)>(s: Sys<R>, ok: bool, landed: bool, clamp: R -> R)
    requires Idempotent(clamp) && Inv(s, clamp) && s.writer.Filtered? && (ok ==> landed)
    ensures Inv(WriteEffect(s, ok, landed, clamp), clamp)
  {
    hide QueueInv; hide NewestInv; hide CoverInv; hide DiskInv; hide PrefetchInv; hide CacheInv; hide Idempotent;
    var t := WriteEffect(s, ok, landed, clamp);
    WriteKeepsQueue(s.q, s.writer, ok, s.h.log);
    CoverGivesUpdates(s.q, s.writer, s.h);
    WriteKeepsDisk(s, ok, landed, clamp);
    WriteKeepsCover(s, ok, landed, clamp);
    HistoryFrame(s, t.h, clamp);
  }

  lemma {:induction false} CompleteKeepsQueue<R>(q: Queue<R>, w: Writer<R>, log: seq<Save<R>>)
    requires QueueInv(q, w, log) && NewestInv(q, w, log) && w.Wrote?
    ensures var q1 := if w.ok then q else q.(pending := Restored(q.pending, w.batch));
      var q2 := QueueComplete(q1, w.attempted, w.ok);
      QueueInv(q2, Idle, log) && NewestInv(q2, Idle, log)
  {
    assert Holds(w.batch, log, w.attempted);
    assert w.attempted < q.nextSequence ==> Holds(q.pending, log, q.nextSequence);
    var restored := Restored(q.pending, w.batch);
    forall id | id in restored ensures EntryOf(restored[id], id, log) && restored[id].sequence > q.persistedSequence {
      assert id in q.pending ==> EntryOf(q.pending[id], id, log);
      assert id in w.batch ==> EntryOf(w.batch[id], id, log);
    }
  }

  lemma {:induction false} CompleteKeepsCover<R>(s: Sys<R>)
    requires s.writer.Wrote? && QueueInv(s.q, s.writer, s.h.log) && CoverInv(s.q, s.writer, s.h)
    ensures var t := CompleteEffect(s); CoverInv(t.q, t.writer, t.h)
  {
    var t, w := CompleteEffect(s), s.writer;
    forall k | 0 <= k < |t.h.log| ensures Covered(k, t.q, t.writer, t.h) {
      assert Covered(k, s.q, s.writer, s.h);
      if !w.ok && w.attempted <= k && s.h.log[k].id in s.q.pending && k < s.q.pending[s.h.log[k].id].sequence {
        assert t.q.pending[s.h.log[k].id].sequence >= s.q.pending[s.h.log[k].id].sequence;
      }
    }
    forall k | 0 <= k < |t.h.log| && k < t.q.persistedSequence
      ensures Durable(t.h.log[k].id, k + 1, t.h.onDisk, t.h.mark)
    {
      assert Covered(k, s.q, s.writer, s.h);
    }
  }

  lemma {:induction false} CompleteKeepsFlushes<R>(s: Sys<R>)
    requires s.writer.Wrote? && FlushInv(s.q, s.flushes)
    ensures var t := CompleteEffect(s); FlushInv(t.q, t.flushes)
  {
  }

  lemma {:induction false} CompleteKeepsWakes<R>(s: Sys<R>)
    requires s.writer.Wrote? && FlushInv(s.q, s.flushes) && WakeInv(s.flushes, s.wake, s.writer)
    ensures var t := CompleteEffect(s); WakeInv(t.flushes, t.wake, t.writer)
  {
    var t := CompleteEffect(s);
    forall f | f in t.flushes && t.flushes[f].answer == None && t.flushes[f].woken
      ensures Served(t.flushes[f].target, t.wake, t.writer)
    {
      assert s.flushes[f].answer == None && (s.flushes[f].target, f) in s.q.flushes;
      assert Served(s.flushes[f].target, s.wake, s.writer);
    }
  }

  lemma {:induction false} CompleteKeepsDisk<R>(s: Sys<R>, clamp: R -> R)
    requires s.writer.Wrote? && DiskInv(s.q, s.writer, s.disk, s.h, clamp)
    ensures var t := CompleteEffect(s); DiskInv(t.q, t.writer, t.disk, t.h, clamp)
  {
  }

  /** What completing an attempt leaves alone. */
  lemma {:induction false} CompleteFrame<R>(s: Sys<R>)
    requires s.writer.Wrote?
    ensures var t := CompleteEffect(s);
      && t.mem == s.mem && t.disk == s.disk && t.forgetting == s.forgetting && t.prefetches == s.prefetches
        && t.h == s.h
      && t.q.forgotten == s.q.forgotten && t.q.nextSequence == s.q.nextSequence && t.writer == Idle
      && t.q == QueueComplete(if s.writer.ok then s.q else s.q.(pending := Restored(s.q.pending, s.writer.batch)),
                              s.writer.attempted, s.writer.ok)
      && forall f | f in s.flushes :: f in t.flushes && t.flushes[f].target == s.flushes[f].target
  {
    hide Restored;
  }

  lemma {:induction false} CompleteKeeps<R>(s: Sys<R>, clamp: R -> R)
    requires Inv(s, clamp) && s.writer.Wrote?
    ensures Inv(CompleteEffect(s), clamp)
  {
    hide QueueInv; hide NewestInv; hide CoverInv; hide DiskInv; hide FlushInv; hide WakeInv; hide PrefetchInv;
    hide CacheInv; hide CompleteEffect; hide QueueComplete; hide Restored;
    var t := CompleteEffect(s);
    CompleteFrame(s);
    CompleteKeepsQueue(s.q, s.writer, s.h.log);
    CompleteKeepsCover(s);
    CompleteKeepsDisk(s, clamp);
    CompleteKeepsFlushes(s);
    CompleteKeepsWakes(s);
    FlushKeepsPrefetches(s, t.flushes, clamp);
  }

  // ---------- prefetching ----------

  /** Once a prefetch's flush returned Ok, disk holds the latest save of what was not saved since it began. */
  lemma {:induction false} LoadSeesLatest<R(!new)>(s: Sys<R>, p: PrefetchId, k: nat, clamp: R -> R)
    requires Idempotent(clamp)
    requires LogInv(s.q, s.mem, s.h.log) && FlushInv(s.q, s.flushes) && CoverInv(s.q, s.writer, s.h)
    requires DiskInv(s.q, s.writer, s.disk, s.h, clamp)
    requires p in s.prefetches && s.prefetches[p].Flushing? && FlushReturned(s, s.prefetches[p].flush, true)
    requires PrefetchOk(p, s.prefetches[p], s.mem, s.flushes, s.h, clamp)
    requires k < |s.h.log| && LatestLive(k, s.h)
    requires Unsaved(s.h.log[k].id, s.mem.savedAt, s.prefetches[p].started)
    ensures s.h.log[k].id in s.disk && clamp(s.disk[s.h.log[k].id]) == clamp(s.h.log[k].state)
  {
    var id := s.h.log[k].id;
    assert k < s.h.begunAt[p] <= s.flushes[s.prefetches[p].flush].target <= s.q.persistedSequence;
    assert Durable(id, k + 1, s.h.onDisk, s.h.mark);
    assert s.h.log[s.h.onDisk[id] - 1].id == id;
  }

  lemma {:induction false} LoadKeeps<R(!new)>(s: Sys<R>, p: PrefetchId, unreadable: set<Uuid>, clamp: R -> R)
    requires Idempotent(clamp) && Inv(s, clamp)
    requires p in s.prefetches && s.prefetches[p].Flushing? && FlushReturned(s, s.prefetches[p].flush, true)
    ensures Inv(LoadEffect(s, p, unreadable, clamp), clamp)
  {
    hide QueueInv; hide NewestInv; hide CoverInv; hide DiskInv; hide LogInv; hide FlushInv; hide Idempotent;
    var t := LoadEffect(s, p, unreadable, clamp);
    HistoryFrameQueue(s, t.h, clamp);
    assert CacheInv(t.mem, t.h, clamp) by {
      assert forall k | 0 <= k < |t.h.log| :: LatestLive(k, t.h) == LatestLive(k, s.h);
    }
    forall o | o in t.prefetches ensures PrefetchOk(o, t.prefetches[o], t.mem, t.flushes, t.h, clamp) {
      assert PrefetchOk(o, s.prefetches[o], s.mem, s.flushes, s.h, clamp);
      LoadKeepsOne(s, p, unreadable, o, clamp);
    }
  }

  lemma {:induction false} LoadKeepsOne<R(!new)>(s: Sys<R>, p: PrefetchId, unreadable: set<Uuid>, o: PrefetchId,
                                                 clamp: R -> R)
    requires Idempotent(clamp)
    requires LogInv(s.q, s.mem, s.h.log) && FlushInv(s.q, s.flushes) && CoverInv(s.q, s.writer, s.h)
    requires DiskInv(s.q, s.writer, s.disk, s.h, clamp)
    requires p in s.prefetches && s.prefetches[p].Flushing? && FlushReturned(s, s.prefetches[p].flush, true)
    requires PrefetchOk(p, s.prefetches[p], s.mem, s.flushes, s.h, clamp)
    requires o in s.prefetches && PrefetchOk(o, s.prefetches[o], s.mem, s.flushes, s.h, clamp)
    ensures var t := LoadEffect(s, p, unreadable, clamp);
      PrefetchOk(o, t.prefetches[o], t.mem, t.flushes, t.h, clamp)
  {
    hide LogInv; hide FlushInv; hide CoverInv; hide DiskInv; hide Idempotent;
    var t := LoadEffect(s, p, unreadable, clamp);
    var pre := t.prefetches[o];
    forall k | 0 <= k < |t.h.log| && LatestLive(k, t.h) && pre.Loaded? && t.h.log[k].id in pre.ids
               && Unsaved(t.h.log[k].id, t.mem.savedAt, pre.started)
      ensures t.h.log[k].id in pre.content && pre.content[t.h.log[k].id] == clamp(t.h.log[k].state)
    {
      assert LatestLive(k, s.h);
      if o == p { LoadSeesLatest(s, p, k, clamp); }
    }
  }

  /** The queue and disk invariants do not read the prefetch and cache history. */
  lemma {:induction false} HistoryFrameQueue<R>(s: Sys<R>, h: History<R>, clamp: R -> R)
    requires CoverInv(s.q, s.writer, s.h) && DiskInv(s.q, s.writer, s.disk, s.h, clamp)
    requires ForgottenInv(s.q, s.forgetting, s.writer, s.h)
    requires h.log == s.h.log && h.mark == s.h.mark && h.onDisk == s.h.onDisk
    ensures CoverInv(s.q, s.writer, h) && DiskInv(s.q, s.writer, s.disk, h, clamp)
    ensures ForgottenInv(s.q, s.forgetting, s.writer, h)
  {
    forall k | 0 <= k < |h.log| ensures Covered(k, s.q, s.writer, h) { assert Covered(k, s.q, s.writer, s.h); }
  }

  lemma {:induction false} InstallKeepsCache<R>(s: Sys<R>, p: PrefetchId, clamp: R -> R)
    requires CacheInv(s.mem, s.h, clamp) && p in s.prefetches && s.prefetches[p].Loaded?
    requires PrefetchOk(p, s.prefetches[p], s.mem, s.flushes, s.h, clamp)
    ensures var t := InstallEffect(s, p); CacheInv(t.mem, t.h, clamp)
  {
    var t := InstallEffect(s, p);
    forall k | 0 <= k < |t.h.log| && LatestLive(k, t.h)
      ensures t.h.log[k].id in t.mem.cache
      ensures t.mem.cache[t.h.log[k].id] == Some(t.h.log[k].state)
              || t.mem.cache[t.h.log[k].id] == Some(clamp(t.h.log[k].state))
    {
      assert LatestLive(k, s.h);
    }
  }

  lemma {:induction false} PrefetchesFrame<R>(s: Sys<R>, prefetches: map<PrefetchId, Prefetch<R>>, mem: Memory<R>,
                                              h: History<R>, clamp: R -> R)
    requires PrefetchInv(s.mem, s.flushes, s.prefetches, s.h, clamp)
    requires mem.clock == s.mem.clock && mem.savedAt == s.mem.savedAt
    requires h.log == s.h.log && h.mark == s.h.mark
    requires forall p | p in prefetches :: p in s.prefetches && prefetches[p] == s.prefetches[p]
    requires forall p | p in prefetches && p in s.h.begunAt :: p in h.begunAt && h.begunAt[p] == s.h.begunAt[p]
    requires forall p | p in prefetches && p in s.h.loadedFrom :: p in h.loadedFrom
    ensures PrefetchInv(mem, s.flushes, prefetches, h, clamp)
  {
    assert forall k | 0 <= k < |h.log| :: LatestLive(k, h) == LatestLive(k, s.h);
    forall p | p in prefetches ensures PrefetchOk(p, prefetches[p], mem, s.flushes, h, clamp) {
      assert PrefetchOk(p, s.prefetches[p], s.mem, s.flushes, s.h, clamp);
    }
  }

  lemma {:induction false} InstallKeeps<R>(s: Sys<R>, p: PrefetchId, clamp: R -> R)
    requires Inv(s, clamp) && p in s.prefetches && s.prefetches[p].Loaded?
    ensures Inv(InstallEffect(s, p), clamp)
  {
    hide QueueInv; hide NewestInv; hide CoverInv; hide DiskInv; hide FlushInv; hide ForgottenInv; hide CacheInv;
    var t := InstallEffect(s, p);
    HistoryFrameQueue(s, t.h, clamp);
    assert PrefetchOk(p, s.prefetches[p], s.mem, s.flushes, s.h, clamp);
    InstallKeepsCache(s, p, clamp);
    PrefetchesFrame(s, t.prefetches, t.mem, t.h, clamp);
  }

  lemma {:induction false} BeginKeeps<R>(s: Sys<R>, p: PrefetchId, ids: set<Uuid>, clamp: R -> R)
    requires Inv(s, clamp) && p !in s.prefetches
    ensures Inv(s.(prefetches := s.prefetches[p := Begun(ids, s.mem.clock)],
                   h := s.h.(begunAt := s.h.begunAt[p := s.q.nextSequence])), clamp)
  {
    hide QueueInv; hide NewestInv; hide CoverInv; hide DiskInv; hide FlushInv; hide ForgottenInv; hide CacheInv;
    hide PrefetchInv;
    var h := s.h.(begunAt := s.h.begunAt[p := s.q.nextSequence]);
    HistoryFrameQueue(s, h, clamp);
    BeginKeepsPrefetches(s, p, ids, clamp);
  }

  lemma {:induction false} BeginKeepsPrefetches<R>(s: Sys<R>, p: PrefetchId, ids: set<Uuid>, clamp: R -> R)
    requires LogInv(s.q, s.mem, s.h.log) && CacheInv(s.mem, s.h, clamp)
    requires PrefetchInv(s.mem, s.flushes, s.prefetches, s.h, clamp) && p !in s.prefetches
    ensures var h := s.h.(begunAt := s.h.begunAt[p := s.q.nextSequence]);
      && CacheInv(s.mem, h, clamp)
      && PrefetchInv(s.mem, s.flushes, s.prefetches[p := Begun(ids, s.mem.clock)], h, clamp)
  {
    var h := s.h.(begunAt := s.h.begunAt[p := s.q.nextSequence]);
    assert forall k | 0 <= k < |h.log| :: LatestLive(k, h) == LatestLive(k, s.h);
    PrefetchesFrame(s, s.prefetches, s.mem, h, clamp);
  }

  lemma {:induction false} WaitingPrefetchKeeps<R>(t: Sys<R>, p: PrefetchId, f: FlushId, clamp: R -> R)
    requires Inv(t, clamp) && p in t.prefetches && t.prefetches[p].Begun?
    requires f in t.flushes && t.flushes[f].target == |t.h.log|
    ensures Inv(t.(prefetches := t.prefetches[p := Flushing(t.prefetches[p].ids, t.prefetches[p].started, f)]), clamp)
  {
    hide LogInv; hide QueueInv; hide NewestInv; hide CoverInv; hide DiskInv; hide FlushInv; hide ForgottenInv;
    hide CacheInv; hide WakeInv;
    var prefetches := t.prefetches[p := Flushing(t.prefetches[p].ids, t.prefetches[p].started, f)];
    forall o | o in prefetches ensures PrefetchOk(o, prefetches[o], t.mem, t.flushes, t.h, clamp) {
      assert PrefetchOk(o, t.prefetches[o], t.mem, t.flushes, t.h, clamp);
    }
  }

  lemma {:induction false} PrefetchFlushKeeps<R>(s: Sys<R>, p: PrefetchId, f: FlushId, clamp: R -> R)
    requires Inv(s, clamp) && p in s.prefetches && s.prefetches[p].Begun? && f !in s.flushes
    ensures var t := FlushEffect(s, f);
      Inv(t.(prefetches := s.prefetches[p := Flushing(s.prefetches[p].ids, s.prefetches[p].started, f)]), clamp)
  {
    FlushKeeps(s, f, clamp);
    SequenceCountsLog(s, clamp);
    hide Inv;
    WaitingPrefetchKeeps(FlushEffect(s, f), p, f, clamp);
  }

  lemma {:induction false} SequenceCountsLog<R>(s: Sys<R>, clamp: R -> R)
    requires Inv(s, clamp)
    ensures s.q.nextSequence == |s.h.log|
  {
    hide QueueInv; hide NewestInv; hide CoverInv; hide DiskInv; hide FlushInv; hide ForgottenInv;
    hide CacheInv; hide WakeInv; hide PrefetchInv;
  }

  lemma {:induction false} AbortKeeps<R>(s: Sys<R>, p: PrefetchId, clamp: R -> R)
    requires Inv(s, clamp)
    ensures Inv(s.(prefetches := s.prefetches - {p}), clamp)
  {
    hide QueueInv; hide NewestInv; hide CoverInv; hide DiskInv; hide FlushInv; hide ForgottenInv; hide CacheInv;
    PrefetchesFrame(s, s.prefetches - {p}, s.mem, s.h, clamp);
  }

  // ---------- forgetting and allowing ----------

  lemma {:induction false} MarkKeepsCover<R>(q: Queue<R>, w: Writer<R>, h: History<R>, h': History<R>)
    requires CoverInv(q, w, h) && h'.log == h.log && h'.onDisk == h.onDisk
    requires forall c | c in h.mark :: c in h'.mark && h.mark[c] <= h'.mark[c]
    ensures CoverInv(q, w, h')
  {
    forall k | 0 <= k < |h'.log| ensures Covered(k, q, w, h') { assert Covered(k, q, w, h); }
  }

  lemma {:induction false} MarkKeepsEntries<R>(s: Sys<R>, id: Uuid, clamp: R -> R)
    requires QueueInv(s.q, s.writer, s.h.log) && NewestInv(s.q, s.writer, s.h.log) && CoverInv(s.q, s.writer, s.h)
    requires DiskInv(s.q, s.writer, s.disk, s.h, clamp) && s.q.nextSequence == |s.h.log|
    requires ForgottenInv(s.q, s.forgetting, s.writer, s.h) && LockFree(s)
    ensures var t := ForgetMarkEffect(s, id);
      && QueueInv(t.q, t.writer, t.h.log) && NewestInv(t.q, t.writer, t.h.log) && CoverInv(t.q, t.writer, t.h)
      && DiskInv(t.q, t.writer, t.disk, t.h, clamp) && ForgottenInv(t.q, t.forgetting, t.writer, t.h)
  {
    hide QueueInv; hide NewestInv; hide CoverInv;
    var t := ForgetMarkEffect(s, id);
    QueueFrame(s.q, t.q, s.writer, s.disk, s.h, clamp);
    MarkKeepsCover(t.q, t.writer, s.h, t.h);
  }

  lemma {:induction false} MarkLeavesLive<R>(s: Sys<R>, id: Uuid, k: nat)
    requires k < |s.h.log| && LatestLive(k, ForgetMarkEffect(s, id).h) && LogInv(s.q, s.mem, s.h.log)
    requires forall c | c in s.h.mark :: s.h.mark[c] <= |s.h.log|
    ensures ForgetMarkEffect(s, id).h.log == s.h.log && LatestLive(k, s.h) && s.h.log[k].id != id
  {}

  lemma {:induction false} MarkKeepsCache<R>(s: Sys<R>, id: Uuid, clamp: R -> R)
    requires LogInv(s.q, s.mem, s.h.log) && CacheInv(s.mem, s.h, clamp)
    requires PrefetchInv(s.mem, s.flushes, s.prefetches, s.h, clamp)
    requires forall c | c in s.h.mark :: s.h.mark[c] <= |s.h.log|
    ensures var t := ForgetMarkEffect(s, id);
      CacheInv(t.mem, t.h, clamp) && PrefetchInv(t.mem, t.flushes, t.prefetches, t.h, clamp)
  {
    hide LogInv;
    var t := ForgetMarkEffect(s, id);
    assert t.h.log == s.h.log;
    forall k | 0 <= k < |t.h.log| && LatestLive(k, t.h) ensures LatestLive(k, s.h) && t.h.log[k].id != id {
      MarkLeavesLive(s, id, k);
    }
    forall p | p in t.prefetches ensures PrefetchOk(p, t.prefetches[p], t.mem, t.flushes, t.h, clamp) {
      assert PrefetchOk(p, s.prefetches[p], s.mem, s.flushes, s.h, clamp);
    }
  }

  lemma {:induction false} MarkKeeps<R>(s: Sys<R>, id: Uuid, clamp: R -> R)
    requires Inv(s, clamp) && LockFree(s)
    ensures Inv(ForgetMarkEffect(s, id), clamp)
  {
    hide QueueInv; hide NewestInv; hide CoverInv; hide DiskInv; hide PrefetchInv; hide CacheInv;
    MarkKeepsEntries(s, id, clamp);
    MarkKeepsCache(s, id, clamp);
  }

  lemma {:induction false} RemoveKeepsCover<R>(s: Sys<R>)
    requires QueueInv(s.q, s.writer, s.h.log) && CoverInv(s.q, s.writer, s.h)
    requires ForgottenInv(s.q, s.forgetting, s.writer, s.h) && s.forgetting.Some?
    ensures var t := ForgetRemoveEffect(s, true); CoverInv(t.q, t.writer, t.h)
  {
    var t, id := ForgetRemoveEffect(s, true), s.forgetting.value;
    forall k | 0 <= k < |t.h.log|
      ensures Durable(s.h.log[k].id, k + 1, s.h.onDisk, s.h.mark) ==>
                Durable(t.h.log[k].id, k + 1, t.h.onDisk, t.h.mark)
    {}
    forall k | 0 <= k < |t.h.log| ensures Covered(k, t.q, t.writer, t.h) {
      assert Covered(k, s.q, s.writer, s.h);
    }
    if s.writer.Wrote? && s.writer.ok && id in s.writer.batch {
      assert EntryOf(s.writer.batch[id], id, s.h.log);
    }
  }

  lemma {:induction false} RemoveKeepsDisk<R>(s: Sys<R>, clamp: R -> R)
    requires DiskInv(s.q, s.writer, s.disk, s.h, clamp) && s.forgetting.Some?
    ensures var t := ForgetRemoveEffect(s, true); DiskInv(t.q, t.writer, t.disk, t.h, clamp)
  {
  }

  lemma {:induction false} RemoveKeeps<R>(s: Sys<R>, ok: bool, clamp: R -> R)
    requires Inv(s, clamp) && s.forgetting.Some?
    ensures Inv(ForgetRemoveEffect(s, ok), clamp)
  {
    hide QueueInv; hide NewestInv; hide CoverInv; hide DiskInv; hide PrefetchInv; hide CacheInv;
    var t := ForgetRemoveEffect(s, ok);
    RemoveKeepsCover(s);
    RemoveKeepsDisk(s, clamp);
    HistoryFrame(s, t.h, clamp);
  }

  lemma {:induction false} LiftKeeps<R>(s: Sys<R>, id: Uuid, allows: map<AllowId, Allow>, clamp: R -> R)
    requires Inv(s, clamp) && LockFree(s)
    ensures Inv(s.(q := s.q.(forgotten := s.q.forgotten - {id}), allows := allows), clamp)
  {
    hide QueueInv; hide NewestInv; hide CoverInv; hide DiskInv; hide PrefetchInv; hide CacheInv;
    var q := s.q.(forgotten := s.q.forgotten - {id});
    QueueFrame(s.q, q, s.writer, s.disk, s.h, clamp);
  }

  lemma {:induction false} TokensKeep<R>(s: Sys<R>, saveTokens: map<Uuid, TokenId>, tokens: map<TokenId, Token>,
                                         clamp: R -> R)
    requires Inv(s, clamp)
    ensures Inv(s.(q := s.q.(saveTokens := saveTokens), tokens := tokens), clamp)
  {
    hide QueueInv; hide NewestInv; hide CoverInv; hide DiskInv; hide PrefetchInv; hide CacheInv;
    var q := s.q.(saveTokens := saveTokens);
    QueueFrame(s.q, q, s.writer, s.disk, s.h, clamp);
  }

  lemma {:induction false} IssueKeeps<R>(s: Sys<R>, id: Uuid, t: TokenId, clamp: R -> R)
    requires Inv(s, clamp)
    ensures Inv(IssueEffect(s, id, t), clamp)
  {
    hide Inv;
    var r := IssueEffect(s, id, t);
    TokensKeep(s, r.q.saveTokens, r.tokens, clamp);
    assert r == s.(q := s.q.(saveTokens := r.q.saveTokens), tokens := r.tokens);
  }

  // ---------- every step ----------

  predicate WriterStep<R>(a: Action<R>) {
    a.WriterReceive? || a.WriterTake? || a.WriterFilter? || a.WriterWrite? || a.WriterComplete?
  }

  predicate PrefetchStep<R>(a: Action<R>) {
    a.PrefetchBegin? || a.PrefetchFlush? || a.PrefetchLoad? || a.PrefetchInstall? || a.PrefetchAbort?
  }

  predicate AllowStep<R>(a: Action<R>) {
    a.AllowCheck? || a.AllowFlush? || a.AllowLift? || a.AllowAbort?
  }

  lemma {:induction false} WriterStepKeeps<R(!new)>(s: Sys<R>, a: Action<R>, clamp: R -> R)
    requires Idempotent(clamp) && Inv(s, clamp) && Enabled(s, a) && WriterStep(a)
    ensures Inv(Step(s, a, clamp), clamp)
  {
    hide Inv; hide Idempotent;
    hide SaveEffect; hide FlushEffect; hide TakeEffect; hide FilterEffect; hide WriteEffect; hide CompleteEffect;
    hide LoadEffect; hide InstallEffect; hide ForgetMarkEffect; hide ForgetRemoveEffect; hide IssueEffect;
    match a
    case WriterReceive => ReceiveKeeps(s, clamp);
    case WriterTake => TakeKeeps(s, clamp);
    case WriterFilter => FilterKeeps(s, clamp);
    case WriterWrite(ok, landed) => WriteKeeps(s, ok, landed, clamp);
    case WriterComplete => CompleteKeeps(s, clamp);
  }

  lemma {:induction false} PrefetchStepKeeps<R(!new)>(s: Sys<R>, a: Action<R>, clamp: R -> R)
    requires Idempotent(clamp) && Inv(s, clamp) && Enabled(s, a) && PrefetchStep(a)
    ensures Inv(Step(s, a, clamp), clamp)
  {
    hide Inv; hide Idempotent;
    hide SaveEffect; hide FlushEffect; hide TakeEffect; hide FilterEffect; hide WriteEffect; hide CompleteEffect;
    hide LoadEffect; hide InstallEffect; hide ForgetMarkEffect; hide ForgetRemoveEffect; hide IssueEffect;
    match a
    case PrefetchBegin(p, ids) => BeginKeeps(s, p, ids, clamp);
    case PrefetchFlush(p, f) => PrefetchFlushKeeps(s, p, f, clamp);
    case PrefetchLoad(p, unreadable) => LoadKeeps(s, p, unreadable, clamp);
    case PrefetchInstall(p) => InstallKeeps(s, p, clamp);
    case PrefetchAbort(p) => AbortKeeps(s, p, clamp);
  }

  lemma {:induction false} AllowStepKeeps<R>(s: Sys<R>, a: Action<R>, clamp: R -> R)
    requires Inv(s, clamp) && Enabled(s, a) && AllowStep(a)
    ensures Inv(Step(s, a, clamp), clamp)
  {
    hide Inv;
    match a
    case AllowCheck(a, id) => AllowsKeep(s, s.allows[a := Checked(id)], clamp);
    case AllowFlush(a, f) =>
      FlushKeeps(s, f, clamp);
      AllowsKeep(FlushEffect(s, f), s.allows[a := Draining(s.allows[a].id, f)], clamp);
    case AllowLift(a) => LiftKeeps(s, s.allows[a].id, s.allows - {a}, clamp);
    case AllowAbort(a) => AllowsKeep(s, s.allows - {a}, clamp);
  }

  lemma {:induction false} StepKeeps<R(!new)>(s: Sys<R>, a: Action<R>, clamp: R -> R)
    requires Idempotent(clamp) && Inv(s, clamp) && Enabled(s, a)
    ensures Inv(Step(s, a, clamp), clamp)
  {
    hide Inv; hide Idempotent;
    hide SaveEffect; hide FlushEffect; hide TakeEffect; hide FilterEffect; hide WriteEffect; hide CompleteEffect;
    hide LoadEffect; hide InstallEffect; hide ForgetMarkEffect; hide ForgetRemoveEffect; hide IssueEffect;
    if WriterStep(a) {
      WriterStepKeeps(s, a, clamp);
    } else if PrefetchStep(a) {
      PrefetchStepKeeps(s, a, clamp);
    } else if AllowStep(a) {
      AllowStepKeeps(s, a, clamp);
    } else {
      match a
      case SaveConnection(id, state, _) => SaveKeeps(s, id, state, clamp);
      case WakeWriter => WakeKeeps(s, clamp);
      case FlushStart(f) => FlushKeeps(s, f, clamp);
      case FlushWake(f) => FlushWakeKeeps(s, f, clamp);
      case ForgetMark(id) => MarkKeeps(s, id, clamp);
      case ForgetRemove(ok) => RemoveKeeps(s, ok, clamp);
      case IssueToken(id, t) => IssueKeeps(s, id, t, clamp);
      case DropToken(t) =>
        TokensKeep(s, s.q.saveTokens, s.tokens[t := s.tokens[t].(held := false)], clamp);
        assert s.q.(saveTokens := s.q.saveTokens) == s.q;
    }
  }

  lemma {:induction false} WakeKeeps<R>(s: Sys<R>, clamp: R -> R)
    requires Inv(s, clamp)
    ensures Inv(s.(wake := true), clamp)
  {
    hide QueueInv; hide NewestInv; hide CoverInv; hide DiskInv; hide PrefetchInv; hide CacheInv;
  }

  lemma {:induction false} AllowsKeep<R>(s: Sys<R>, allows: map<AllowId, Allow>, clamp: R -> R)
    requires Inv(s, clamp)
    ensures Inv(s.(allows := allows), clamp)
  {
    hide QueueInv; hide NewestInv; hide CoverInv; hide DiskInv; hide PrefetchInv; hide CacheInv;
  }
}
