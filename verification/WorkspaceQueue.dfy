/**
 The queue and the read cache as the store updates them in place. Each method is proved to have the
 effect that the protocol's actions have on the corresponding value.
 */
module WorkspaceQueues {

  import opened Options
  import opened WorkspaceProtocol

  // ---------- a drained batch ----------

  ghost predicate DistinctIds<R>(batch: seq<(Uuid, Entry<R>)>) {
    forall i, j | 0 <= i < j < |batch| :: batch[i].0 != batch[j].0
  }

  /** The entries of a batch by connection. */
  function ById<R>(batch: seq<(Uuid, Entry<R>)>): map<Uuid, Entry<R>> {
    if batch == [] then map[] else ById(batch[..|batch| - 1])[batch[|batch| - 1].0 := batch[|batch| - 1].1]
  }

  lemma {:induction false} ByIdKeys<R>(batch: seq<(Uuid, Entry<R>)>)
    ensures forall id :: id in ById(batch) <==> exists i :: 0 <= i < |batch| && batch[i].0 == id
  {
    if batch != [] {
      var init := batch[..|batch| - 1];
      ByIdKeys(init);
      forall id ensures id in ById(batch) <==> exists i :: 0 <= i < |batch| && batch[i].0 == id {
        if id in ById(init) {
          var i :| 0 <= i < |init| && init[i].0 == id;
          assert batch[i].0 == id;
        }
        if i :| 0 <= i < |batch| && batch[i].0 == id {
          assert i < |init| ==> init[i].0 == id;
        }
      }
    }
  }

  lemma {:induction false} Drained<R>(batch: seq<(Uuid, Entry<R>)>, pending: map<Uuid, Entry<R>>, id: Uuid)
    requires id in pending && forall i | 0 <= i < |batch| :: batch[i].0 !in pending
    ensures ById(batch + [(id, pending[id])]) + (pending - {id}) == ById(batch) + pending
  {
    ByIdKeys(batch);
    assert (batch + [(id, pending[id])])[..|batch|] == batch;
  }

  /** The senders a completed attempt answers, in the order they asked. */
  function Reached(flushes: seq<(nat, FlushId)>, sequence: nat): seq<FlushId> {
    if flushes == [] then []
    else
      var last := flushes[|flushes| - 1];
      Reached(flushes[..|flushes| - 1], sequence) + (if last.0 <= sequence then [last.1] else [])
  }

  /** Every waiter is either answered or kept, never both. */
  lemma {:induction false} ReachedOrWaiting(flushes: seq<(nat, FlushId)>, sequence: nat)
    ensures |Reached(flushes, sequence)| + |Waiting(flushes, sequence)| == |flushes|
    ensures forall f :: f in Reached(flushes, sequence) <==> exists w :: w in flushes && w.0 <= sequence && w.1 == f
  {
    if flushes != [] {
      ReachedOrWaiting(flushes[..|flushes| - 1], sequence);
      assert flushes == flushes[..|flushes| - 1] + [flushes[|flushes| - 1]];
    }
  }

  // ---------- the answers ----------

  function Sent(senders: seq<FlushId>, ok: bool): seq<(FlushId, bool)> {
    seq(|senders|, i requires 0 <= i < |senders| => (senders[i], ok))
  }

  /** What the callers have after the messages arrived. */
  function Delivered(callers: map<FlushId, Flush>, sent: seq<(FlushId, bool)>): map<FlushId, Flush> {
    if sent == [] then callers
    else
      var before, (f, ok) := Delivered(callers, sent[..|sent| - 1]), sent[|sent| - 1];
      if f in before then before[f := before[f].(answer := Some(ok))] else before
  }

  /** Every waiter is a caller with that target. */
  ghost predicate Coherent(callers: map<FlushId, Flush>, waiting: seq<(nat, FlushId)>) {
    forall w | w in waiting :: w.1 in callers && callers[w.1].target == w.0
  }

  lemma {:induction false} DeliveredIsAnswered(callers: map<FlushId, Flush>, waiting: seq<(nat, FlushId)>,
                                               sequence: nat, ok: bool)
    requires Coherent(callers, waiting)
    ensures Delivered(callers, Sent(Reached(waiting, sequence), ok)) == Answered(callers, waiting, sequence, ok)
  {
    if waiting == [] {
      assert Answered(callers, [], sequence, ok) == callers;
    } else {
      var init, last := waiting[..|waiting| - 1], waiting[|waiting| - 1];
      assert waiting == init + [last] && last in waiting;
      DeliveredIsAnswered(callers, init, sequence, ok);
      OneMoreAnswer(callers, init, last, sequence, ok);
      hide Answered;
      var sent := Sent(Reached(waiting, sequence), ok);
      if last.0 <= sequence {
        assert sent[..|sent| - 1] == Sent(Reached(init, sequence), ok);
        assert sent[|sent| - 1] == (last.1, ok);
      } else {
        assert Reached(waiting, sequence) == Reached(init, sequence);
      }
    }
  }

  lemma {:induction false} OneMoreAnswer(callers: map<FlushId, Flush>, init: seq<(nat, FlushId)>, last: (nat, FlushId),
                                         sequence: nat, ok: bool)
    requires last.1 in callers && callers[last.1].target == last.0
    ensures var before := Answered(callers, init, sequence, ok);
      && last.1 in before
      && Answered(callers, init + [last], sequence, ok) ==
         if last.0 <= sequence then before[last.1 := before[last.1].(answer := Some(ok))] else before
  {
    var after, before := Answered(callers, init + [last], sequence, ok), Answered(callers, init, sequence, ok);
    forall f | f in callers && (f != last.1 || last.0 > sequence) ensures after[f] == before[f] {
      assert (callers[f].target, f) in init + [last] <==>
               (callers[f].target, f) in init || (callers[f].target, f) == last;
    }
    assert last in init + [last];
  }

  /** One pass over the waiters: those the attempt reached leave, the others stay in order. */
  method SplitWaiters(flushes: seq<(nat, FlushId)>, sequence: nat)
    returns (kept: seq<(nat, FlushId)>, answered: seq<FlushId>)
    ensures kept == Waiting(flushes, sequence) && answered == Reached(flushes, sequence)
    ensures |kept| + |answered| == |flushes|
    ensures forall f :: f in answered <==> exists w :: w in flushes && w.0 <= sequence && w.1 == f
  {
    kept, answered := [], [];
    for i := 0 to |flushes|
      invariant kept == Waiting(flushes[..i], sequence)
      invariant answered == Reached(flushes[..i], sequence)
    {
      assert flushes[..i + 1][..i] == flushes[..i];
      if flushes[i].0 <= sequence {
        answered := answered + [flushes[i].1];
      } else {
        kept := kept + [flushes[i]];
      }
    }
    assert flushes[..|flushes|] == flushes;
    ReachedOrWaiting(flushes, sequence);
  }

  method SendAll(senders: seq<FlushId>, ok: bool) returns (sent: seq<(FlushId, bool)>)
    ensures sent == Sent(senders, ok)
  {
    sent := [];
    for i := 0 to |senders|
      invariant sent == Sent(senders[..i], ok)
    {
      sent := sent + [(senders[i], ok)];
    }
    assert senders[..|senders|] == senders;
  }

  lemma {:induction false} RestoreOne<R>(pending: map<Uuid, Entry<R>>, batch: map<Uuid, Entry<R>>, id: Uuid,
                                         entry: Entry<R>)
    requires id !in batch
    ensures var done := Restored(pending, batch);
            Restored(pending, batch[id := entry])
            == if id !in done || done[id].sequence < entry.sequence then done[id := entry] else done
  {}

  /** Puts entries back one by one; a newer save made meanwhile stays. */
  method PutBack<R>(pending: map<Uuid, Entry<R>>, batch: seq<(Uuid, Entry<R>)>) returns (all: map<Uuid, Entry<R>>)
    requires DistinctIds(batch)
    ensures all == Restored(pending, ById(batch))
  {
    hide Restored;
    all := pending;
    RestoreNone(pending);
    assert batch[..0] == [];
    for i := 0 to |batch|
      invariant all == Restored(pending, ById(batch[..i]))
    {
      var (id, entry) := batch[i];
      ByIdKeys(batch[..i]);
      assert id !in ById(batch[..i]);
      assert batch[..i + 1][..i] == batch[..i];
      RestoreOne(pending, ById(batch[..i]), id, entry);
      if id !in all || all[id].sequence < entry.sequence { all := all[id := entry]; }
    }
    assert batch[..|batch|] == batch;
  }

  lemma {:induction false} RestoreNone<R>(pending: map<Uuid, Entry<R>>)
    ensures Restored(pending, map[]) == pending
  {}

  class WorkspaceQueue<R> {
    var forgotten: set<Uuid>
    var saveTokens: map<Uuid, TokenId>
    var nextSequence: nat
    var persistedSequence: nat
    var pending: map<Uuid, Entry<R>>
    var flushes: seq<(nat, FlushId)>

    function Value(): Queue<R>
      reads this
    {
      Queue(forgotten, saveTokens, nextSequence, persistedSequence, pending, flushes)
    }

    constructor ()
      ensures Value() == Queue({}, map[], 0, 0, map[], [])
    {
      forgotten, saveTokens, nextSequence, persistedSequence, pending, flushes := {}, map[], 0, 0, map[], [];
    }

    method Save(id: Uuid, state: R)
      modifies this
      ensures Value() == QueueSave(old(Value()), id, state)
    {
      nextSequence := nextSequence + 1;
      pending := pending[id := Entry(nextSequence, state)];
    }

    /** `answered` says whether the sender got its Ok at once. */
    method RequestFlush(f: FlushId) returns (answered: bool)
      modifies this
      ensures Value() == QueueFlush(old(Value()), f) && answered == AnsweredAtOnce(old(Value()))
    {
      if persistedSequence >= nextSequence {
        answered := true;
      } else {
        flushes := flushes + [(nextSequence, f)];
        answered := false;
      }
    }

    /** Drains the map in whatever order it iterates. */
    method TakePending() returns (batch: seq<(Uuid, Entry<R>)>)
      modifies this`pending
      ensures Value() == old(Value()).(pending := map[])
      ensures DistinctIds(batch) && ById(batch) == old(pending)
    {
      batch := [];
      while pending != map[]
        invariant DistinctIds(batch)
        invariant forall i | 0 <= i < |batch| :: batch[i].0 !in pending
        invariant old(pending) == ById(batch) + pending
        decreases |pending|
      {
        var id :| id in pending;
        Drained(batch, pending, id);
        batch := batch + [(id, pending[id])];
        pending := pending - {id};
      }
    }

    /** Puts a failed batch back, keeping any newer save queued meanwhile. */
    method RestorePending(batch: seq<(Uuid, Entry<R>)>)
      requires DistinctIds(batch)
      modifies this`pending
      ensures Value() == old(Value()).(pending := Restored(old(pending), ById(batch)))
    {
      hide Restored; hide ById;
      pending := PutBack(pending, batch);
    }

    /**
     `sent` lists, in order, what was sent to whom: the attempt's own result to the waiters it reached.
     To the callers that is what the protocol's step gives them.
     */
    method CompleteAttempt(sequence: nat, ok: bool) returns (sent: seq<(FlushId, bool)>)
      modifies this`persistedSequence, this`flushes
      ensures Value() == QueueComplete(old(Value()), sequence, ok)
      ensures sent == Sent(Reached(old(flushes), sequence), ok)
      ensures forall callers | Coherent(callers, old(flushes)) ::
                Delivered(callers, sent) == Answered(callers, old(flushes), sequence, ok)
    {
      if ok && sequence > persistedSequence {
        persistedSequence := sequence;
      }
      hide Sent; hide Delivered; hide Answered; hide Coherent; hide Reached; hide Waiting;
      ghost var before := flushes;
      var reached;
      flushes, reached := SplitWaiters(flushes, sequence);
      sent := SendAll(reached, ok);
      forall callers | Coherent(callers, before)
        ensures Delivered(callers, sent) == Answered(callers, before, sequence, ok)
      {
        DeliveredIsAnswered(callers, before, sequence, ok);
      }
    }
  }

  function IdsOf(ids: seq<Uuid>): set<Uuid> {
    set id | id in ids
  }

  lemma {:induction false} InstalledOne<R>(cache: map<Uuid, Option<R>>, content: map<Uuid, R>, ids: set<Uuid>, id: Uuid)
    ensures CacheInstalled(cache, content, ids + {id})
            == CacheInstalled(cache, content, ids)[id := if id in content then Some(content[id]) else None]
  {
  }

  class MemoryCell<R> {
    var cache: map<Uuid, Option<R>>
    var savedAt: map<Uuid, nat>
    var clock: nat

    function Value(): Memory<R>
      reads this
    {
      Memory(cache, savedAt, clock)
    }

    constructor ()
      ensures Value() == Memory(map[], map[], 0)
    {
      cache, savedAt, clock := map[], map[], 0;
    }

    /** The install loop of a prefetch: what was saved or forgotten since it began, or could not be read, stays. */
    method Install(ids: seq<Uuid>, started: nat, content: map<Uuid, R>, unreadable: set<Uuid>)
      modifies this`cache
      ensures var pre := Loaded(IdsOf(ids), started, content, unreadable);
        cache == CacheInstalled(old(cache), content, Installable(pre, savedAt))
    {
      ghost var done: set<Uuid> := {};
      for i := 0 to |ids|
        invariant done == Installable(Loaded(IdsOf(ids[..i]), started, content, unreadable), savedAt)
        invariant cache == CacheInstalled(old(cache), content, done)
      {
        var id := ids[i];
        assert IdsOf(ids[..i + 1]) == IdsOf(ids[..i]) + {id};
        if !(id in unreadable || (id in savedAt && savedAt[id] > started)) {
          InstalledOne(old(cache), content, done, id);
          cache := cache[id := if id in content then Some(content[id]) else None];
          done := done + {id};
        }
      }
      assert ids[..|ids|] == ids;
    }
  }

  /**
   The critical section of a save: under both locks, refused when the connection is forgotten or the
   token revoked, otherwise one save action of the protocol.
   */
  method SaveCoordinated<R>(memory: MemoryCell<R>, queue: WorkspaceQueue<R>, id: Uuid, state: R, tokenValid: bool)
    returns (accepted: bool)
    modifies memory, queue
    ensures accepted == (id !in old(queue.forgotten) && tokenValid)
    ensures !accepted ==> memory.Value() == old(memory.Value()) && queue.Value() == old(queue.Value())
    ensures accepted ==> forall s: Sys<R> | s.mem == old(memory.Value()) && s.q == old(queue.Value()) ::
      memory.Value() == SaveEffect(s, id, state).mem && queue.Value() == SaveEffect(s, id, state).q
  {
    if id in queue.forgotten || !tokenValid {
      return false;
    }
    memory.clock := memory.clock + 1;
    memory.savedAt := memory.savedAt[id := memory.clock];
    memory.cache := memory.cache[id := Some(state)];
    queue.Save(id, state);
    accepted := true;
  }
}
