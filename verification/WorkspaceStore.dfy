/** The protocol's theorems for the records the store really keeps and the normaliser it really uses. */
module WorkspaceStore {

  import opened Options
  import opened WorkspaceRecords
  import opened WorkspaceClamp
  import opened WorkspaceProtocol
  import opened WorkspaceSafety
  import opened WorkspaceTheorems

  lemma {:induction false} ClampSettles()
    ensures Idempotent(Clamp)
  {
    hide Clamp;
    forall w: Workspace ensures Clamp(Clamp(w)) == Clamp(w) { ClampIdempotent(w); }
  }

  /** A flush answered Ok has stored every earlier save, or a newer one, of every connection not forgotten since. */
  lemma {:induction false} StoreFlushIsDurable(tr: seq<Sys<Workspace>>, acts: seq<Action<Workspace>>, f: FlushId,
                                               i: nat, j: nat, k: nat)
    requires Behaviour(tr, acts, Clamp) && i < j < |tr| && StartsFlush(acts[i], f)
    requires f in tr[j].flushes && tr[j].flushes[f].answer == Some(true) && k < |tr[i].h.log|
    ensures k < |tr[j].h.log| && tr[j].h.log[k] == tr[i].h.log[k]
    ensures StoredAtLeast(tr[j], k, Clamp) || ForgottenSince(tr[j], k)
  {
    hide Clamp; hide Idempotent; hide Behaviour; hide StoredAtLeast;
    ClampSettles();
    FlushOkIsDurable(tr, acts, Clamp, f, i, j, k);
  }

  /** What a client reads from the cache after saving is its last save, every editor tab of it included. */
  lemma {:induction false} StoreCacheKeepsEditors(tr: seq<Sys<Workspace>>, acts: seq<Action<Workspace>>, i: nat, k: nat)
    requires Behaviour(tr, acts, Clamp) && i < |tr| && k < |tr[i].h.log| && LatestLive(k, tr[i].h)
    ensures var save := tr[i].h.log[k];
      && save.id in tr[i].mem.cache && tr[i].mem.cache[save.id].Some?
      && var cached := tr[i].mem.cache[save.id].value;
         EditorsOf(cached.tabs) == EditorsOf(save.state.tabs)
           || EditorsOf(cached.tabs) == CleanAll(EditorsOf(save.state.tabs))
  {
    hide Clamp; hide Idempotent; hide Behaviour; hide LatestLive;
    ClampSettles();
    CacheHoldsLatestSave(tr, acts, Clamp, i, k);
    EditorsKept(tr[i].h.log[k].state);
  }
}
