/**
 Spool files and the shared quota together: the bytes in the files of all live spools, written by any
 interleaving of their threads, never exceed what is reserved, nor what is reserved the limit.
 */
module SpoolShared {

  import opened Options
  import opened Spool
  import opened SpoolQuota

  /** The bytes in all files. */
  ghost function Lengths(spools: map<SpoolId, Account>): nat {
    if spools == map[] then 0
    else
      var s :| s in spools;
      spools[s].length + Lengths(spools - {s})
  }

  lemma {:induction false} LengthsWithinTotal(spools: map<SpoolId, Account>)
    requires forall s | s in spools :: spools[s].length <= Charge(spools[s])
    ensures Lengths(spools) <= Total(spools)
    decreases |spools|
  {
    if spools != map[] {
      var s :| s in spools && Lengths(spools) == spools[s].length + Lengths(spools - {s});
      LengthsWithinTotal(spools - {s});
      TotalSplit(spools, s);
    }
  }

  // ---------- one file ----------

  /** A spool as its thread has it: its file, and what the page under way has reserved. */
  datatype Live = Live(file: SpoolFile, reserved: nat)

  /** The moves the file made lead to an account with the file's length and with what the spool holds. */
  ghost predicate Accounted(live: Live)
    reads live.file
  {
    match Replay(live.file.moves)
    case None => false
    case Some(account) =>
      && account.length == |live.file.data| && account.held == live.file.held
      && Charge(account) == live.file.held + live.reserved
  }

  /** Wherever the thread is: between two pages, between two frames of a page, or inside a frame. */
  lemma {:induction false} AccountedThroughout(w: PageWriter, offset: nat, reserved: nat, left: nat)
    ensures w.spool.Valid() ==> Accounted(Live(w.spool, 0))
    ensures w.Safe() ==> Accounted(Live(w.spool, w.reserved))
    ensures InFrame(w.spool.moves, |w.spool.data|, w.spool.held, offset, reserved, left) ==>
              Accounted(Live(w.spool, reserved))
  {
    hide Replay;
  }

  /** File `f` did what the run has its spool do. */
  ghost predicate Follows(f: SpoolFile, tr: seq<Quota>, acts: seq<Action>, s: SpoolId, i: nat)
    requires Behaviour(tr, acts) && i < |tr|
    reads f
  {
    s in tr[i].spools && f.moves == Moves(tr, acts, s, i)
  }

  /** A file has the length and the charge that the shared quota has for it. */
  lemma {:induction false} FileMatchesAccount(live: Live, tr: seq<Quota>, acts: seq<Action>, s: SpoolId, i: nat)
    requires Behaviour(tr, acts) && i < |tr| && Follows(live.file, tr, acts, s, i) && Accounted(live)
    ensures tr[i].spools[s].length == |live.file.data| && tr[i].spools[s].held == live.file.held
    ensures Charge(tr[i].spools[s]) == live.file.held + live.reserved
    ensures live.file.Valid() ==> tr[i].spools[s] == Account(|live.file.data|, live.file.held, Ready)
  {
    hide Replay; hide Moves; hide Behaviour;
    AccountIsReplay(tr, acts, s, i);
  }

  // ---------- all files ----------

  ghost function AllHeld(live: map<SpoolId, Live>): nat
    reads set s | s in live :: live[s].file
  {
    if live == map[] then 0
    else
      var s :| s in live;
      live[s].file.held + live[s].reserved + AllHeld(live - {s})
  }

  lemma {:induction false} HeldIsTotal(live: map<SpoolId, Live>, spools: map<SpoolId, Account>)
    requires live.Keys == spools.Keys
    requires forall s | s in live :: Charge(spools[s]) == live[s].file.held + live[s].reserved
    ensures AllHeld(live) == Total(spools)
    decreases |live|
  {
    hide Charge;
    if live == map[] {
      assert spools == map[];
    } else {
      var s :| s in live && AllHeld(live) == live[s].file.held + live[s].reserved + AllHeld(live - {s});
      HeldIsTotal(live - {s}, spools - {s});
      TotalSplit(spools, s);
    }
  }

  /**
   Whatever the interleaving, and wherever each thread is inside its page: every file is as long as its
   account says, all files together hold no more bytes than are reserved, no more than the limit are
   reserved, and what is reserved is what the spools and their open pages hold.
   */
  lemma {:induction false} FilesWithinLimit(live: map<SpoolId, Live>, tr: seq<Quota>, acts: seq<Action>, i: nat)
    requires Behaviour(tr, acts) && i < |tr|
    requires forall s | s in live :: Accounted(live[s]) && Follows(live[s].file, tr, acts, s, i)
    ensures forall s | s in live :: s in tr[i].spools && tr[i].spools[s].length == |live[s].file.data|
    ensures Lengths(tr[i].spools) <= tr[i].counter <= tr[i].limit
    ensures live.Keys == tr[i].spools.Keys ==> tr[i].counter == AllHeld(live)
  {
    hide Behaviour; hide Moves; hide Total; hide Accounted; hide Charge;
    QuotaConserved(tr, acts, i);
    LengthsWithinTotal(tr[i].spools);
    forall s | s in live
      ensures s in tr[i].spools && tr[i].spools[s].length == |live[s].file.data|
      ensures Charge(tr[i].spools[s]) == live[s].file.held + live[s].reserved
    {
      FileMatchesAccount(live[s], tr, acts, s, i);
    }
    if live.Keys == tr[i].spools.Keys { HeldIsTotal(live, tr[i].spools); }
  }
}
