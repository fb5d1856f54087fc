/**
 Why the conditions of `WorkspaceForget.ForgottenStaysGone` are needed: a run with two overlapping allow
 calls, and one with a failed removal, in which something accepted or stored before a finished forget
 comes back.
 */
module WorkspaceLeaks {

  import opened Options
  import opened WorkspaceProtocol
  import opened WorkspaceTheorems
  import opened WorkspaceForget

  /** A step of a behaviour: the action was enabled and leads from `s` to `t`. */
  ghost predicate Takes<R>(s: Sys<R>, a: Action<R>, t: Sys<R>, clamp: R -> R) {
    Enabled(s, a) && t == Step(s, a, clamp)
  }

  ghost predicate TakesAll<R>(tr: seq<Sys<R>>, acts: seq<Action<R>>, clamp: R -> R) {
    |tr| == |acts| + 1 && forall i | 0 <= i < |acts| :: Takes(tr[i], acts[i], tr[i + 1], clamp)
  }

  lemma {:induction false} Joined<R>(tr: seq<Sys<R>>, acts: seq<Action<R>>, tr': seq<Sys<R>>, acts': seq<Action<R>>,
                                     clamp: R -> R)
    requires TakesAll(tr, acts, clamp) && TakesAll(tr', acts', clamp) && tr[|acts|] == tr'[0]
    ensures TakesAll(tr + tr'[1..], acts + acts', clamp)
  {
    hide Takes;
    var joined, all := tr + tr'[1..], acts + acts';
    forall i | 0 <= i < |all| ensures Takes(joined[i], all[i], joined[i + 1], clamp) {
      if i >= |acts| {
        assert all[i] == acts'[i - |acts|] && joined[i] == tr'[i - |acts|] && joined[i + 1] == tr'[i - |acts| + 1];
      }
    }
  }

  /** A state in which only connection 0 was ever touched and no token or prefetch exists. */
  function At<R>(cache: map<Uuid, Option<R>>, clock: nat, forgotten: set<Uuid>, pending: map<Uuid, Entry<R>>,
                 wake: bool,
                 writer: Writer<R>, disk: map<Uuid, R>, forgetting: Option<Uuid>, flushes: map<FlushId, Flush>,
                 allows: map<AllowId, Allow>, log: seq<Save<R>>, onDisk: map<Uuid, nat>, inCache: map<Uuid, nat>,
                 mark: map<Uuid, nat>): Sys<R>
  {
    Sys(Memory(cache, if clock == 0 then map[] else map[0 := clock], clock),
        Queue(forgotten, map[], |log|, 0, pending, []), wake, writer, disk, forgetting, flushes, map[], allows, map[],
        History(log, onDisk, inCache, mark, map[], map[]))
  }

  // ---------- two allow calls for one connection at once ----------

  const Done := Flush(0, true, Some(true))
  const Answered0 := Flush(0, false, Some(true))

  /** Forgotten, with two allow calls under way; `f` and `a` say how far they are. */
  function Allowing<R>(wake: bool, f: map<FlushId, Flush>, a: map<AllowId, Allow>): Sys<R> {
    At(map[], 1, {0}, map[], wake, Idle, map[], None, f, a, [], map[], map[], map[0 := 0])
  }

  function Zeros<R>(disk: map<Uuid, R>): map<Uuid, nat> { map id | id in disk :: 0 }

  lemma {:induction false} FirstMark<R>(disk: map<Uuid, R>, clamp: R -> R)
    ensures Takes(
      At(map[], 0, {}, map[], false, Idle, disk, None, map[], map[], [], Zeros(disk), map[], map[]),
      ForgetMark(0),
      At(map[], 1, {0}, map[], false, Idle, disk, Some(0), map[], map[], [], Zeros(disk), map[], map[0 := 0]),
      clamp)
  {
    hide FlushEffect; hide SaveEffect; hide TakeEffect; hide FilterEffect; hide WriteEffect; hide CompleteEffect;
    hide LoadEffect; hide InstallEffect; hide IssueEffect; hide Zeros;
  }

  lemma {:induction false} ForgetOnce<R>(clamp: R -> R) returns (tr: seq<Sys<R>>, acts: seq<Action<R>>)
    ensures TakesAll(tr, acts, clamp) && Init(tr[0]) && acts == [ForgetMark(0), ForgetRemove(true)]
    ensures tr[2] == Allowing(false, map[], map[])
  {
    hide FlushEffect; hide SaveEffect; hide TakeEffect; hide FilterEffect; hide WriteEffect; hide CompleteEffect;
    hide LoadEffect; hide InstallEffect; hide IssueEffect; hide ForgetMarkEffect;
    acts := [ForgetMark(0), ForgetRemove(true)];
    tr := [At(map[], 0, {}, map[], false, Idle, map[], None, map[], map[], [], map[], map[], map[]),
           At(map[], 1, {0}, map[], false, Idle, map[], Some(0), map[], map[], [], map[], map[], map[0 := 0]),
           Allowing(false, map[], map[])];
    FirstMark(map[], clamp);
    assert Zeros<R>(map[]) == map[];
    assert Takes(tr[1], acts[1], tr[2], clamp);
  }

  lemma {:induction false} BothCheck<R>(clamp: R -> R) returns (tr: seq<Sys<R>>, acts: seq<Action<R>>)
    ensures TakesAll(tr, acts, clamp) && acts == [AllowCheck(0, 0), AllowCheck(1, 0)]
    ensures tr[0] == Allowing(false, map[], map[])
    ensures tr[2] == Allowing(false, map[], map[0 := Checked(0), 1 := Checked(0)])
  {
    hide SaveEffect; hide TakeEffect; hide FilterEffect; hide WriteEffect; hide CompleteEffect; hide LoadEffect;
    hide InstallEffect; hide IssueEffect; hide ForgetMarkEffect; hide ForgetRemoveEffect; hide FlushEffect;
    acts := [AllowCheck(0, 0), AllowCheck(1, 0)];
    tr := [Allowing(false, map[], map[]),
           Allowing(false, map[], map[0 := Checked(0)]),
           Allowing(false, map[], map[0 := Checked(0), 1 := Checked(0)])];
    FirstCheck(clamp);
    assert Takes(tr[1], acts[1], tr[2], clamp);
  }

  lemma {:induction false} FirstCheck<R>(clamp: R -> R)
    ensures Takes<R>(Allowing(false, map[], map[]), AllowCheck(0, 0), Allowing(false, map[], map[0 := Checked(0)]),
                     clamp)
  {
    hide SaveEffect; hide TakeEffect; hide FilterEffect; hide WriteEffect; hide CompleteEffect;
    hide LoadEffect; hide InstallEffect; hide IssueEffect; hide ForgetMarkEffect; hide ForgetRemoveEffect;
  }

  lemma {:induction false} FirstDrain<R>(clamp: R -> R) returns (tr: seq<Sys<R>>, acts: seq<Action<R>>)
    ensures TakesAll(tr, acts, clamp) && acts == [AllowFlush(0, 0), FlushWake(0)]
    ensures tr[0] == Allowing(false, map[], map[0 := Checked(0), 1 := Checked(0)])
    ensures tr[2] == Allowing(true, map[0 := Done], map[0 := Draining(0, 0), 1 := Checked(0)])
  {
    hide SaveEffect; hide TakeEffect; hide FilterEffect; hide WriteEffect; hide CompleteEffect;
    hide LoadEffect; hide InstallEffect; hide IssueEffect; hide ForgetMarkEffect; hide ForgetRemoveEffect;
    acts := [AllowFlush(0, 0), FlushWake(0)];
    tr := [Allowing(false, map[], map[0 := Checked(0), 1 := Checked(0)]),
           Allowing(false, map[0 := Answered0], map[0 := Draining(0, 0), 1 := Checked(0)]),
           Allowing(true, map[0 := Done], map[0 := Draining(0, 0), 1 := Checked(0)])];
    assert Takes(tr[0], acts[0], tr[1], clamp);
    assert Takes(tr[1], acts[1], tr[2], clamp);
  }

  const Both: map<FlushId, Flush> := map[0 := Done, 1 := Done]

  lemma {:induction false} SecondDrain<R>(clamp: R -> R) returns (tr: seq<Sys<R>>, acts: seq<Action<R>>)
    ensures TakesAll(tr, acts, clamp) && acts == [AllowFlush(1, 1), FlushWake(1)]
    ensures tr[0] == Allowing(true, map[0 := Done], map[0 := Draining(0, 0), 1 := Checked(0)])
    ensures tr[2] == Allowing(true, Both, map[0 := Draining(0, 0), 1 := Draining(0, 1)])
  {
    hide SaveEffect; hide TakeEffect; hide FilterEffect; hide WriteEffect; hide CompleteEffect;
    hide LoadEffect; hide InstallEffect; hide IssueEffect; hide ForgetMarkEffect; hide ForgetRemoveEffect;
    acts := [AllowFlush(1, 1), FlushWake(1)];
    tr := [Allowing(true, map[0 := Done], map[0 := Draining(0, 0), 1 := Checked(0)]),
           Allowing(true, map[0 := Done, 1 := Answered0], map[0 := Draining(0, 0), 1 := Draining(0, 1)]),
           Allowing(true, Both, map[0 := Draining(0, 0), 1 := Draining(0, 1)])];
    SecondFlush(clamp);
    hide FlushEffect;
    assert Takes(tr[1], acts[1], tr[2], clamp);
  }

  lemma {:induction false} SecondFlush<R>(clamp: R -> R)
    ensures Takes<R>(Allowing(true, map[0 := Done], map[0 := Draining(0, 0), 1 := Checked(0)]),
                     AllowFlush(1, 1),
                     Allowing(true, map[0 := Done, 1 := Answered0], map[0 := Draining(0, 0), 1 := Draining(0, 1)]),
                     clamp)
  {
    hide SaveEffect; hide TakeEffect; hide FilterEffect; hide WriteEffect; hide CompleteEffect;
    hide LoadEffect; hide InstallEffect; hide IssueEffect; hide ForgetMarkEffect; hide ForgetRemoveEffect;
  }

  /** One save of connection 0 was accepted between two forgets. */
  function Saved<R>(r: R, clock: nat, forgotten: set<Uuid>, pending: map<Uuid, Entry<R>>, wake: bool, writer: Writer<R>,
                    disk: map<Uuid, R>, forgetting: Option<Uuid>, a: map<AllowId, Allow>, onDisk: map<Uuid, nat>,
                    mark: nat): Sys<R>
  {
    var cached := clock == 2;
    At(if cached then map[0 := Some(r)] else map[], clock, forgotten, pending, wake, writer, disk, forgetting, Both, a,
       [Save(0, r, 2)], onDisk, if cached then map[0 := 1] else map[], map[0 := mark])
  }

  function Queued<R>(r: R): map<Uuid, Entry<R>> { map[0 := Entry(1, r)] }

  lemma {:induction false} LiftAndSave<R>(r: R, clamp: R -> R) returns (tr: seq<Sys<R>>, acts: seq<Action<R>>)
    ensures TakesAll(tr, acts, clamp) && acts == [AllowLift(0), SaveConnection(0, r, None)]
    ensures tr[0] == Allowing(true, Both, map[0 := Draining(0, 0), 1 := Draining(0, 1)])
    ensures tr[2] == Saved(r, 2, {}, Queued(r), true, Idle, map[], None, map[1 := Draining(0, 1)], map[], 0)
  {
    hide FlushEffect; hide TakeEffect; hide FilterEffect; hide WriteEffect; hide CompleteEffect;
    hide LoadEffect; hide InstallEffect; hide IssueEffect; hide ForgetMarkEffect; hide ForgetRemoveEffect;
    acts := [AllowLift(0), SaveConnection(0, r, None)];
    tr := [Allowing(true, Both, map[0 := Draining(0, 0), 1 := Draining(0, 1)]),
           At(map[], 1, {}, map[], true, Idle, map[], None, Both, map[1 := Draining(0, 1)], [], map[], map[],
              map[0 := 0]),
           Saved(r, 2, {}, Queued(r), true, Idle, map[], None, map[1 := Draining(0, 1)], map[], 0)];
    FirstLift(clamp);
    assert Takes(tr[1], acts[1], tr[2], clamp);
  }

  lemma {:induction false} FirstLift<R>(clamp: R -> R)
    ensures Takes<R>(Allowing(true, Both, map[0 := Draining(0, 0), 1 := Draining(0, 1)]),
                     AllowLift(0),
                     At(map[], 1, {}, map[], true, Idle, map[], None, Both, map[1 := Draining(0, 1)], [], map[], map[],
                        map[0 := 0]), clamp)
  {
    hide SaveEffect; hide TakeEffect; hide FilterEffect; hide WriteEffect; hide CompleteEffect;
    hide LoadEffect; hide InstallEffect; hide IssueEffect; hide ForgetMarkEffect; hide ForgetRemoveEffect;
  }

  lemma {:induction false} SecondMark<R>(r: R, clamp: R -> R)
    ensures Takes(Saved(r, 2, {}, Queued(r), true, Idle, map[], None, map[1 := Draining(0, 1)], map[], 0),
                  ForgetMark(0),
                  Saved(r, 3, {0}, Queued(r), true, Idle, map[], Some(0), map[1 := Draining(0, 1)], map[], 1), clamp)
  {
    hide FlushEffect; hide SaveEffect; hide TakeEffect; hide FilterEffect; hide WriteEffect; hide CompleteEffect;
    hide LoadEffect; hide InstallEffect; hide IssueEffect;
  }

  lemma {:induction false} ForgetAgain<R>(r: R, clamp: R -> R) returns (tr: seq<Sys<R>>, acts: seq<Action<R>>)
    ensures TakesAll(tr, acts, clamp) && acts == [ForgetMark(0), ForgetRemove(true), AllowLift(1)]
    ensures tr[1].forgetting == Some(0) && tr[1].h.mark == map[0 := 1]
    ensures tr[0] == Saved(r, 2, {}, Queued(r), true, Idle, map[], None, map[1 := Draining(0, 1)], map[], 0)
    ensures tr[3] == Saved(r, 3, {}, Queued(r), true, Idle, map[], None, map[], map[], 1)
  {
    hide FlushEffect; hide SaveEffect; hide TakeEffect; hide FilterEffect; hide WriteEffect; hide CompleteEffect;
    hide LoadEffect; hide InstallEffect; hide IssueEffect; hide ForgetMarkEffect;
    acts := [ForgetMark(0), ForgetRemove(true), AllowLift(1)];
    tr := [Saved(r, 2, {}, Queued(r), true, Idle, map[], None, map[1 := Draining(0, 1)], map[], 0),
           Saved(r, 3, {0}, Queued(r), true, Idle, map[], Some(0), map[1 := Draining(0, 1)], map[], 1),
           Saved(r, 3, {0}, Queued(r), true, Idle, map[], None, map[1 := Draining(0, 1)], map[], 1),
           Saved(r, 3, {}, Queued(r), true, Idle, map[], None, map[], map[], 1)];
    SecondMark(r, clamp);
    SecondLift(r, clamp);
    assert Takes(tr[1], acts[1], tr[2], clamp);
  }

  lemma {:induction false} SecondLift<R>(r: R, clamp: R -> R)
    ensures Takes(Saved(r, 3, {0}, Queued(r), true, Idle, map[], None, map[1 := Draining(0, 1)], map[], 1),
                  AllowLift(1),
                  Saved(r, 3, {}, Queued(r), true, Idle, map[], None, map[], map[], 1), clamp)
  {
    hide SaveEffect; hide TakeEffect; hide FilterEffect; hide WriteEffect; hide CompleteEffect;
    hide LoadEffect; hide InstallEffect; hide IssueEffect; hide ForgetMarkEffect; hide ForgetRemoveEffect;
  }

  lemma {:induction false} StaleTake<R>(r: R, clamp: R -> R) returns (tr: seq<Sys<R>>, acts: seq<Action<R>>)
    ensures TakesAll(tr, acts, clamp) && acts == [WriterReceive, WriterTake]
    ensures tr[0] == Saved(r, 3, {}, Queued(r), true, Idle, map[], None, map[], map[], 1)
    ensures tr[2] == Saved(r, 3, {}, map[], false, Took(Queued(r), 1), map[], None, map[], map[], 1)
  {
    hide FlushEffect; hide SaveEffect; hide CompleteEffect; hide LoadEffect; hide InstallEffect; hide IssueEffect;
    hide ForgetMarkEffect; hide ForgetRemoveEffect;
    hide FilterEffect; hide WriteEffect;
    acts := [WriterReceive, WriterTake];
    assert Queued(r)[0].sequence in Sequences(Queued(r)) && Sequences(Queued(r)) == {1};
    tr := [Saved(r, 3, {}, Queued(r), true, Idle, map[], None, map[], map[], 1),
           Saved(r, 3, {}, Queued(r), false, Woken, map[], None, map[], map[], 1),
           Saved(r, 3, {}, map[], false, Took(Queued(r), 1), map[], None, map[], map[], 1)];
    assert Takes(tr[0], acts[0], tr[1], clamp);
    assert Takes(tr[1], acts[1], tr[2], clamp);
  }

  lemma {:induction false} StaleWrite<R>(r: R, clamp: R -> R) returns (tr: seq<Sys<R>>, acts: seq<Action<R>>)
    ensures TakesAll(tr, acts, clamp) && acts == [WriterFilter, WriterWrite(true, true)]
    ensures tr[0] == Saved(r, 3, {}, map[], false, Took(Queued(r), 1), map[], None, map[], map[], 1)
    ensures 0 in tr[2].disk && tr[2].disk[0] == clamp(r) && tr[2].h.log == [Save(0, r, 2)]
  {
    hide FlushEffect; hide SaveEffect; hide CompleteEffect; hide LoadEffect; hide InstallEffect; hide IssueEffect;
    hide ForgetMarkEffect; hide ForgetRemoveEffect; hide TakeEffect;
    acts := [WriterFilter, WriterWrite(true, true)];
    assert Unforgotten(Queued(r), {}) == Queued(r);
    assert Published(map[], Queued(r), clamp) == map[0 := clamp(r)];
    assert PublishedFrom(map[], Queued(r)) == map[0 := 1];
    tr := [Saved(r, 3, {}, map[], false, Took(Queued(r), 1), map[], None, map[], map[], 1),
           Saved(r, 3, {}, map[], false, Filtered(Queued(r), 1, Queued(r)), map[], None, map[], map[], 1),
           Saved(r, 3, {}, map[], false, Wrote(Queued(r), 1, true), map[0 := clamp(r)], None, map[], map[0 := 1], 1)];
    assert Takes(tr[0], acts[0], tr[1], clamp);
    assert Takes(tr[1], acts[1], tr[2], clamp);
  }

  lemma {:induction false} BothReady<R>(clamp: R -> R) returns (tr: seq<Sys<R>>, acts: seq<Action<R>>)
    ensures TakesAll(tr, acts, clamp) && Init(tr[0]) && |acts| == 8
    ensures forall k | 0 <= k < |acts| && acts[k].ForgetRemove? :: acts[k].ok
    ensures tr[8] == Allowing(true, Both, map[0 := Draining(0, 0), 1 := Draining(0, 1)])
  {
    hide Takes; hide At; hide Allowing; hide Init;
    tr, acts := ForgetOnce(clamp);
    var t1, a1 := BothCheck(clamp); Joined(tr, acts, t1, a1, clamp);
    tr, acts := tr + t1[1..], acts + a1;
    var t0, a0 := FirstDrain(clamp); Joined(tr, acts, t0, a0, clamp);
    tr, acts := tr + t0[1..], acts + a0;
    var t2, a2 := SecondDrain(clamp); Joined(tr, acts, t2, a2, clamp);
    tr, acts := tr + t2[1..], acts + a2;
  }

  lemma {:induction false} IsBehaviour<R>(tr: seq<Sys<R>>, acts: seq<Action<R>>, clamp: R -> R)
    requires TakesAll(tr, acts, clamp) && Init(tr[0])
    ensures Behaviour(tr, acts, clamp)
  {
    hide Step; hide Enabled; hide Init;
    forall i | 0 <= i < |acts| ensures Enabled(tr[i], acts[i]) && tr[i + 1] == Step(tr[i], acts[i], clamp) {
      assert Takes(tr[i], acts[i], tr[i + 1], clamp);
    }
  }

  lemma {:induction false} SaveBetweenForgets<R>(r: R, clamp: R -> R) returns (tr: seq<Sys<R>>, acts: seq<Action<R>>)
    ensures TakesAll(tr, acts, clamp) && Init(tr[0]) && |acts| == 13
    ensures forall k | 0 <= k < |acts| && acts[k].ForgetRemove? :: acts[k].ok
    ensures acts[11] == ForgetRemove(true) && tr[11].forgetting == Some(0) && tr[11].h.mark == map[0 := 1]
    ensures tr[13] == Saved(r, 3, {}, Queued(r), true, Idle, map[], None, map[], map[], 1)
  {
    hide Takes; hide At; hide Saved; hide Allowing; hide Init;
    tr, acts := BothReady(clamp);
    var t3, a3 := LiftAndSave(r, clamp); Joined(tr, acts, t3, a3, clamp);
    tr, acts := tr + t3[1..], acts + a3;
    var t4, a4 := ForgetAgain(r, clamp); Joined(tr, acts, t4, a4, clamp);
    tr, acts := tr + t4[1..], acts + a4;
  }

  /**
   With two allow calls for one connection under way, a save accepted before a forget that returned
   reaches disk after it, although every removal from disk succeeded.
   */
  lemma {:induction false} OverlappingAllowsLeak<R>(r: R, clamp: R -> R)
    returns (tr: seq<Sys<R>>, acts: seq<Action<R>>, i: nat)
    ensures Behaviour(tr, acts, clamp) && i < |acts|
    ensures forall k | 0 <= k < |acts| && acts[k].ForgetRemove? :: acts[k].ok
    ensures acts[i] == ForgetRemove(true) && tr[i].forgetting == Some(0) && 0 in tr[i].h.mark
    ensures 0 in tr[|acts|].disk && !SavedAfter(tr[|acts|].disk[0], 0, tr[i].h.mark[0], tr[|acts|].h.log, clamp)
  {
    hide Takes; hide At; hide Saved; hide Init; hide Behaviour;
    tr, acts := SaveBetweenForgets(r, clamp);
    i := 11;
    var t5, a5 := StaleTake(r, clamp); Joined(tr, acts, t5, a5, clamp);
    tr, acts := tr + t5[1..], acts + a5;
    var t6, a6 := StaleWrite(r, clamp); Joined(tr, acts, t6, a6, clamp);
    tr, acts := tr + t6[1..], acts + a6;
    IsBehaviour(tr, acts, clamp);
  }

  // ---------- a removal from disk that fails ----------

  /** When the removal fails the record is still on disk after the forget returned, though nothing was saved since. */
  lemma {:induction false} FailedRemovalLeaks<R>(r: R, clamp: R -> R)
    returns (tr: seq<Sys<R>>, acts: seq<Action<R>>)
    ensures Behaviour(tr, acts, clamp) && |acts| == 2
    ensures acts[1] == ForgetRemove(false) && tr[1].forgetting == Some(0) && 0 in tr[1].h.mark
    ensures 0 in tr[2].disk && !SavedAfter(tr[2].disk[0], 0, tr[1].h.mark[0], tr[2].h.log, clamp)
  {
    hide SaveEffect; hide FlushEffect; hide TakeEffect; hide FilterEffect; hide WriteEffect; hide CompleteEffect;
    hide LoadEffect; hide InstallEffect; hide IssueEffect; hide ForgetMarkEffect;
    var found: map<Uuid, R> := map[0 := r];
    FirstMark(found, clamp);
    assert Zeros(found) == map[0 := 0];
    acts := [ForgetMark(0), ForgetRemove(false)];
    tr := [At(map[], 0, {}, map[], false, Idle, found, None, map[], map[], [], map[0 := 0], map[], map[]),
           At(map[], 1, {0}, map[], false, Idle, found, Some(0), map[], map[], [], map[0 := 0], map[], map[0 := 0]),
           At(map[], 1, {0}, map[], false, Idle, found, None, map[], map[], [], map[0 := 0], map[], map[0 := 0])];
    assert Takes(tr[1], acts[1], tr[2], clamp);
    IsBehaviour(tr, acts, clamp);
  }
}
