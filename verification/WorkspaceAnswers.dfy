/**
 What a flush is answered: the result of the first write attempt that reaches its target, or Ok at once
 when everything accepted is already persisted.
 */
module WorkspaceAnswers {

  import opened Options
  import opened WorkspaceProtocol
  import opened WorkspaceSafety
  import opened WorkspaceTheorems

  /** The step reports the end of an attempt that covers saves up to `target`. */
  predicate Reports<R>(s: Sys<R>, a: Action<R>, target: nat) {
    a.WriterComplete? && s.writer.Wrote? && target <= s.writer.attempted
  }

  lemma {:induction false} CompleteAnswers<R>(s: Sys<R>, f: FlushId)
    requires FlushInv(s.q, s.flushes) && s.writer.Wrote? && f in s.flushes && s.flushes[f].answer == None
    ensures var t := CompleteEffect(s);
      && f in t.flushes && t.flushes[f].target == s.flushes[f].target
      && t.flushes[f].answer == if s.flushes[f].target <= s.writer.attempted then Some(s.writer.ok) else None
  {
    hide Restored; hide QueueComplete;
    assert (s.flushes[f].target, f) in s.q.flushes;
    assert CompleteEffect(s).flushes == Answered(s.flushes, s.q.flushes, s.writer.attempted, s.writer.ok);
  }

  lemma {:induction false} OtherWriterSteps<R>(s: Sys<R>, a: Action<R>, clamp: R -> R)
    requires Enabled(s, a) && WriterStep(a) && !a.WriterComplete?
    ensures Step(s, a, clamp).flushes == s.flushes
  {
    hide Newest; hide Unforgotten; hide Published; hide PublishedFrom; hide CompleteEffect; hide TakeEffect;
    match a {
      case WriterReceive => assert Step(s, a, clamp) == s.(wake := false, writer := Woken);
      case WriterTake => TakeKeepsFlushes(s);
      case WriterFilter => assert Step(s, a, clamp) == FilterEffect(s);
      case WriterWrite(ok, landed) => assert Step(s, a, clamp) == WriteEffect(s, ok, landed, clamp);
    }
  }

  lemma {:induction false} TakeKeepsFlushes<R>(s: Sys<R>)
    ensures TakeEffect(s).flushes == s.flushes
  {
    hide Newest;
    if s.q.pending == map[] {
      assert TakeEffect(s) == s.(writer := Idle);
    } else {
      var newest := Newest(s.q.pending);
      assert TakeEffect(s) == s.(writer := Took(s.q.pending, newest), q := s.q.(pending := map[]));
    }
  }

  /** One step answers an unanswered flush exactly when it reports an attempt that reaches it, with its result. */
  lemma {:induction false} StepAnswers<R>(s: Sys<R>, a: Action<R>, f: FlushId, clamp: R -> R)
    requires FlushInv(s.q, s.flushes) && Enabled(s, a) && f in s.flushes && s.flushes[f].answer == None
    ensures var t := Step(s, a, clamp);
      && f in t.flushes && t.flushes[f].target == s.flushes[f].target
      && t.flushes[f].answer == if Reports(s, a, s.flushes[f].target) then Some(s.writer.ok) else None
  {
    hide FlushInv; hide CompleteEffect; hide TakeEffect; hide FilterEffect; hide WriteEffect; hide FlushEffect;
    hide SaveEffect; hide LoadEffect; hide InstallEffect; hide ForgetMarkEffect; hide IssueEffect;
    if a.WriterComplete? {
      CompleteAnswers(s, f);
    } else if WriterStep(a) {
      OtherWriterSteps(s, a, clamp);
      hide Step; hide Enabled;
    } else {
      StepFrames(s, a, clamp);
      hide Step; hide Enabled;
      assert FlushKept(s.flushes[f], Step(s, a, clamp).flushes[f], false);
    }
  }

  /** An answer once given stays. */
  lemma {:induction false} AnswerStays<R(!new)>(tr: seq<Sys<R>>, acts: seq<Action<R>>, clamp: R -> R, f: FlushId,
                                                i: nat, j: nat)
    requires Idempotent(clamp) && Behaviour(tr, acts, clamp) && i <= j < |tr|
    requires f in tr[i].flushes && tr[i].flushes[f].answer != None
    ensures f in tr[j].flushes && tr[j].flushes[f].target == tr[i].flushes[f].target
    ensures tr[j].flushes[f].answer == tr[i].flushes[f].answer
    decreases j
  {
    hide Step; hide Enabled; hide Idempotent;
    if i < j {
      AnswerStays(tr, acts, clamp, f, i, j - 1);
      StepFramesAt(tr, acts, clamp, j);
    }
  }

  /** Until an attempt that reaches it is reported a flush has no answer. */
  lemma {:induction false} NoReportNoAnswer<R(!new)>(tr: seq<Sys<R>>, acts: seq<Action<R>>, clamp: R -> R, f: FlushId,
                                                     i: nat, j: nat)
    requires Idempotent(clamp) && Behaviour(tr, acts, clamp) && i <= j < |tr|
    requires f in tr[i].flushes && tr[i].flushes[f].answer == None
    requires forall k | i <= k < j :: !Reports(tr[k], acts[k], tr[i].flushes[f].target)
    ensures f in tr[j].flushes && tr[j].flushes[f].answer == None
    ensures tr[j].flushes[f].target == tr[i].flushes[f].target
    decreases j
  {
    hide Inv; hide Step; hide Enabled; hide Idempotent; hide FlushInv; hide Reports;
    if i < j {
      NoReportNoAnswer(tr, acts, clamp, f, i, j - 1);
      AlwaysFlushInv(tr, acts, clamp, j - 1);
      assert Enabled(tr[j - 1], acts[j - 1]);
      StepAnswers(tr[j - 1], acts[j - 1], f, clamp);
    }
  }

  lemma {:induction false} AlwaysFlushInv<R(!new)>(tr: seq<Sys<R>>, acts: seq<Action<R>>, clamp: R -> R, i: nat)
    requires Idempotent(clamp) && Behaviour(tr, acts, clamp) && i < |tr|
    ensures FlushInv(tr[i].q, tr[i].flushes)
  {
    hide Inv; hide Idempotent; hide Behaviour; hide FlushInv;
    AlwaysInv(tr, acts, clamp, i);
    InvParts(tr[i], clamp);
  }

  /** The answer of a flush is the result of the first attempt reported after it that reaches its target, for good. */
  lemma {:induction false} FirstReportAnswers<R(!new)>(tr: seq<Sys<R>>, acts: seq<Action<R>>, clamp: R -> R, f: FlushId,
                                                       i: nat, k: nat, j: nat)
    requires Idempotent(clamp) && Behaviour(tr, acts, clamp) && i <= k < j < |tr|
    requires f in tr[i].flushes && tr[i].flushes[f].answer == None
    requires Reports(tr[k], acts[k], tr[i].flushes[f].target)
    requires forall m | i <= m < k :: !Reports(tr[m], acts[m], tr[i].flushes[f].target)
    ensures f in tr[j].flushes && tr[j].flushes[f].answer == Some(tr[k].writer.ok)
  {
    hide Step; hide Enabled; hide Idempotent; hide FlushInv;
    NoReportNoAnswer(tr, acts, clamp, f, i, k);
    AlwaysFlushInv(tr, acts, clamp, k);
    assert Enabled(tr[k], acts[k]);
    StepAnswers(tr[k], acts[k], f, clamp);
    AnswerStays(tr, acts, clamp, f, k + 1, j);
  }

  /** A new flush is answered at once, with Ok, exactly when everything accepted is persisted; otherwise it waits. */
  lemma {:induction false} StartAnswers<R>(s: Sys<R>, a: Action<R>, f: FlushId, clamp: R -> R)
    requires Enabled(s, a) && StartsFlush(a, f)
    ensures var t := Step(s, a, clamp);
      && f in t.flushes && t.flushes[f].target == s.q.nextSequence && !t.flushes[f].woken
      && t.flushes[f].answer == if s.q.persistedSequence >= s.q.nextSequence then Some(true) else None
  {}

  lemma {:induction false} FirstReport<R>(tr: seq<Sys<R>>, acts: seq<Action<R>>, target: nat, i: nat, j: nat)
    returns (k: nat)
    requires i <= j <= |acts| <= |tr|
    ensures i <= k <= j && forall m | i <= m < k :: !Reports(tr[m], acts[m], target)
    ensures k < j ==> Reports(tr[k], acts[k], target)
    decreases j
  {
    if i == j {
      k := j;
    } else {
      k := FirstReport(tr, acts, target, i, j - 1);
      if k == j - 1 && !Reports(tr[k], acts[k], target) { k := j; }
    }
  }

  /**
   A flush that returned an error had to wait, and the first attempt that reached it failed. One that
   returned Ok either found everything persisted or the first attempt that reached it succeeded.
   */
  lemma {:induction false} AnswerHasCause<R(!new)>(tr: seq<Sys<R>>, acts: seq<Action<R>>, clamp: R -> R, f: FlushId,
                                                   i: nat, j: nat) returns (k: nat)
    requires Idempotent(clamp) && Behaviour(tr, acts, clamp) && i < j < |tr| && StartsFlush(acts[i], f)
    ensures f in tr[j].flushes && i < k <= j
    ensures tr[i].q.persistedSequence >= tr[i].q.nextSequence ==> tr[j].flushes[f].answer == Some(true)
    ensures tr[i].q.persistedSequence < tr[i].q.nextSequence ==>
              && (forall m | i < m < k :: !Reports(tr[m], acts[m], tr[i].q.nextSequence))
              && (k < j ==> Reports(tr[k], acts[k], tr[i].q.nextSequence))
              && tr[j].flushes[f].answer == if k < j then Some(tr[k].writer.ok) else None
  {
    hide Idempotent; hide Step; hide Enabled; hide Reports;
    assert Enabled(tr[i], acts[i]) && tr[i + 1] == Step(tr[i], acts[i], clamp);
    StartAnswers(tr[i], acts[i], f, clamp);
    k := FirstReport(tr, acts, tr[i].q.nextSequence, i + 1, j);
    if tr[i].q.persistedSequence >= tr[i].q.nextSequence {
      AnswerStays(tr, acts, clamp, f, i + 1, j);
    } else if k < j {
      FirstReportAnswers(tr, acts, clamp, f, i + 1, k, j);
    } else {
      NoReportNoAnswer(tr, acts, clamp, f, i + 1, j);
    }
  }

  /** Eight writer steps after its wake a flush has its answer, and it is the result of an attempt reported since. */
  lemma {:induction false} AnsweredInTime<R(!new)>(tr: seq<Sys<R>>, acts: seq<Action<R>>, clamp: R -> R, f: FlushId,
                                                   i: nat, j: nat) returns (k: nat)
    requires Idempotent(clamp) && Behaviour(tr, acts, clamp) && i <= j < |tr|
    requires Waits(tr[i], f) && WriterSteps(acts, i, j) >= 8
    ensures i <= k < j && Reports(tr[k], acts[k], tr[i].flushes[f].target)
    ensures forall m | i <= m < k :: !Reports(tr[m], acts[m], tr[i].flushes[f].target)
    ensures f in tr[j].flushes && tr[j].flushes[f].answer == Some(tr[k].writer.ok)
  {
    hide Idempotent; hide Step; hide Enabled; hide Reports;
    FlushAnsweredWithinEightWriterSteps(tr, acts, clamp, f, i, j);
    k := FirstReport(tr, acts, tr[i].flushes[f].target, i, j);
    if k == j {
      NoReportNoAnswer(tr, acts, clamp, f, i, j);
    } else {
      FirstReportAnswers(tr, acts, clamp, f, i, k, j);
    }
  }
}
