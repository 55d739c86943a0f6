/** The three purging sections keep a listener's invariant, hence every step does. */
module QueueSteps {
  import opened Wrappers
  import opened Sequences
  import opened ListenerQueue
  import opened QueueInvariants

  lemma KeptLogs(acq: seq<Wid>, waiting: seq<Wid>, enq: seq<Wid>, gone: seq<bool>)
    requires |gone| == |waiting| && Subseq(acq + waiting, enq)
    ensures Subseq(acq + Kept(waiting, gone), enq) && |Kept(waiting, gone)| <= |waiting|
  {
    KeptSubseq(waiting, gone);
    SubseqPrefixed(acq, Kept(waiting, gone), waiting);
    SubseqTrans(acq + Kept(waiting, gone), acq + waiting, enq);
  }

  /** What the tests of a section said of each entry of `waiting`. */
  ghost predicate Examined(waiting: seq<Wid>, gone: seq<bool>, ws: map<Wid, Waiter>, since: nat)
    requires |gone| == |waiting|
  {
    forall i :: 0 <= i < |gone| ==>
      && waiting[i] in ws
      && if gone[i] then Done(ws[waiting[i]]) else since <= ws[waiting[i]].liveAt
  }

  lemma KeptExamined(waiting: seq<Wid>, gone: seq<bool>, ws: map<Wid, Waiter>, since: nat)
    requires |gone| == |waiting| && NoDup(waiting) && Examined(waiting, gone, ws, since)
    ensures forall w :: w in Kept(waiting, gone) ==> w in waiting && w in ws && since <= ws[w].liveAt
    ensures forall w :: w in waiting && w !in Kept(waiting, gone) ==> w in ws && Done(ws[w])
    ensures forall i :: 0 <= i < |waiting| && gone[i] ==> waiting[i] !in Kept(waiting, gone)
    ensures true !in gone ==> Kept(waiting, gone) == waiting
  {
    KeptMembers(waiting, gone);
  }

  /** What a finished purge leaves: removed entries are finished, kept ones were
      alive when this section looked, and a timed-out handler purges its own. */
  lemma PurgeFacts(q: Queue)
    requires LogsOk(q) && LockOk(q) && SectionOver(q)
    ensures var kept := Kept(q.waiting, q.lock.obs);
      && Subseq(q.acqLog + kept, q.enqLog) && |kept| <= q.cap
      && (forall w :: w in kept ==> w in q.waiting && w in q.ws && q.lock.since <= q.ws[w].liveAt)
      && (forall w :: w in q.waiting && w !in kept ==> w in q.ws && Done(q.ws[w]))
      && (q.lock.task.PurgeTask? ==> q.lock.task.w !in kept)
      && (true !in q.lock.obs ==> kept == q.waiting)
  {
    LogsApart(q);
    KeptLogs(q.acqLog, q.waiting, q.enqLog, q.lock.obs);
    KeptExamined(q.waiting, q.lock.obs, q.ws, q.lock.since);
  }

  /** The queue shrinks by finished clients only, and queueMu is released. */
  lemma ShrinkCore(q: Queue, kept: seq<Wid>)
    requires Core(q) && Subseq(q.acqLog + kept, q.enqLog) && |kept| <= q.cap
    requires forall w :: w in kept ==> w in q.waiting
    requires forall w :: w in q.waiting && w !in kept && w in q.ws ==> Done(q.ws[w])
    ensures Core(q.(waiting := kept, lock := Free))
  {
    var q' := q.(waiting := kept, lock := Free);
    forall x | x in q'.ws ensures WaiterOk(q'.ws[x], ViewOf(q', x)) {
      assert WaiterOk(q.ws[x], ViewOf(q, x));
    }
  }

  lemma PurgedInv(q: Queue)
    requires Inv(q) && SectionOver(q)
    ensures Inv(Purged(q))
  {
    PurgeFacts(q);
    var kept := Kept(q.waiting, q.lock.obs);
    ShrinkCore(q, kept);
    if true in q.lock.obs { BroadcastInv(q.(waiting := kept, lock := Free), Purged(q)); }
  }

  lemma ReturnedOk(r: Waiter, v: View)
    requires WaiterOk(r, v) && r.pc == PurgePending && !v.waiting
    ensures WaiterOk(r.(pc := Returned), v)
  {
  }

  lemma CommitPurgeInv(q: Queue)
    requires Inv(q) && Enabled(q, CommitPurge)
    ensures Inv(DoCommitPurge(q))
  {
    var w := q.lock.task.w;
    var q' := Purged(q);
    assert q'.ws[w] == q.ws[w];
    assert w !in q'.waiting by { PurgeFacts(q); }
    PurgedInv(q);
    ReturnedOk(q'.ws[w], ViewOf(q', w));
    SetHandlerInv(q', w, q.ws[w].(pc := Returned), DoCommitPurge(q));
  }

  lemma AppendLogs(q: Queue, w: Wid)
    requires LogsOk(q) && w in q.ws && w !in q.enqLog && |q.waiting| < q.cap
    ensures LogsOk(Appended(q, w))
  {
    SubseqSnoc(q.acqLog + q.waiting, q.enqLog, w);
    assert q.acqLog + (q.waiting + [w]) == (q.acqLog + q.waiting) + [w];
  }

  lemma AppendLinks(q: Queue, w: Wid)
    requires LinksOk(q) && w in q.ws
    ensures LinksOk(Appended(q, w))
  {
  }

  lemma QueuedOk(r: Waiter, v: View)
    requires WaiterOk(r, v) && r.pc == Enqueuing && !v.queued
    ensures WaiterOk(r.(pc := Queued), v.(queued := true, waiting := true))
  {
  }

  lemma RefusedOk(r: Waiter, v: View, pc: HandlerPc)
    requires WaiterOk(r, v) && r.pc == Enqueuing && pc in {Finishing(Rejected), EnqueueBlocked}
    ensures WaiterOk(r.(pc := pc), v)
  {
  }

  /** A client not queued so far joins the end of a queue with room. */
  lemma AppendCore(q: Queue, w: Wid)
    requires Core(q) && q.lock.Free? && HandlerAt(q, w, Enqueuing) && |q.waiting| < q.cap
    ensures Core(Appended(q, w))
  {
    var q' := Appended(q, w);
    assert w !in q.enqLog by { assert WaiterOk(q.ws[w], ViewOf(q, w)); }
    AppendLogs(q, w);
    AppendLinks(q, w);
    forall x | x in q'.ws ensures WaiterOk(q'.ws[x], ViewOf(q', x)) {
      if x == w {
        QueuedOk(q.ws[w], ViewOf(q, w));
      } else {
        assert ViewOf(q', x) == ViewOf(q, x);
      }
    }
  }

  lemma CommitEnqueueInv(q: Queue)
    requires Inv(q) && Enabled(q, CommitEnqueue)
    ensures Inv(DoCommitEnqueue(q))
  {
    var w := q.lock.task.w;
    var q' := Purged(q);
    PurgedInv(q);
    assert q'.ws[w] == q.ws[w];
    if !q.quit && |q'.waiting| < q.cap {
      AppendCore(q', w);
      BroadcastInv(Appended(q', w), DoCommitEnqueue(q));
    } else {
      var pc := if q.quit then Finishing(Rejected) else EnqueueBlocked;
      RefusedOk(q'.ws[w], ViewOf(q', w), pc);
      SetHandlerInv(q', w, q.ws[w].(pc := pc), DoCommitEnqueue(q));
    }
  }

  lemma HandedLogs(q: Queue, c: Cid, since: nat)
    requires LogsOk(q) && q.waiting != [] && q.waiting[0] in q.ws && c in q.cs
    ensures LogsOk(HandedTo(q, c, since))
  {
    assert (q.acqLog + [q.waiting[0]]) + q.waiting[1..] == q.acqLog + q.waiting;
  }

  lemma HandedLinks(q: Queue, c: Cid, since: nat)
    requires LinksOk(q) && q.waiting != [] && q.waiting[0] in q.ws && c in q.cs
    requires q.cs[c].got.None? && since <= q.ws[q.waiting[0]].liveAt <= q.step && q.ws[q.waiting[0]].takenBy.None?
    ensures LinksOk(HandedTo(q, c, since))
  {
  }

  lemma HandedOk(r: Waiter, v: View, c: Cid)
    requires WaiterOk(r, v) && v.waiting
    ensures WaiterOk(r.(acquired := true, takenBy := Some(c)), v.(waiting := false, taken := true))
  {
  }

  lemma HandedWaiters(q: Queue, c: Cid, since: nat)
    requires Core(q) && q.waiting != [] && q.waiting[0] in q.ws && c in q.cs
    ensures var q' := HandedTo(q, c, since); forall x :: x in q'.ws ==> WaiterOk(q'.ws[x], ViewOf(q', x))
  {
    var w := q.waiting[0];
    var q' := HandedTo(q, c, since);
    assert w !in q.waiting[1..] by { LogsApart(q); }
    assert q.waiting == [w] + q.waiting[1..];
    forall x | x in q'.ws ensures WaiterOk(q'.ws[x], ViewOf(q', x)) {
      if x == w {
        HandedOk(q.ws[w], ViewOf(q, w), c);
        assert ViewOf(q', w) == ViewOf(q, w).(waiting := false, taken := true);
      } else {
        assert ViewOf(q', x) == ViewOf(q, x);
      }
    }
  }

  lemma HandedCore(q: Queue, c: Cid, since: nat)
    requires Core(q) && q.lock.Free? && q.waiting != [] && IncomingAt(q, c, Acquiring)
    requires q.waiting[0] in q.ws && since <= q.ws[q.waiting[0]].liveAt
    ensures Core(HandedTo(q, c, since))
  {
    assert q.cs[c].got.None? && IncomingOk(HandedTo(q, c, since).cs[c], q.now) by { assert IncomingOk(q.cs[c], q.now); }
    assert q.ws[q.waiting[0]].takenBy.None? && q.ws[q.waiting[0]].liveAt <= q.step by { assert WaiterOk(q.ws[q.waiting[0]], ViewOf(q, q.waiting[0])); }
    HandedLogs(q, c, since);
    HandedLinks(q, c, since);
    HandedWaiters(q, c, since);
  }

  lemma TakenInv(q: Queue)
    requires Inv(q) && Enabled(q, CommitAcquire) && Kept(q.waiting, q.lock.obs) != []
    ensures Inv(DoCommitAcquire(q))
  {
    var c := q.lock.task.c;
    var q' := Purged(q);
    assert q'.cs[c] == q.cs[c];
    assert q'.waiting[0] in q'.ws && q.lock.since <= q'.ws[q'.waiting[0]].liveAt by { PurgeFacts(q); }
    PurgedInv(q);
    HandedCore(q', c, q.lock.since);
    BroadcastInv(HandedTo(q', c, q.lock.since), DoCommitAcquire(q));
  }

  lemma NotTakenInv(q: Queue)
    requires Inv(q) && Enabled(q, CommitAcquire) && Kept(q.waiting, q.lock.obs) == []
    ensures Inv(DoCommitAcquire(q))
  {
    var c := q.lock.task.c;
    var q' := Purged(q);
    var r := q.cs[c].(pc := if q.cs[c].deadline <= q.now || q.quit then Ending else AcquireBlocked);
    assert q'.cs[c] == q.cs[c] && DoCommitAcquire(q) == SetIncoming(q', c, r);
    assert IncomingOk(r, q'.now) by { assert IncomingOk(q.cs[c], q.now); }
    PurgedInv(q);
    SetIncomingInv(q', c, r, DoCommitAcquire(q));
  }

  lemma LockInv(q: Queue, a: Action)
    requires Inv(q) && Enabled(q, a) && (a.LockEnqueue? || a.LockPurge? || a.LockAcquire?)
    ensures Inv(Do(q, a))
  {
    SetLockInv(q, Do(q, a).lock, Do(q, a));
  }

  predicate OfHandler(a: Action) {
    || a.Arrive? || a.LockEnqueue? || a.CommitEnqueue? || a.TouchedByClient? || a.SelectDone? || a.SelectQuit?
    || a.SelectAcquired? || a.SelectTimer? || a.TestAcquired? || a.EnterFinish? || a.LeaveFinish? || a.SkipFinish?
    || a.LockPurge? || a.CommitPurge? || a.Observe? || a.Quit?
  }

  lemma HandlerInv(q: Queue, a: Action)
    requires Inv(q) && Enabled(q, a) && OfHandler(a)
    requires forall w :: w in q.ws ==> q.ws[w].liveAt < q.step
    ensures Inv(Do(q, a))
  {
    if a.Arrive? { ArriveInv(q, a.w); }
    else if a.LockEnqueue? || a.LockPurge? { LockInv(q, a); }
    else if a.CommitEnqueue? { CommitEnqueueInv(q); }
    else if a.CommitPurge? { CommitPurgeInv(q); }
    else if a.EnterFinish? || a.LeaveFinish? || a.SkipFinish? { FinishMove(q, a, a.w); }
    else if a.Observe? { ObserveInv(q); }
    else if a.Quit? { QuitInv(q); }
    else { SelectMove(q, a, a.w); }
  }

  lemma IncomingInv(q: Queue, a: Action)
    requires Inv(q) && Enabled(q, a) && !OfHandler(a)
    requires forall w :: w in q.ws ==> q.ws[w].liveAt < q.step
    ensures Inv(Do(q, a))
  {
    if a.Begin? { BeginInv(q, a.c); }
    else if a.LockAcquire? { LockInv(q, a); }
    else if a.CommitAcquire? { if Kept(q.waiting, q.lock.obs) == [] { NotTakenInv(q); } else { TakenInv(q); } }
    else if a.TimedBroadcast? { TimedBroadcastInv(q, a.c); }
    else if a.EnterRelease? { EnterReleaseInv(q, a.c); }
    else if a.LeaveRelease? { LeaveReleaseInv(q, a.c); }
    else { IncomingMove(q, a, a.c); }
  }

  /** Every step keeps the invariant. */
  lemma StepInv(q: Queue, a: Action, t: Time)
    requires Inv(q) && CanStep(q, a, t)
    ensures Inv(Next(q, a, t))
  {
    AdvanceInv(q, t);
    forall w | w in q.ws ensures q.ws[w].liveAt < q.step + 1 { assert WaiterOk(q.ws[w], ViewOf(q, w)); }
    if OfHandler(a) { HandlerInv(Advance(q, t), a); } else { IncomingInv(Advance(q, t), a); }
  }
}
