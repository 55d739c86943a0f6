/** Nobody is stuck: whoever has something to do can do it, or waits for a
    goroutine that can go on. */
module QueueProgress {
  import opened Wrappers
  import opened Sequences
  import opened ListenerQueue
  import opened QueueInvariants
  import opened QueueSteps
  import opened QueueTheorems

  // ------------------------------------------------- who is inside `finish`

  /** A `finish` body run by a connection is run by the one that holds the
      client and is inside its release. */
  ghost predicate ReleasersOk(ws: map<Wid, Waiter>, cs: map<Cid, Incoming>) {
    forall w, c :: w in ws && ws[w].once == Running(ByIncoming(c)) ==>
      c in cs && cs[c].pc == InRelease && cs[c].got == Some(w)
  }

  /** Clients keep who runs their `finish`, and releasing connections stay so. */
  ghost predicate KeepsReleases(q: Queue, q': Queue) {
    && (forall w :: w in q'.ws && q'.ws[w].once.Running? && q'.ws[w].once.who.ByIncoming? ==>
          w in q.ws && q.ws[w].once == q'.ws[w].once)
    && (forall c :: c in q.cs && q.cs[c].pc == InRelease ==> c in q'.cs && q'.cs[c].pc == InRelease && q'.cs[c].got == q.cs[c].got)
  }

  lemma KeptReleases(q: Queue, q': Queue)
    requires ReleasersOk(q.ws, q.cs) && KeepsReleases(q, q')
    ensures ReleasersOk(q'.ws, q'.cs)
  {
  }

  lemma BroadcastKeeps(q: Queue)
    ensures KeepsReleases(q, Broadcast(q))
  {
  }

  lemma KeepsTrans(a: Queue, b: Queue, c: Queue)
    requires KeepsReleases(a, b) && KeepsReleases(b, c)
    ensures KeepsReleases(a, c)
  {
  }

  lemma PurgedKeeps(q: Queue)
    requires SectionOver(q)
    ensures KeepsReleases(q, Purged(q))
  {
    BroadcastKeeps(q.(waiting := Kept(q.waiting, q.lock.obs), lock := Free));
  }

  predicate SameRunner(r: Waiter, o: Waiter) {
    r.once.Running? && r.once.who.ByIncoming? ==> r.once == o.once
  }

  lemma SetHandlerKeeps(q: Queue, w: Wid, r: Waiter, q': Queue)
    requires q'.ws == q.ws[w := r] && q'.cs == q.cs
    requires if w in q.ws then SameRunner(r, q.ws[w]) else r.once.Unused?
    ensures KeepsReleases(q, q')
  {
  }

  lemma SetIncomingKeeps(q: Queue, c: Cid, r: Incoming)
    requires IncomingAt(q, c, Acquiring)
    ensures KeepsReleases(q, SetIncoming(q, c, r))
  {
  }

  lemma SectionKeeps(q: Queue, a: Action)
    requires Enabled(q, a) && (a.CommitEnqueue? || a.CommitPurge?)
    ensures KeepsReleases(q, Do(q, a))
  {
    var p, w := Purged(q), q.lock.task.w;
    PurgedKeeps(q);
    if a.CommitEnqueue? && !q.quit && |p.waiting| < q.cap {
      SetHandlerKeeps(p, w, p.ws[w].(pc := Queued), Appended(p, w));
      BroadcastKeeps(Appended(p, w));
      KeepsTrans(p, Appended(p, w), Do(q, a));
    } else {
      SetHandlerKeeps(p, w, Do(q, a).ws[w], Do(q, a));
    }
    KeepsTrans(q, p, Do(q, a));
  }

  lemma HandedKeeps(q: Queue, c: Cid, since: nat)
    requires IncomingAt(q, c, Acquiring) && q.waiting != [] && q.waiting[0] in q.ws
    ensures KeepsReleases(q, Broadcast(HandedTo(q, c, since)))
  {
    var h := HandedTo(q, c, since);
    assert KeepsReleases(q, h);
    BroadcastKeeps(h);
    KeepsTrans(q, h, Broadcast(h));
  }

  lemma AcquireKeeps(q: Queue)
    requires Enabled(q, CommitAcquire)
    ensures KeepsReleases(q, DoCommitAcquire(q))
  {
    var p, c := Purged(q), q.lock.task.c;
    PurgedKeeps(q);
    if p.waiting != [] && p.waiting[0] in p.ws {
      HandedKeeps(p, c, q.lock.since);
    } else {
      SetIncomingKeeps(p, c, DoCommitAcquire(q).cs[c]);
    }
    KeepsTrans(q, p, DoCommitAcquire(q));
  }

  lemma HandlerKeeps(q: Queue, a: Action)
    requires Enabled(q, a) && OfHandler(a) && !a.CommitEnqueue? && !a.CommitPurge?
    ensures KeepsReleases(q, Do(q, a))
  {
    if a.Quit? {
      BroadcastKeeps(q.(quit := true));
    } else if a.Observe? {
      var w := q.waiting[|q.lock.obs|];
      SetHandlerKeeps(q, w, Do(q, a).ws[w], Do(q, a));
    } else if !a.LockEnqueue? && !a.LockPurge? {
      SetHandlerKeeps(q, a.w, Do(q, a).ws[a.w], Do(q, a));
    }
  }

  lemma IncomingKeeps(q: Queue, a: Action)
    requires Enabled(q, a) && !OfHandler(a) && !a.CommitAcquire? && !a.EnterRelease? && !a.LeaveRelease?
    ensures KeepsReleases(q, Do(q, a))
  {
    if a.TimedBroadcast? { BroadcastKeeps(q); }
  }

  lemma ReleaseKeeps(q: Queue, a: Action)
    requires ReleasersOk(q.ws, q.cs) && Enabled(q, a) && (a.EnterRelease? || a.LeaveRelease?)
    ensures ReleasersOk(Do(q, a).ws, Do(q, a).cs)
  {
  }

  lemma ReleasersStep(q: Queue, a: Action)
    requires ReleasersOk(q.ws, q.cs) && Enabled(q, a)
    ensures ReleasersOk(Do(q, a).ws, Do(q, a).cs)
  {
    if a.EnterRelease? || a.LeaveRelease? {
      ReleaseKeeps(q, a);
    } else {
      if a.CommitEnqueue? || a.CommitPurge? {
        SectionKeeps(q, a);
      } else if a.CommitAcquire? {
        AcquireKeeps(q);
      } else if OfHandler(a) {
        HandlerKeeps(q, a);
      } else {
        IncomingKeeps(q, a);
      }
      KeptReleases(q, Do(q, a));
    }
  }

  lemma ReleasersAt(qs: seq<Queue>, es: seq<Event>, i: nat)
    requires Trace(qs, es) && i < |es| && ReleasersOk(qs[i].ws, qs[i].cs)
    ensures ReleasersOk(qs[i + 1].ws, qs[i + 1].cs)
  {
    assert Steps(qs[i], es[i], qs[i + 1]);
    ReleasersStep(Advance(qs[i], es[i].t), es[i].a);
  }

  lemma {:induction false} ReleasersAlong(qs: seq<Queue>, es: seq<Event>, k: nat)
    requires Trace(qs, es) && ReleasersOk(qs[0].ws, qs[0].cs) && k <= |es|
    ensures ReleasersOk(qs[k].ws, qs[k].cs)
  {
    if k > 0 {
      ReleasersAlong(qs, es, k - 1);
      ReleasersAt(qs, es, k - 1);
    }
  }

  lemma ReachableReleasers(q: Queue)
    requires Reachable(q)
    ensures ReleasersOk(q.ws, q.cs)
  {
    var cap, idle, t0, es :| Run(Initial(cap, idle, t0), es, q);
    var qs :| Trace(qs, es) && qs[0] == Initial(cap, idle, t0) && qs[|es|] == q;
    ReleasersAlong(qs, es, |es|);
  }

  // --------------------------------------------------------------- progress

  predicate Can(q: Queue, a: Action) { CanStep(q, a, q.now) }

  /** The holder of queueMu goes on, whoever it is. */
  predicate OfHolder(a: Action) { a.Observe? || a.CommitEnqueue? || a.CommitPurge? || a.CommitAcquire? }

  lemma HolderGoesOn(q: Queue) returns (a: Action)
    requires LogsOk(q) && LockOk(q) && q.lock.Held?
    ensures OfHolder(a) && Can(q, a)
  {
    if |q.lock.obs| < |q.waiting| {
      LogsApart(q);
      assert q.waiting[|q.lock.obs|] in q.waiting;
      a := Observe;
    } else {
      a := match q.lock.task
        case EnqueueTask(_) => CommitEnqueue
        case AcquireTask(_) => CommitAcquire
        case PurgeTask(_) => CommitPurge;
    }
  }

  /** A handler with nothing to do: returned, asleep, or in a select in which
      nothing is ready. */
  predicate HandlerRests(q: Queue, w: Wid)
    requires w in q.ws
  {
    var r := q.ws[w];
    || r.pc == Returned || r.pc == EnqueueBlocked
    || (r.pc == Selecting && !q.idleTimeoutOn && !q.quit && !Done(r))
    || (r.pc == AfterAcquire && !q.quit && !Done(r))
  }

  /** A step of the handler of `w` itself. */
  predicate OfClient(a: Action, w: Wid) {
    || a == LockEnqueue(w) || a == TouchedByClient(w) || a == SelectDone(w) || a == SelectQuit(w) || a == SelectTimer(w)
    || a == TestAcquired(w) || a == EnterFinish(w) || a == LeaveFinish(w) || a == SkipFinish(w) || a == LockPurge(w)
  }

  /** What the handler of `w` does next when no other goroutine is in its way. */
  function HandlerMove(r: Waiter, quit: bool, w: Wid): Action {
    match r.pc
    case Enqueuing => LockEnqueue(w)
    case Queued => TouchedByClient(w)
    case Selecting => if Done(r) then SelectDone(w) else if quit then SelectQuit(w) else SelectTimer(w)
    case AfterAcquire => if Done(r) then SelectDone(w) else SelectQuit(w)
    case TimerFired => TestAcquired(w)
    case Finishing(_) => if r.once.Finished? then SkipFinish(w) else EnterFinish(w)
    case InFinish(_) => LeaveFinish(w)
    case _ => LockPurge(w)
  }

  lemma HandlerCan(q: Queue, w: Wid)
    requires w in q.ws && WaiterOk(q.ws[w], ViewOf(q, w)) && !HandlerRests(q, w)
    requires q.ws[w].pc.Finishing? ==> !q.ws[w].once.Running?
    requires q.ws[w].pc == Enqueuing || q.ws[w].pc == PurgePending ==> q.lock.Free?
    ensures OfClient(HandlerMove(q.ws[w], q.quit, w), w) && Can(q, HandlerMove(q.ws[w], q.quit, w))
  {
  }

  lemma ReleaserGoesOn(q: Queue, w: Wid, c: Cid)
    requires ReleasersOk(q.ws, q.cs) && w in q.ws && q.ws[w].once == Running(ByIncoming(c))
    ensures Can(q, LeaveRelease(c))
  {
  }

  lemma HandlerRecord(q: Queue, w: Wid)
    requires Inv(q) && w in q.ws
    ensures WaiterOk(q.ws[w], ViewOf(q, w))
  {
  }

  lemma RunnerOf(q: Queue, w: Wid)
    requires w in q.ws && WaiterOk(q.ws[w], ViewOf(q, w)) && q.ws[w].once.Running?
    ensures q.ws[w].pc.Finishing? ==> q.ws[w].once.who.ByIncoming?
    ensures q.ws[w].once.who.ByHandler? ==> Can(q, LeaveFinish(w))
  {
  }

  lemma HolderCan(q: Queue) returns (a: Action)
    requires Inv(q) && q.lock.Held?
    ensures OfHolder(a) && Can(q, a)
  {
    a := HolderGoesOn(q);
  }

  /** A handler that does not rest can step, or the holder of queueMu can, or the
      connection that is running its client's `finish`. */
  lemma HandlerProgress(q: Queue, w: Wid) returns (a: Action)
    requires Reachable(q) && w in q.ws && !HandlerRests(q, w)
    ensures Can(q, a)
    ensures
      || OfClient(a, w)
      || (q.lock.Held? && OfHolder(a))
      || (a.LeaveRelease? && q.ws[w].once == Running(ByIncoming(a.c)))
  {
    ReachableInv(q);
    HandlerRecord(q, w);
    var r := q.ws[w];
    if r.pc.Finishing? && r.once.Running? {
      RunnerOf(q, w);
      ReachableReleasers(q);
      ReleaserGoesOn(q, w, r.once.who.c);
      a := LeaveRelease(r.once.who.c);
    } else if (r.pc == Enqueuing || r.pc == PurgePending) && q.lock.Held? {
      a := HolderCan(q);
    } else {
      HandlerCan(q, w);
      a := HandlerMove(r, q.quit, w);
    }
  }

  predicate IncomingRests(q: Queue, c: Cid)
    requires c in q.cs
  {
    q.cs[c].pc in {AcquireBlocked, Piping, Gone}
  }

  predicate OfConnection(a: Action, c: Cid) {
    || a == ArmTimer(c) || a == SetDeadline(c) || a == LockAcquire(c) || a == TouchedByIncoming(c)
    || a == EnterRelease(c) || a == LeaveRelease(c) || a == SkipRelease(c) || a == End(c)
  }

  function IncomingMove(q: Queue, c: Cid): Action
    requires c in q.cs
  {
    match q.cs[c].pc
    case Handshaking => ArmTimer(c)
    case Arming => SetDeadline(c)
    case Acquiring => LockAcquire(c)
    case Holding => TouchedByIncoming(c)
    case Releasing => if HasClient(q, c) && HeldBy(q, c).once.Finished? then SkipRelease(c) else EnterRelease(c)
    case InRelease => LeaveRelease(c)
    case _ => End(c)
  }

  lemma IncomingCan(q: Queue, c: Cid)
    requires c in q.cs && !IncomingRests(q, c)
    requires q.cs[c].pc == Acquiring ==> q.lock.Free?
    requires q.cs[c].pc in {Releasing, InRelease} ==> HasClient(q, c)
    requires q.cs[c].pc == Releasing ==> !HeldBy(q, c).once.Running?
    ensures OfConnection(IncomingMove(q, c), c) && Can(q, IncomingMove(q, c))
  {
  }

  lemma HoldsClient(q: Queue, c: Cid)
    requires Inv(q) && c in q.cs && q.cs[c].pc in {Releasing, InRelease}
    ensures HasClient(q, c) && HeldBy(q, c).takenBy == Some(c)
    ensures WaiterOk(HeldBy(q, c), ViewOf(q, q.cs[c].got.value))
  {
    assert IncomingOk(q.cs[c], q.now);
  }

  /** Only the client's own handler can be inside `finish` ahead of the connection. */
  lemma HandlerIsAhead(q: Queue, c: Cid)
    requires ReleasersOk(q.ws, q.cs) && HasClient(q, c) && q.cs[c].pc == Releasing && LinksOk(q)
    requires HeldBy(q, c).once.Running?
    ensures HeldBy(q, c).once.who.ByHandler?
  {
  }

  /** A connection that neither sleeps, pipes nor is done can step, or the holder
      of queueMu can, or the handler that is running `finish` for its client. */
  lemma IncomingProgress(q: Queue, c: Cid) returns (a: Action)
    requires Reachable(q) && c in q.cs && !IncomingRests(q, c)
    ensures Can(q, a)
    ensures
      || OfConnection(a, c)
      || (q.lock.Held? && OfHolder(a))
      || (a.LeaveFinish? && q.cs[c].got == Some(a.w))
  {
    ReachableInv(q);
    if q.cs[c].pc in {Releasing, InRelease} { HoldsClient(q, c); }
    if q.cs[c].pc == Acquiring && q.lock.Held? {
      a := HolderCan(q);
    } else if q.cs[c].pc == Releasing && HeldBy(q, c).once.Running? {
      ReachableReleasers(q);
      HandlerIsAhead(q, c);
      RunnerOf(q, q.cs[c].got.value);
      a := LeaveFinish(q.cs[c].got.value);
    } else {
      IncomingCan(q, c);
      a := IncomingMove(q, c);
    }
  }
}
