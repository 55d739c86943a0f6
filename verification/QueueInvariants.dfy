/** What every step of a listener's rendezvous keeps. */
module QueueInvariants {
  import opened Wrappers
  import opened Sequences
  import opened ListenerQueue

  predicate NotYetQueued(pc: HandlerPc) {
    pc in {Enqueuing, EnqueueBlocked, Finishing(Rejected), InFinish(Rejected)}
  }

  /** The queue and the clients handed out are, in order, some of the clients
      queued. */
  ghost predicate LogsOk(q: Queue) {
    && NoDup(q.enqLog)
    && Subseq(q.acqLog + q.waiting, q.enqLog)
    && |q.waiting| <= q.cap
    && (forall w :: w in q.enqLog ==> w in q.ws)
  }

  /** What the rest of the listener shows of one client. */
  datatype View = View(queued: bool, waiting: bool, taken: bool, quit: bool, step: nat)

  function ViewOf(q: Queue, w: Wid): View {
    View(w in q.enqLog, w in q.waiting, w in q.acqLog, q.quit, q.step)
  }

  /** One client and its handler. */
  predicate WaiterOk(r: Waiter, v: View) {
    // queueing: leaves the queue only when handed out or finished
    && (v.waiting || v.taken ==> v.queued) && !(v.waiting && v.taken)
    && (v.queued ==> !NotYetQueued(r.pc))
    && (NotYetQueued(r.pc) && !r.pc.InFinish? ==> r.once.Unused?)
    && (v.queued && !v.waiting && !v.taken ==> Done(r))
    && (r.acquired <==> v.taken)
    && (r.acquired <==> r.takenBy.Some?)
    // finish: the body runs once, whichever goroutines race for it
    && r.doneCloses == (if r.once.Finished? then 1 else 0)
    && r.transportCloses <= (if r.once.Unused? then 0 else 1)
    && (r.pc.InFinish? <==> r.once == Running(ByHandler))
    && (r.closedBy.Some? <==> r.transportCloses == 1)
    && (!r.once.Unused? && r.transportCloses == 0 ==> r.acquired)
    && (r.closedBy == Some(Shutdown) ==> v.quit)
    && (r.closedBy == Some(Rejected) ==> !v.queued)
    // where the handler can be
    && (r.pc in {Returned, PurgePending} ==> Done(r))
    && (r.pc in {Finishing(Shutdown), InFinish(Shutdown)} ==> v.quit)
    && (r.pc == AfterAcquire ==> r.acquired)
    && (Done(r) && v.waiting && !v.quit ==> r.pc == PurgePending)
    // the idle-timeout branch
    && (r.tested == SawAcquired ==> r.pc in {AfterAcquire, Finishing(Shutdown), InFinish(Shutdown), Returned})
    && (r.pc in {Finishing(IdleTimeout), InFinish(IdleTimeout), PurgePending} ==> r.tested == SawIdle)
    && (r.closedBy == Some(IdleTimeout) ==> r.tested == SawIdle)
    && (NotYetQueued(r.pc) || r.pc in {Queued, Selecting, TimerFired} ==> r.tested == Untested)
    && (r.tested == SawIdle ==> r.pc in {Finishing(IdleTimeout), InFinish(IdleTimeout), PurgePending, Returned})
    && (r.tested == SawIdle && r.pc == Returned ==> !v.waiting)
    // found alive only while alive
    && r.liveAt <= v.step && r.doneAt <= v.step
    && (Done(r) ==> r.liveAt < r.doneAt)
  }

  /** One incoming connection: in particular, the timed broadcast of a sleeping
      acquirer is still to come or came before its deadline. */
  predicate IncomingOk(r: Incoming, now: Time) {
    && (r.pc in {Handshaking, Arming, Acquiring, AcquireBlocked} ==> r.got.None?)
    && (r.pc in {Holding, Piping, Releasing, InRelease} ==> r.got.Some?)
    && (r.timer.Broadcasted? ==> r.timerStart + TEN_SECONDS <= r.timer.at <= now)
    && (r.timer != NoTimer ==> r.timerStart <= now)
    && (r.pc == Handshaking ==> r.timer.NoTimer?)
    && (r.pc in {Arming, Acquiring, AcquireBlocked} ==> !r.timer.NoTimer?)
    && (r.pc in {Acquiring, AcquireBlocked} ==> r.timerStart + TEN_SECONDS <= r.deadline)
    && (r.pc == AcquireBlocked && r.timer.Broadcasted? ==> r.timer.at < r.deadline)
  }

  /** A client handed out and the connection holding it point at each other, and
      the client was found alive inside the section that took it. */
  ghost predicate Linked(ws: map<Wid, Waiter>, cs: map<Cid, Incoming>) {
    && (forall w :: w in ws && ws[w].takenBy.Some? ==>
          ws[w].takenBy.value in cs && cs[ws[w].takenBy.value].got == Some(w))
    && (forall c :: c in cs && cs[c].got.Some? ==>
          && cs[c].got.value in ws
          && ws[cs[c].got.value].acquired
          && ws[cs[c].got.value].takenBy == Some(c)
          && cs[c].section.from <= ws[cs[c].got.value].liveAt <= cs[c].section.to
          && (cs[c].pc == InRelease ==> ws[cs[c].got.value].once == Running(ByIncoming(c))))
  }

  ghost predicate LinksOk(q: Queue) { Linked(q.ws, q.cs) }

  /** The goroutine inside queueMu is where it entered; each answer it got so far
      is backed by a closed `done` channel or by an entry alive since it entered. */
  ghost predicate LockOk(q: Queue) {
    q.lock.Held? ==>
      && |q.lock.obs| <= |q.waiting|
      && q.lock.since <= q.step
      && (match q.lock.task
          case EnqueueTask(w) => HandlerAt(q, w, Enqueuing)
          case AcquireTask(c) => IncomingAt(q, c, Acquiring)
          case PurgeTask(w) => HandlerAt(q, w, PurgePending))
      && (forall i :: 0 <= i < |q.lock.obs| && q.waiting[i] in q.ws ==>
            if q.lock.obs[i] then Done(q.ws[q.waiting[i]]) else q.lock.since <= q.ws[q.waiting[i]].liveAt)
      && (q.lock.task.PurgeTask? ==>
            forall i :: 0 <= i < |q.lock.obs| && q.waiting[i] == q.lock.task.w ==> q.lock.obs[i])
  }

  /** No lost wakeup. */
  ghost predicate WakeupsOk(q: Queue) {
    && (forall c :: c in q.cs && q.cs[c].pc == AcquireBlocked ==> q.waiting == [] && !q.quit)
    && (forall w :: w in q.ws && q.ws[w].pc == EnqueueBlocked ==> |q.waiting| == q.cap && !q.quit)
  }

  ghost predicate WaitersOk(ws: map<Wid, Waiter>, enqLog: seq<Wid>, waiting: seq<Wid>, acqLog: seq<Wid>,
                            quit: bool, step: nat) {
    forall w :: w in ws ==> WaiterOk(ws[w], View(w in enqLog, w in waiting, w in acqLog, quit, step))
  }

  ghost predicate IncomingsOk(cs: map<Cid, Incoming>, now: Time) {
    forall c :: c in cs ==> IncomingOk(cs[c], now)
  }

  ghost predicate Core(q: Queue) {
    && LogsOk(q)
    && WaitersOk(q.ws, q.enqLog, q.waiting, q.acqLog, q.quit, q.step)
    && IncomingsOk(q.cs, q.now)
    && LinksOk(q)
    && LockOk(q)
  }

  ghost predicate Inv(q: Queue) { Core(q) && WakeupsOk(q) }

  lemma InitialInv(cap: nat, idleTimeoutOn: bool, now: Time)
    ensures Inv(Initial(cap, idleTimeoutOn, now))
  {
  }

  /** Nobody is queued twice, or both queued and handed out. */
  lemma LogsApart(q: Queue)
    requires LogsOk(q)
    ensures NoDup(q.acqLog) && NoDup(q.waiting)
    ensures forall w :: w in q.waiting ==> w in q.ws && w in q.enqLog && w !in q.acqLog
    ensures forall w :: w in q.acqLog ==> w in q.ws && w in q.enqLog
  {
    SubseqNoDup(q.acqLog + q.waiting, q.enqLog);
    SubseqMembers(q.acqLog + q.waiting, q.enqLog);
    NoDupSplit(q.acqLog, q.waiting);
    forall w | w in q.waiting ensures w in q.enqLog { assert w in q.acqLog + q.waiting; }
    forall w | w in q.acqLog ensures w in q.enqLog { assert w in q.acqLog + q.waiting; }
  }

  lemma AdvanceInv(q: Queue, t: Time)
    requires Inv(q) && q.now <= t
    ensures Inv(Advance(q, t))
  {
    var q' := Advance(q, t);
    forall w | w in q'.ws ensures WaiterOk(q'.ws[w], ViewOf(q', w)) {
      assert WaiterOk(q.ws[w], ViewOf(q, w));
    }
  }

  /** `r` may replace `o`: nobody else's promises about the client are broken. */
  predicate Replaces(r: Waiter, o: Waiter) {
    && r.acquired == o.acquired && r.takenBy == o.takenBy && o.liveAt <= r.liveAt
    && (o.takenBy.Some? ==> r.liveAt == o.liveAt)
    && (Done(o) ==> Done(r))
  }

  /** Neither the holder of queueMu nor a connection inside `finish` is upset. */
  predicate Undisturbed(q: Queue, w: Wid, r: Waiter)
    requires w in q.ws
  {
    var o := q.ws[w];
    && (q.lock.Held? && o.pc in {Enqueuing, PurgePending} ==> r.pc == o.pc)
    && (o.takenBy.Some? && IncomingAt(q, o.takenBy.value, InRelease) ==> r.once == o.once)
  }

  lemma SetHandlerLinks(q: Queue, w: Wid, r: Waiter)
    requires LinksOk(q) && w in q.ws && Replaces(r, q.ws[w]) && Undisturbed(q, w, r)
    ensures LinksOk(SetHandler(q, w, r))
  {
  }

  lemma SetHandlerLock(q: Queue, w: Wid, r: Waiter)
    requires LockOk(q) && w in q.ws && Replaces(r, q.ws[w]) && Undisturbed(q, w, r)
    ensures LockOk(SetHandler(q, w, r))
  {
  }

  lemma SetHandlerWaiters(q: Queue, w: Wid, r: Waiter)
    requires forall x :: x in q.ws ==> WaiterOk(q.ws[x], ViewOf(q, x))
    requires WaiterOk(r, ViewOf(q, w))
    ensures var q' := SetHandler(q, w, r); forall x :: x in q'.ws ==> WaiterOk(q'.ws[x], ViewOf(q', x))
  {
    var q' := SetHandler(q, w, r);
    forall x | x in q'.ws ensures WaiterOk(q'.ws[x], ViewOf(q', x)) {
      assert ViewOf(q', x) == ViewOf(q, x);
    }
  }

  /** Updating one client keeps everything, when the new record is consistent. */
  lemma SetHandlerInv(q: Queue, w: Wid, r: Waiter, q': Queue)
    requires q' == SetHandler(q, w, r)
    requires Inv(q) && w in q.ws && WaiterOk(r, ViewOf(q, w)) && Replaces(r, q.ws[w]) && Undisturbed(q, w, r)
    requires r.pc == EnqueueBlocked ==> |q.waiting| == q.cap && !q.quit
    ensures Inv(q')
  {
    SetHandlerLinks(q, w, r);
    SetHandlerLock(q, w, r);
    SetHandlerWaiters(q, w, r);
  }

  lemma SetIncomingLinks(q: Queue, c: Cid, r: Incoming)
    requires LinksOk(q) && c in q.cs && q.cs[c].got == r.got && q.cs[c].section == r.section
    requires r.pc == InRelease ==> HasClient(q, c) && HeldBy(q, c).once == Running(ByIncoming(c))
    ensures LinksOk(SetIncoming(q, c, r))
  {
  }

  lemma SetIncomingInv(q: Queue, c: Cid, r: Incoming, q': Queue)
    requires q' == SetIncoming(q, c, r)
    requires Inv(q) && c in q.cs && IncomingOk(r, q.now)
    requires q.cs[c].got == r.got && q.cs[c].section == r.section
    requires r.pc == InRelease ==> HasClient(q, c) && HeldBy(q, c).once == Running(ByIncoming(c))
    requires r.pc == AcquireBlocked ==> q.waiting == [] && !q.quit
    requires q.lock.Held? && q.cs[c].pc == Acquiring ==> r.pc == Acquiring
    ensures Inv(q')
  {
    SetIncomingLinks(q, c, r);
  }

  function Awake(r: Waiter): Waiter { if r.pc == EnqueueBlocked then r.(pc := Enqueuing) else r }

  lemma AwakeOk(r: Waiter, v: View)
    requires WaiterOk(r, v)
    ensures WaiterOk(Awake(r), v)
  {
  }

  lemma BroadcastLinks(q: Queue)
    requires LinksOk(q)
    ensures LinksOk(Broadcast(q))
  {
  }

  lemma BroadcastLock(q: Queue)
    requires LockOk(q)
    ensures LockOk(Broadcast(q))
  {
  }

  /** A broadcast repairs whatever a section did to the sleepers' condition. */
  lemma BroadcastInv(q: Queue, q': Queue)
    requires Core(q) && q' == Broadcast(q)
    ensures Inv(q')
  {
    forall x | x in q'.ws ensures WaiterOk(q'.ws[x], ViewOf(q', x)) {
      assert ViewOf(q', x) == ViewOf(q, x);
      assert q'.ws[x] == Awake(q.ws[x]);
      AwakeOk(q.ws[x], ViewOf(q, x));
    }
    BroadcastLinks(q);
    BroadcastLock(q);
  }

  /** The select statements and the acquisition test move a handler on. */
  predicate SelectMoves(r: Waiter, r': Waiter, quit: bool) {
    || (r.pc == Queued && r' == r.(pc := Selecting))
    || (r.pc in {Selecting, AfterAcquire} && Done(r) && r' == r.(pc := Returned))
    || (r.pc in {Selecting, AfterAcquire} && quit && r' == r.(pc := Finishing(Shutdown)))
    || (r.pc == Selecting && r.acquired && r' == r.(pc := AfterAcquire))
    || (r.pc == Selecting && r' == r.(pc := TimerFired))
    || (r.pc == TimerFired && r.acquired && r' == r.(pc := AfterAcquire, tested := SawAcquired))
    || (r.pc == TimerFired && !r.acquired && r' == r.(pc := Finishing(IdleTimeout), tested := SawIdle))
  }

  lemma SelectRecord(r: Waiter, r': Waiter, v: View)
    requires WaiterOk(r, v) && SelectMoves(r, r', v.quit)
    ensures WaiterOk(r', v) && Replaces(r', r) && r'.pc != EnqueueBlocked && r'.once == r.once
  {
  }

  lemma SelectMove(q: Queue, a: Action, w: Wid)
    requires Inv(q) && Enabled(q, a)
    requires a in {TouchedByClient(w), SelectDone(w), SelectQuit(w), SelectAcquired(w), SelectTimer(w), TestAcquired(w)}
    ensures Inv(Do(q, a))
  {
    var r := Do(q, a).ws[w];
    SelectRecord(q.ws[w], r, ViewOf(q, w));
    SetHandlerInv(q, w, r, Do(q, a));
  }

  /** The three ways through `finish`, at step `v.step`. */
  predicate FinishMoves(r: Waiter, r': Waiter, step: nat) {
    || (r.pc.Finishing? && r.once.Unused? &&
        r' == r.(pc := InFinish(r.pc.why), once := Running(ByHandler),
                 transportCloses := r.transportCloses + 1, closedBy := Some(r.pc.why)))
    || (r.pc.InFinish? &&
        r' == r.(pc := AfterFinish(r.pc.why), once := Finished, doneCloses := r.doneCloses + 1, doneAt := step))
    || (r.pc.Finishing? && r.once.Finished? && r' == r.(pc := AfterFinish(r.pc.why)))
  }

  lemma FinishRecord(r: Waiter, r': Waiter, v: View)
    requires WaiterOk(r, v) && FinishMoves(r, r', v.step) && r.liveAt < v.step
    ensures WaiterOk(r', v) && Replaces(r', r) && r'.pc != EnqueueBlocked && r.pc !in {Enqueuing, PurgePending}
    ensures forall c :: r.once == Running(ByIncoming(c)) ==> r'.once == r.once
  {
  }

  lemma FinishIs(q: Queue, a: Action, w: Wid)
    requires Enabled(q, a) && w in q.ws && a in {EnterFinish(w), LeaveFinish(w), SkipFinish(w)}
    ensures w in Do(q, a).ws && FinishMoves(q.ws[w], Do(q, a).ws[w], q.step)
    ensures Do(q, a) == SetHandler(q, w, Do(q, a).ws[w])
  {
  }

  lemma FinishMove(q: Queue, a: Action, w: Wid)
    requires Inv(q) && Enabled(q, a) && w in q.ws && q.ws[w].liveAt < q.step
    requires a in {EnterFinish(w), LeaveFinish(w), SkipFinish(w)}
    ensures Inv(Do(q, a))
  {
    FinishIs(q, a, w);
    var r := Do(q, a).ws[w];
    assert WaiterOk(q.ws[w], ViewOf(q, w));
    FinishRecord(q.ws[w], r, ViewOf(q, w));
    SetHandlerInv(q, w, r, Do(q, a));
  }

  lemma IncomingMove(q: Queue, a: Action, c: Cid)
    requires Inv(q) && Enabled(q, a)
    requires a in {HandshakeFails(c), ArmTimer(c), SetDeadline(c), TouchedByIncoming(c), PipeEnds(c), End(c), SkipRelease(c)}
    ensures Inv(Do(q, a))
  {
    assert IncomingOk(q.cs[c], q.now);
    SetIncomingInv(q, c, Do(q, a).cs[c], Do(q, a));
  }

  lemma EnterReleaseInv(q: Queue, c: Cid)
    requires Inv(q) && Enabled(q, EnterRelease(c))
    ensures Inv(Do(q, EnterRelease(c)))
  {
    var w := q.cs[c].got.value;
    var r := q.ws[w].(once := Running(ByIncoming(c)));
    assert WaiterOk(q.ws[w], ViewOf(q, w));
    SetHandlerInv(q, w, r, SetHandler(q, w, r));
    assert IncomingOk(q.cs[c], q.now);
    SetIncomingInv(SetHandler(q, w, r), c, q.cs[c].(pc := InRelease), Do(q, EnterRelease(c)));
  }

  lemma ReleasedOk(r: Waiter, v: View, c: Cid)
    requires WaiterOk(r, v) && r.once == Running(ByIncoming(c)) && !v.waiting && r.liveAt < v.step
    ensures WaiterOk(r.(once := Finished, doneCloses := r.doneCloses + 1, doneAt := v.step), v)
  {
  }

  /** A client being released is no longer queued. */
  lemma ReleasedIsOut(q: Queue, c: Cid)
    requires LogsOk(q) && LinksOk(q) && Enabled(q, LeaveRelease(c)) && IncomingOk(q.cs[c], q.now)
    requires WaiterOk(HeldBy(q, c), ViewOf(q, q.cs[c].got.value))
    ensures q.cs[c].got.value !in q.waiting && HeldBy(q, c).once == Running(ByIncoming(c))
  {
    LogsApart(q);
  }

  /** A connection moves on and the client with it. */
  lemma SetBothInv(q: Queue, w: Wid, r: Waiter, c: Cid, ri: Incoming, q': Queue)
    requires q' == SetIncoming(SetHandler(q, w, r), c, ri)
    requires Inv(q) && w in q.ws && WaiterOk(r, ViewOf(q, w)) && Replaces(r, q.ws[w]) && r.pc != EnqueueBlocked
    requires q.lock.Held? && q.ws[w].pc in {Enqueuing, PurgePending} ==> r.pc == q.ws[w].pc
    requires c in q.cs && q.ws[w].takenBy == Some(c) && q.cs[c].pc != Acquiring && IncomingOk(ri, q.now)
    requires q.cs[c].got == ri.got && q.cs[c].section == ri.section && ri.pc == Ending
    ensures Inv(q')
  {
    var q1 := SetIncoming(q, c, ri);
    SetIncomingInv(q, c, ri, q1);
    assert ViewOf(q1, w) == ViewOf(q, w) && Undisturbed(q1, w, r);
    SetHandlerInv(q1, w, r, q');
  }

  function Released(o: Waiter, step: nat): Waiter {
    o.(once := Finished, doneCloses := o.doneCloses + 1, doneAt := step)
  }

  lemma ReleasedRecord(q: Queue, c: Cid, w: Wid)
    requires LogsOk(q) && LinksOk(q) && Enabled(q, LeaveRelease(c)) && w == q.cs[c].got.value
    requires WaiterOk(q.ws[w], ViewOf(q, w)) && IncomingOk(q.cs[c], q.now) && q.ws[w].liveAt < q.step
    ensures WaiterOk(Released(q.ws[w], q.step), ViewOf(q, w)) && Replaces(Released(q.ws[w], q.step), q.ws[w])
    ensures Released(q.ws[w], q.step).pc == q.ws[w].pc && q.ws[w].takenBy == Some(c)
    ensures IncomingOk(q.cs[c].(pc := Ending), q.now)
  {
    ReleasedIsOut(q, c);
    ReleasedOk(q.ws[w], ViewOf(q, w), c);
  }

  lemma LeaveReleaseInv(q: Queue, c: Cid)
    requires Inv(q) && Enabled(q, LeaveRelease(c)) && HeldBy(q, c).liveAt < q.step
    ensures Inv(Do(q, LeaveRelease(c)))
  {
    var w, q' := q.cs[c].got.value, Do(q, LeaveRelease(c));
    assert WaiterOk(q.ws[w], ViewOf(q, w)) && IncomingOk(q.cs[c], q.now);
    assert q.ws[w].pc != EnqueueBlocked;
    ReleasedRecord(q, c, w);
    assert q' == SetIncoming(SetHandler(q, w, Released(q.ws[w], q.step)), c, q.cs[c].(pc := Ending));
    SetBothInv(q, w, Released(q.ws[w], q.step), c, q.cs[c].(pc := Ending), q');
  }

  lemma ArriveLinks(q: Queue, w: Wid)
    requires LinksOk(q) && w !in q.ws
    ensures LinksOk(SetHandler(q, w, FreshWaiter))
  {
  }

  lemma ArriveLock(q: Queue, w: Wid)
    requires LogsOk(q) && LockOk(q) && w !in q.ws
    ensures LogsOk(SetHandler(q, w, FreshWaiter)) && LockOk(SetHandler(q, w, FreshWaiter))
  {
    LogsApart(q);
  }

  lemma ArriveInv(q: Queue, w: Wid)
    requires Inv(q) && w !in q.ws
    ensures Inv(SetHandler(q, w, FreshWaiter))
  {
    assert WaiterOk(FreshWaiter, ViewOf(q, w)) by { LogsApart(q); }
    SetHandlerWaiters(q, w, FreshWaiter);
    ArriveLinks(q, w);
    ArriveLock(q, w);
  }

  lemma BeginParts(cs: map<Cid, Incoming>, ws: map<Wid, Waiter>, c: Cid, now: Time)
    requires c !in cs && Linked(ws, cs) && IncomingsOk(cs, now)
    ensures Linked(ws, cs[c := FreshIncoming]) && IncomingsOk(cs[c := FreshIncoming], now)
  {
  }

  lemma BeginInv(q: Queue, c: Cid)
    requires Inv(q) && c !in q.cs
    ensures Inv(SetIncoming(q, c, FreshIncoming))
  {
    BeginParts(q.cs, q.ws, c, q.now);
  }

  /** Changing only who is inside queueMu. */
  lemma SetLockInv(q: Queue, lock: Lock, q': Queue)
    requires Inv(q) && q' == q.(lock := lock) && LockOk(q')
    ensures Inv(q')
  {
  }

  lemma QuitInv(q: Queue)
    requires Inv(q)
    ensures Inv(Broadcast(q.(quit := true)))
  {
    var q' := q.(quit := true);
    forall x | x in q'.ws ensures WaiterOk(q'.ws[x], ViewOf(q', x)) {
      assert WaiterOk(q.ws[x], ViewOf(q, x));
    }
    BroadcastInv(q', Broadcast(q'));
  }

  lemma TimedBroadcastInv(q: Queue, c: Cid)
    requires Inv(q) && Enabled(q, TimedBroadcast(c))
    ensures Inv(Do(q, TimedBroadcast(c)))
  {
    var q' := Broadcast(q);
    BroadcastInv(q, q');
    assert IncomingOk(q'.cs[c], q'.now);
    SetIncomingInv(q', c, q'.cs[c].(timer := Broadcasted(q.now)), Do(q, TimedBroadcast(c)));
  }

  lemma ObservedLock(q: Queue, gone: bool)
    requires LogsOk(q) && LockOk(q) && q.lock.Held? && |q.lock.obs| < |q.waiting|
    requires var w := q.waiting[|q.lock.obs|];
      && w in q.ws && (gone ==> Done(q.ws[w])) && (!gone ==> q.ws[w].liveAt == q.step)
      && (q.lock.task == PurgeTask(w) ==> gone)
    ensures LockOk(q.(lock := q.lock.(obs := q.lock.obs + [gone])))
  {
  }

  /** The entry about to be tested, found alive, is marked so. */
  lemma AliveInv(q: Queue, w: Wid)
    requires Inv(q) && w in q.ws && w in q.waiting && !Done(q.ws[w])
    ensures Inv(SetHandler(q, w, q.ws[w].(liveAt := q.step)))
  {
    var r := q.ws[w].(liveAt := q.step);
    assert WaiterOk(q.ws[w], ViewOf(q, w));
    assert WaiterOk(r, ViewOf(q, w));
    SetHandlerInv(q, w, r, SetHandler(q, w, r));
  }

  lemma OwnEntryIsGone(q: Queue)
    requires Inv(q) && Enabled(q, Observe)
    ensures
      var w := q.waiting[|q.lock.obs|];
      q.lock.task == PurgeTask(w) ==> Done(q.ws[w])
  {
    var w := q.waiting[|q.lock.obs|];
    assert WaiterOk(q.ws[w], ViewOf(q, w));
  }

  lemma ObserveInv(q: Queue)
    requires Inv(q) && Enabled(q, Observe)
    ensures Inv(Do(q, Observe))
  {
    var w := q.waiting[|q.lock.obs|];
    var gone := Done(q.ws[w]);
    var q1 := if gone then q else SetHandler(q, w, q.ws[w].(liveAt := q.step));
    if !gone { AliveInv(q, w); }
    OwnEntryIsGone(q);
    ObservedLock(q1, gone);
    SetLockInv(q1, q.lock.(obs := q.lock.obs + [gone]), Do(q, Observe));
  }
}
