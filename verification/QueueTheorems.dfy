/** What holds of a listener in every reachable state, and across runs. */
module QueueTheorems {
  import opened Wrappers
  import opened Sequences
  import opened QueueSections
  import opened ListenerQueue
  import opened QueueInvariants
  import opened QueueSteps

  datatype Event = Event(a: Action, t: Time)

  predicate Steps(q: Queue, e: Event, q': Queue) {
    CanStep(q, e.a, e.t) && q' == Next(q, e.a, e.t)
  }

  ghost predicate Trace(qs: seq<Queue>, es: seq<Event>) {
    |qs| == |es| + 1 && forall i {:trigger es[i]} :: 0 <= i < |es| ==> Steps(qs[i], es[i], qs[i + 1])
  }

  /** The steps `es` lead from `q0` to `q`. */
  ghost predicate Run(q0: Queue, es: seq<Event>, q: Queue) {
    exists qs :: Trace(qs, es) && qs[0] == q0 && qs[|es|] == q
  }

  /** Some run of a listener with some queue bound ends in `q`. */
  ghost predicate Reachable(q: Queue) {
    exists cap, idleTimeoutOn, t0, es :: Run(Initial(cap, idleTimeoutOn, t0), es, q)
  }

  lemma StepAt(qs: seq<Queue>, es: seq<Event>, i: nat)
    requires Trace(qs, es) && i < |es| && Inv(qs[i])
    ensures Inv(qs[i + 1])
  {
    assert Steps(qs[i], es[i], qs[i + 1]);
    StepInv(qs[i], es[i].a, es[i].t);
  }

  lemma {:induction false} TraceKeepsInv(qs: seq<Queue>, es: seq<Event>, k: nat)
    requires Trace(qs, es) && Inv(qs[0]) && k <= |es|
    ensures Inv(qs[k])
  {
    if k > 0 {
      TraceKeepsInv(qs, es, k - 1);
      StepAt(qs, es, k - 1);
    }
  }

  lemma RunKeepsInv(q0: Queue, es: seq<Event>, q: Queue)
    requires Inv(q0) && Run(q0, es, q)
    ensures Inv(q)
  {
    var qs :| Trace(qs, es) && qs[0] == q0 && qs[|es|] == q;
    TraceKeepsInv(qs, es, |es|);
  }

  lemma ReachableInv(q: Queue)
    requires Reachable(q)
    ensures Inv(q)
  {
    var cap, idle, t0, es :| Run(Initial(cap, idle, t0), es, q);
    InitialInv(cap, idle, t0);
    RunKeepsInv(Initial(cap, idle, t0), es, q);
  }

  lemma RunStep(q0: Queue, es: seq<Event>, m: Queue, a: Action, t: Time)
    requires Run(q0, es, m) && CanStep(m, a, t)
    ensures Run(q0, es + [Event(a, t)], Next(m, a, t))
  {
    var qs :| Trace(qs, es) && qs[0] == q0 && qs[|es|] == m;
    assert Trace(qs + [Next(m, a, t)], es + [Event(a, t)]);
  }

  lemma ReachableStep(q: Queue, a: Action, t: Time)
    requires Reachable(q) && CanStep(q, a, t)
    ensures Reachable(Next(q, a, t))
  {
    var cap, idle, t0, es :| Run(Initial(cap, idle, t0), es, q);
    RunStep(Initial(cap, idle, t0), es, q, a, t);
  }

  lemma InitialReachable(cap: nat, idleTimeoutOn: bool, t0: Time)
    ensures Reachable(Initial(cap, idleTimeoutOn, t0))
  {
    var q := Initial(cap, idleTimeoutOn, t0);
    assert Trace([q], []) && [q][0] == q;
    assert Run(q, [], q);
  }

  /** No lost wakeup.  A sleeping acquirer means an empty queue, a sleeping
      enqueuer a full one, neither sleeps after `quit`, so with room for one
      client the two kinds never sleep together; and a finished client still
      queued on a live listener has its handler's purge still to come. */
  lemma NoLostWakeup(q: Queue)
    requires Reachable(q)
    ensures forall c :: IncomingAt(q, c, AcquireBlocked) ==> q.waiting == [] && !q.quit
    ensures forall w :: HandlerAt(q, w, EnqueueBlocked) ==> |q.waiting| == q.cap && !q.quit
    ensures q.cap >= 1 ==>
      !((exists c :: IncomingAt(q, c, AcquireBlocked)) && (exists w :: HandlerAt(q, w, EnqueueBlocked)))
    ensures forall w :: w in q.waiting && !q.quit ==> w in q.ws && (Done(q.ws[w]) ==> q.ws[w].pc == PurgePending)
  {
    ReachableInv(q);
    LogsApart(q);
    forall w | w in q.waiting && !q.quit
      ensures w in q.ws && (Done(q.ws[w]) ==> q.ws[w].pc == PurgePending)
    {
      assert WaiterOk(q.ws[w], ViewOf(q, w));
    }
  }

  predicate ExactlyOne(a: bool, b: bool, c: bool, d: bool) {
    (if a then 1 else 0) + (if b then 1 else 0) + (if c then 1 else 0) + (if d then 1 else 0) == 1
  }

  ghost predicate TakenBySomeone(q: Queue, w: Wid) { exists c :: c in q.cs && q.cs[c].got == Some(w) }

  /** Ownership: each client is not yet queued, queued at one place, handed to
      one incoming connection, or removed because finished; no client is ever
      handed to two connections; and the queue stays within its bound. */
  lemma OwnershipPartition(q: Queue, w: Wid)
    requires Reachable(q) && w in q.ws
    ensures ExactlyOne(w !in q.enqLog, w in q.waiting, TakenBySomeone(q, w),
                       w in q.enqLog && w !in q.waiting && w !in q.acqLog)
    ensures TakenBySomeone(q, w) <==> q.ws[w].acquired
    ensures w in q.enqLog && w !in q.waiting && w !in q.acqLog ==> Done(q.ws[w])
    ensures forall c, c' :: c in q.cs && c' in q.cs && q.cs[c].got == Some(w) && q.cs[c'].got == Some(w) ==> c == c'
    ensures NoDup(q.waiting) && |q.waiting| <= q.cap
  {
    ReachableInv(q);
    LogsApart(q);
    assert WaiterOk(q.ws[w], ViewOf(q, w));
  }

  /** First in, first out: clients are handed out in the order they were queued,
      and each was found unfinished by an entry test between the beginning and
      the end of the section that handed it out. */
  lemma FirstInFirstOut(q: Queue)
    requires Reachable(q)
    ensures Subseq(q.acqLog + q.waiting, q.enqLog) && Subseq(q.acqLog, q.enqLog) && NoDup(q.enqLog)
    ensures forall c :: c in q.cs && q.cs[c].got.Some? ==>
      && HasClient(q, c)
      && q.cs[c].section.from <= HeldBy(q, c).liveAt <= q.cs[c].section.to
      && (Done(HeldBy(q, c)) ==> HeldBy(q, c).liveAt < HeldBy(q, c).doneAt)
  {
    ReachableInv(q);
    SubseqOfExtension(q.acqLog, q.waiting);
    SubseqTrans(q.acqLog, q.acqLog + q.waiting, q.enqLog);
    forall c | c in q.cs && q.cs[c].got.Some?
      ensures HasClient(q, c) && (Done(HeldBy(q, c)) ==> HeldBy(q, c).liveAt < HeldBy(q, c).doneAt)
    {
      assert WaiterOk(q.ws[q.cs[c].got.value], ViewOf(q, q.cs[c].got.value));
    }
  }

  /** `done` and the transport are each closed at most once however completion,
      shutdown and timeout race; a handler returns only with `done` closed, and
      with the transport closed unless the client was handed out; and the timeout
      branch never closes a client it saw acquired. */
  lemma FinishedOnce(q: Queue, w: Wid)
    requires Reachable(q) && w in q.ws
    ensures q.ws[w].doneCloses <= 1 && q.ws[w].transportCloses <= 1
    ensures q.ws[w].pc == Returned ==> q.ws[w].doneCloses == 1
    ensures q.ws[w].pc == Returned && !q.ws[w].acquired ==> q.ws[w].transportCloses == 1
    ensures q.ws[w].tested == SawAcquired ==> q.ws[w].closedBy != Some(IdleTimeout)
    ensures q.ws[w].closedBy == Some(Shutdown) ==> q.quit
    ensures q.ws[w].closedBy == Some(Rejected) ==> w !in q.enqLog
  {
    ReachableInv(q);
    assert WaiterOk(q.ws[w], ViewOf(q, w));
  }

  lemma StepTo(q: Queue, a: Action, t: Time, q': Queue)
    requires Reachable(q) && CanStep(q, a, t) && Next(q, a, t) == q'
    ensures Reachable(q')
  {
    ReachableStep(q, a, t);
  }

  /** A listener with room for one client and nothing but the given goroutines. */
  function Small(waiting: seq<Wid>, lock: Lock, now: Time, step: nat, ws: map<Wid, Waiter>, cs: map<Cid, Incoming>,
                 enqLog: seq<Wid>, acqLog: seq<Wid>): Queue
  {
    Queue(1, true, waiting, false, lock, now, step, ws, cs, enqLog, acqLog)
  }

  lemma Start()
    ensures Reachable(Small([], Free, 0, 1, map[], map[], [], []))
  {
    InitialReachable(1, true, 0);
  }

  /** An incoming connection begins and arms its timer ... */
  lemma StartsTimer(waiting: seq<Wid>, step: nat, ws: map<Wid, Waiter>, enqLog: seq<Wid>)
    requires Reachable(Small(waiting, Free, 0, step, ws, map[], enqLog, []))
    ensures Reachable(Small(waiting, Free, 0, step + 2, ws,
                            map[0 := FreshIncoming.(pc := Arming, timer := Armed)], enqLog, []))
  {
    var q0 := Small(waiting, Free, 0, step, ws, map[], enqLog, []);
    var c1, c2 := FreshIncoming, FreshIncoming.(pc := Arming, timer := Armed);
    var q1 := Small(waiting, Free, 0, step + 1, ws, map[0 := c1], enqLog, []);
    StepTo(q0, Begin(0), 0, q1);
    assert map[0 := c1][0 := c2] == map[0 := c2];
    StepTo(q1, ArmTimer(0), 0, Small(waiting, Free, 0, step + 2, ws, map[0 := c2], enqLog, []));
  }

  /** ... and reads the clock `lag` later. */
  lemma ArmsTimer(waiting: seq<Wid>, step: nat, ws: map<Wid, Waiter>, enqLog: seq<Wid>, lag: Time)
    requires Reachable(Small(waiting, Free, 0, step, ws, map[], enqLog, [])) && lag >= 0
    ensures Reachable(Small(waiting, Free, lag, step + 3, ws,
                            map[0 := Incoming(Acquiring, None, Armed, 0, lag + TEN_SECONDS, NO_SECTION)], enqLog, []))
  {
    StartsTimer(waiting, step, ws, enqLog);
    var c2 := FreshIncoming.(pc := Arming, timer := Armed);
    var c3 := Incoming(Acquiring, None, Armed, 0, lag + TEN_SECONDS, NO_SECTION);
    assert map[0 := c2][0 := c3] == map[0 := c3];
    StepTo(Small(waiting, Free, 0, step + 2, ws, map[0 := c2], enqLog, []), SetDeadline(0), lag,
           Small(waiting, Free, lag, step + 3, ws, map[0 := c3], enqLog, []));
  }

  /** How much later than its timer an acquirer computed its deadline. */
  function Lag(r: Incoming): Time { r.deadline - TEN_SECONDS - r.timerStart }

  /** The promised ten-second bound needs the timed broadcast of a sleeping
      acquirer to be still to come. */
  ghost predicate BroadcastStillDue(lag: Time) {
    forall q, c :: Reachable(q) && IncomingAt(q, c, AcquireBlocked) && Lag(q.cs[c]) == lag ==> q.cs[c].timer.Armed?
  }

  /** An acquirer finds the queue empty before its deadline and goes to sleep. */
  lemma FallsAsleep(now: Time, step: nat, timer: Timer, deadline: Time)
    requires now < deadline && !timer.NoTimer?
    requires Reachable(Small([], Free, now, step, map[], map[0 := Incoming(Acquiring, None, timer, 0, deadline, NO_SECTION)], [], []))
    ensures Reachable(Small([], Free, now, step + 2, map[], map[0 := Incoming(AcquireBlocked, None, timer, 0, deadline, NO_SECTION)], [], []))
  {
    var c := Incoming(Acquiring, None, timer, 0, deadline, NO_SECTION);
    var q1 := Small([], Free, now, step, map[], map[0 := c], [], []);
    var q2 := Small([], Held(AcquireTask(0), [], step + 1), now, step + 1, map[], map[0 := c], [], []);
    StepTo(q1, LockAcquire(0), now, q2);
    assert map[0 := c][0 := c.(pc := AcquireBlocked)] == map[0 := c.(pc := AcquireBlocked)];
    StepTo(q2, CommitAcquire, now, Small([], Free, now, step + 2, map[], map[0 := c.(pc := AcquireBlocked)], [], []));
  }

  /** Its timed broadcast comes before the deadline and is spent. */
  lemma WokenEarly(lag: Time, fire: Time)
    requires lag > 0 && lag <= fire && TEN_SECONDS <= fire
    ensures Reachable(Small([], Free, fire, 7, map[], map[0 := Incoming(Acquiring, None, Broadcasted(fire), 0, lag + TEN_SECONDS, NO_SECTION)], [], []))
  {
    var c := Incoming(AcquireBlocked, None, Armed, 0, lag + TEN_SECONDS, NO_SECTION);
    var c3 := c.(pc := Acquiring, timer := Broadcasted(fire));
    var q2 := Small([], Free, lag, 6, map[], map[0 := c], [], []);
    assert Broadcast(Advance(q2, fire)) == Small([], Free, fire, 7, map[], map[0 := c.(pc := Acquiring)], [], []);
    assert map[0 := c.(pc := Acquiring)][0 := c3] == map[0 := c3];
    Start();
    ArmsTimer([], 1, map[], [], lag);
    FallsAsleep(lag, 4, Armed, lag + TEN_SECONDS);
    StepTo(q2, TimedBroadcast(0), fire, Small([], Free, fire, 7, map[], map[0 := c3], [], []));
  }

  /** An acquirer that read the clock late sleeps on with its only timed
      broadcast already spent, for as long as one likes. */
  lemma SleepsPastDeadline(lag: Time, late: Time) returns (q: Queue)
    requires lag > 0 && late >= lag + TEN_SECONDS
    ensures Reachable(q) && IncomingAt(q, 0, AcquireBlocked) && Lag(q.cs[0]) == lag
    ensures q.cs[0].timer.Broadcasted? && q.now == late && q.cs[0].deadline <= q.now
  {
    var fire := if lag < TEN_SECONDS then TEN_SECONDS else lag;
    WokenEarly(lag, fire);
    FallsAsleep(fire, 7, Broadcasted(fire), lag + TEN_SECONDS);
    var c := Incoming(AcquireBlocked, None, Broadcasted(fire), 0, lag + TEN_SECONDS, NO_SECTION);
    var q5 := Small([], Free, fire, 9, map[], map[0 := c], [], []);
    q := Next(q5, Begin(1), late);
    StepTo(q5, Begin(1), late, q);
  }

  /** The broadcast of a sleeping acquirer is always still due if and only if
      timer and deadline come from the same clock reading. */
  lemma DeadlineExact(lag: Time)
    requires lag >= 0
    ensures BroadcastStillDue(lag) <==> lag == 0
  {
    if lag == 0 {
      forall q, c | Reachable(q) && IncomingAt(q, c, AcquireBlocked) && Lag(q.cs[c]) == lag
        ensures q.cs[c].timer.Armed?
      {
        ReachableInv(q);
        assert IncomingOk(q.cs[c], q.now);
      }
    } else {
      var q := SleepsPastDeadline(lag, lag + TEN_SECONDS);
    }
  }

  /** In every reachable state the lag is not negative, and a broadcast that came
      while its acquirer sleeps on came before the deadline. */
  lemma DeadlineAfterTimer(q: Queue, c: Cid)
    requires Reachable(q) && IncomingAt(q, c, AcquireBlocked)
    ensures Lag(q.cs[c]) >= 0
    ensures q.cs[c].timer.Armed? || (q.cs[c].timer.Broadcasted? && q.cs[c].timer.at < q.cs[c].deadline)
    ensures q.cs[c].timer.Broadcasted? ==> q.cs[c].timerStart + 10_000_000_000 <= q.cs[c].timer.at
    ensures q.cs[c].timerStart + 10_000_000_000 <= q.cs[c].deadline
  {
    ReachableInv(q);
    assert IncomingOk(q.cs[c], q.now);
  }

  /** The sections of the transition system are the sections the listener's
      methods compute: same queue, same outcome, and a section that broadcasts
      leaves nobody asleep but itself. */
  lemma EnqueueSectionIsStep(q: Queue)
    requires Enabled(q, CommitEnqueue)
    ensures var w, q' := q.lock.task.w, DoCommitEnqueue(q);
      var r := EnqueueSection(q.waiting, q.cap, q.quit, q.lock.obs, w);
      && q'.waiting == r.waiting
      && q'.ws[w].pc == (match r.outcome case Added => Queued case Refused => Finishing(Rejected) case EnqueueWaits => EnqueueBlocked)
      && (r.wake ==> forall x :: x in q'.ws && x != w ==> q'.ws[x].pc != EnqueueBlocked)
      && (r.wake ==> forall c :: c in q'.cs ==> q'.cs[c].pc != AcquireBlocked)
      && (!r.wake ==> q'.cs == q.cs && forall x :: x in q.ws && x != w ==> q'.ws[x] == q.ws[x])
  {
  }

  lemma AcquireSectionIsStep(q: Queue)
    requires LogsOk(q) && LockOk(q) && Enabled(q, CommitAcquire)
    ensures AcquireIs(q, q.lock.task.c, DoCommitAcquire(q))
  {
    FirstKeptIsClient(q);
    AcquireParts(q);
  }

  lemma FirstKeptIsClient(q: Queue)
    requires LogsOk(q) && LockOk(q) && SectionOver(q)
    ensures Kept(q.waiting, q.lock.obs) != [] ==> Kept(q.waiting, q.lock.obs)[0] in q.ws
  {
    PurgeFacts(q);
  }

  /** What an acquiring section of `c` did, by the function the methods compute. */
  ghost predicate AcquireIs(q: Queue, c: Cid, q': Queue)
    requires c in q.cs && c in q'.cs && SectionOver(q)
  {
    var r := AcquireSection(q.waiting, q.quit, q.cs[c].deadline <= q.now, q.lock.obs);
    && q'.waiting == r.waiting
    && (match r.outcome
        case Taken(w) => q'.cs[c].pc == Holding && q'.cs[c].got == Some(w)
        case NoneAvailable => q'.cs[c].pc == Ending
        case AcquireWaits => q'.cs[c].pc == AcquireBlocked)
    && (r.wake ==> NobodyAsleepBut(q', c))
    && (!r.wake ==> q'.ws == q.ws && forall x :: x in q.cs && x != c ==> x in q'.cs && q'.cs[x] == q.cs[x])
  }

  lemma AcquireParts(q: Queue)
    requires Enabled(q, CommitAcquire)
    requires Kept(q.waiting, q.lock.obs) != [] ==> Kept(q.waiting, q.lock.obs)[0] in q.ws
    ensures AcquireIs(q, q.lock.task.c, DoCommitAcquire(q))
  {
    var p := Purged(q);
    var c := q.lock.task.c;
    if p.waiting != [] {
      assert DoCommitAcquire(q) == Broadcast(HandedTo(p, c, q.lock.since));
      BroadcastWakes(HandedTo(p, c, q.lock.since), c);
    } else if true in q.lock.obs {
      BroadcastWakes(q.(waiting := p.waiting, lock := Free), c);
    }
  }

  ghost predicate NobodyAsleepBut(q: Queue, c: Cid) {
    && (forall x :: x in q.ws ==> q.ws[x].pc != EnqueueBlocked)
    && (forall x :: x in q.cs && x != c ==> q.cs[x].pc != AcquireBlocked)
  }

  lemma BroadcastWakes(q: Queue, c: Cid)
    ensures NobodyAsleepBut(Broadcast(q), c)
  {
  }

  lemma KeptTail(waiting: seq<Wid>, gone: seq<bool>)
    requires |gone| == |waiting|
    ensures
      var kept := Kept(waiting, gone);
      Subseq(kept, waiting) && (kept != [] ==> Subseq(kept[1..], waiting))
  {
    var kept := Kept(waiting, gone);
    KeptSubseq(waiting, gone);
    if kept != [] {
      SubseqTailOf(kept);
      SubseqTrans(kept[1..], kept, waiting);
    }
  }

  lemma QuitAcquire(q: Queue)
    requires Enabled(q, CommitAcquire) && q.quit
    ensures DoCommitAcquire(q).quit && DoCommitAcquire(q).enqLog == q.enqLog
    ensures
      var kept := Kept(q.waiting, q.lock.obs);
      DoCommitAcquire(q).waiting == kept || (kept != [] && DoCommitAcquire(q).waiting == kept[1..])
  {
    assert Purged(q).waiting == Kept(q.waiting, q.lock.obs);
  }

  lemma QuitPurge(q: Queue, a: Action)
    requires Enabled(q, a) && q.quit && (a.CommitEnqueue? || a.CommitPurge?)
    ensures Do(q, a).quit && Do(q, a).enqLog == q.enqLog && Do(q, a).waiting == Kept(q.waiting, q.lock.obs)
  {
    assert Purged(q).waiting == Kept(q.waiting, q.lock.obs);
  }

  /** A section after `quit` leaves a part of the queue, in order. */
  lemma QuitCommit(q: Queue, a: Action)
    requires Enabled(q, a) && q.quit && (a.CommitEnqueue? || a.CommitPurge? || a.CommitAcquire?)
    ensures Do(q, a).quit && Do(q, a).enqLog == q.enqLog && Subseq(Do(q, a).waiting, q.waiting)
  {
    KeptTail(q.waiting, q.lock.obs);
    if a.CommitAcquire? { QuitAcquire(q); } else { QuitPurge(q, a); }
  }

  lemma QuitOther(q: Queue, a: Action)
    requires Enabled(q, a) && q.quit && !(a.CommitEnqueue? || a.CommitPurge? || a.CommitAcquire?)
    ensures Do(q, a).quit && Do(q, a).enqLog == q.enqLog && Do(q, a).waiting == q.waiting
  {
  }

  /** After `quit` nobody is queued any more: the queue only loses entries. */
  lemma QuitStep(q: Queue, a: Action, t: Time)
    requires CanStep(q, a, t) && q.quit
    ensures
      var q' := Next(q, a, t);
      q'.quit && q'.enqLog == q.enqLog && Subseq(q'.waiting, q.waiting)
  {
    if a.CommitEnqueue? || a.CommitPurge? || a.CommitAcquire? {
      QuitCommit(Advance(q, t), a);
    } else {
      QuitOther(Advance(q, t), a);
      SubseqRefl(q.waiting);
    }
  }

  lemma {:induction false} SubseqTailOf(s: seq<Wid>)
    requires s != []
    ensures Subseq(s[1..], s)
  {
    if |s| > 1 {
      SubseqTailOf(s[..|s| - 1]);
      assert s[1..][..|s| - 2] == s[..|s| - 1][1..];
    }
  }

  lemma {:induction false} QuitFreezesTrace(qs: seq<Queue>, es: seq<Event>, k: nat)
    requires Trace(qs, es) && Inv(qs[0]) && qs[0].quit && k <= |es|
    ensures Inv(qs[k]) && qs[k].quit && qs[k].enqLog == qs[0].enqLog && Subseq(qs[k].waiting, qs[0].waiting)
  {
    if k == 0 {
      SubseqRefl(qs[0].waiting);
    } else {
      QuitFreezesTrace(qs, es, k - 1);
      StepInv(qs[k - 1], es[k - 1].a, es[k - 1].t);
      QuitStep(qs[k - 1], es[k - 1].a, es[k - 1].t);
      SubseqTrans(qs[k].waiting, qs[k - 1].waiting, qs[0].waiting);
    }
  }

  /** Once `quit` is set, no run queues anybody and the queue only loses entries. */
  lemma QuitFreezesQueue(q: Queue, es: seq<Event>, q': Queue)
    requires Reachable(q) && q.quit && Run(q, es, q')
    ensures q'.quit && q'.enqLog == q.enqLog && Subseq(q'.waiting, q.waiting)
  {
    ReachableInv(q);
    var qs :| Trace(qs, es) && qs[0] == q && qs[|es|] == q';
    QuitFreezesTrace(qs, es, |es|);
  }
}
