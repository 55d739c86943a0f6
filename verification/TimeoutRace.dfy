/** The race between a client's idle timeout and the connections that could take
    the client: when exactly a client handed out is closed by its own timeout. */
module TimeoutRace {
  import opened Wrappers
  import opened Sequences
  import opened ListenerQueue
  import opened QueueInvariants
  import opened QueueSteps
  import opened QueueTheorems
  import opened HandlerFrames

  lemma AcquiredIsLogged(q: Queue, w: Wid)
    requires Inv(q) && w in q.ws
    ensures q.ws[w].acquired <==> w in q.acqLog
    ensures q.ws[w].once.Unused? ==> q.ws[w].transportCloses == 0
  {
    assert WaiterOk(q.ws[w], ViewOf(q, w));
  }

  /** Event `e` ends an acquiring section whose first surviving entry is `w`. */
  predicate Takes(q: Queue, e: Event, w: Wid) {
    && e.a == CommitAcquire && SectionOver(q)
    && var kept := Kept(q.waiting, q.lock.obs);
       kept != [] && kept[0] == w
  }

  lemma CommitTakesFirst(q: Queue)
    requires Enabled(q, CommitAcquire) && Kept(q.waiting, q.lock.obs) != []
    requires Kept(q.waiting, q.lock.obs)[0] in q.ws
    ensures DoCommitAcquire(q).acqLog == q.acqLog + [Kept(q.waiting, q.lock.obs)[0]]
  {
    assert Purged(q).waiting == Kept(q.waiting, q.lock.obs);
  }

  lemma CommitTakesNobody(q: Queue)
    requires Enabled(q, CommitAcquire) && Kept(q.waiting, q.lock.obs) == []
    ensures DoCommitAcquire(q).acqLog == q.acqLog
  {
    assert Purged(q).waiting == [];
  }

  lemma SectionTakesNobody(q: Queue, a: Action)
    requires Enabled(q, a) && (a.CommitEnqueue? || a.CommitPurge?)
    ensures Do(q, a).acqLog == q.acqLog
  {
  }

  lemma HandlerTakesNobody(q: Queue, a: Action)
    requires Enabled(q, a) && OfHandler(a) && !a.CommitEnqueue? && !a.CommitPurge?
    ensures Do(q, a).acqLog == q.acqLog
  {
  }

  lemma OthersTakeNobody(q: Queue, a: Action)
    requires Enabled(q, a) && a != CommitAcquire
    ensures Do(q, a).acqLog == q.acqLog
  {
    if a.CommitEnqueue? || a.CommitPurge? {
      SectionTakesNobody(q, a);
    } else if OfHandler(a) {
      HandlerTakesNobody(q, a);
    }
  }

  /** Exactly the steps that take `w` put it among the clients handed out. */
  lemma TakesStep(q: Queue, e: Event, w: Wid)
    requires LogsOk(q) && LockOk(q) && CanStep(q, e.a, e.t)
    ensures w in Next(q, e.a, e.t).acqLog <==> w in q.acqLog || Takes(q, e, w)
  {
    var q1 := Advance(q, e.t);
    if e.a == CommitAcquire {
      FirstKeptIsClient(q);
      if Kept(q.waiting, q.lock.obs) != [] { CommitTakesFirst(q1); } else { CommitTakesNobody(q1); }
    } else {
      OthersTakeNobody(q1, e.a);
    }
  }

  lemma TakesAt(qs: seq<Queue>, es: seq<Event>, w: Wid, k: nat)
    requires Trace(qs, es) && Inv(qs[0]) && k < |es|
    ensures w in qs[k + 1].acqLog <==> w in qs[k].acqLog || Takes(qs[k], es[k], w)
  {
    TraceKeepsInv(qs, es, k);
    assert Steps(qs[k], es[k], qs[k + 1]);
    TakesStep(qs[k], es[k], w);
  }

  ghost predicate LoggedByTaking(qs: seq<Queue>, es: seq<Event>, w: Wid) {
    && |qs| == |es| + 1
    && forall i {:trigger es[i]} :: 0 <= i < |es| ==>
         (w in qs[i + 1].acqLog <==> w in qs[i].acqLog || Takes(qs[i], es[i], w))
  }

  lemma TraceLogs(qs: seq<Queue>, es: seq<Event>, w: Wid)
    requires Trace(qs, es) && Inv(qs[0])
    ensures LoggedByTaking(qs, es, w)
  {
    forall i | 0 <= i < |es|
      ensures w in qs[i + 1].acqLog <==> w in qs[i].acqLog || Takes(qs[i], es[i], w)
    {
      TakesAt(qs, es, w, i);
    }
  }

  function Logged(qs: seq<Queue>, w: Wid): (r: seq<bool>)
    ensures |r| == |qs| && forall i :: 0 <= i < |qs| ==> r[i] == (w in qs[i].acqLog)
  {
    seq(|qs|, i requires 0 <= i < |qs| => w in qs[i].acqLog)
  }

  function Taking(qs: seq<Queue>, es: seq<Event>, w: Wid): (r: seq<bool>)
    requires |qs| >= |es|
    ensures |r| == |es| && forall i :: 0 <= i < |es| ==> r[i] == Takes(qs[i], es[i], w)
  {
    seq(|es|, i requires 0 <= i < |es| => Takes(qs[i], es[i], w))
  }

  lemma TakingStep(qs: seq<Queue>, es: seq<Event>, w: Wid, i: nat)
    requires LoggedByTaking(qs, es, w) && i < |es|
    ensures Logged(qs, w)[i + 1] == (Logged(qs, w)[i] || Taking(qs, es, w)[i])
  {
    assert es[i] == es[i];
  }

  /** Over a schedule, `w` gets handed out exactly by a step that takes it. */
  lemma LoggedWithin(qs: seq<Queue>, es: seq<Event>, w: Wid)
    requires LoggedByTaking(qs, es, w) && w !in qs[0].acqLog
    ensures w in qs[|es|].acqLog <==> exists i :: 0 <= i < |es| && Takes(qs[i], es[i], w)
  {
    var flag, sets := Logged(qs, w), Taking(qs, es, w);
    forall i | 0 <= i < |es|
      ensures flag[i + 1] == (flag[i] || sets[i])
    {
      TakingStep(qs, es, w, i);
    }
    SetBySome(flag, sets, |es|);
    if i :| 0 <= i < |es| && sets[i] {
      assert Takes(qs[i], es[i], w);
    }
  }

  // ------------------------------------------------- the timed-out handler

  /** The handler's test found its client idle. */
  predicate TimedOut(q: Queue, w: Wid) { w in q.ws && q.ws[w].tested == SawIdle }

  predicate ClosedByTimeout(q: Queue, w: Wid) { w in q.ws && q.ws[w].closedBy == Some(IdleTimeout) }

  /** A timed-out handler stays so, and exactly its own close closes the client. */
  lemma TimedOutStep(q: Queue, e: Event, w: Wid)
    requires TimedOut(q, w) && WaiterOk(q.ws[w], ViewOf(q, w)) && CanStep(q, e.a, e.t)
    ensures TimedOut(Next(q, e.a, e.t), w)
    ensures ClosedByTimeout(Next(q, e.a, e.t), w) <==> ClosedByTimeout(q, w) || e.a == EnterFinish(w)
  {
    var q1 := Advance(q, e.t);
    if e.a != TestAcquired(w) && e.a != EnterFinish(w) { OthersLeave(q1, e.a, w); }
  }

  lemma TimedOutAt(qs: seq<Queue>, es: seq<Event>, w: Wid, i: nat)
    requires Trace(qs, es) && Inv(qs[0]) && i < |es| && TimedOut(qs[i], w)
    ensures TimedOut(qs[i + 1], w)
    ensures ClosedByTimeout(qs[i + 1], w) <==> ClosedByTimeout(qs[i], w) || es[i].a == EnterFinish(w)
  {
    TraceKeepsInv(qs, es, i);
    assert WaiterOk(qs[i].ws[w], ViewOf(qs[i], w));
    assert Steps(qs[i], es[i], qs[i + 1]);
    TimedOutStep(qs[i], es[i], w);
  }

  lemma {:induction false} TimedOutAlong(qs: seq<Queue>, es: seq<Event>, w: Wid, k: nat)
    requires Trace(qs, es) && Inv(qs[0]) && k <= |es| && TimedOut(qs[0], w)
    ensures TimedOut(qs[k], w)
  {
    if k > 0 {
      TimedOutAlong(qs, es, w, k - 1);
      TimedOutAt(qs, es, w, k - 1);
    }
  }

  /** Over a run, the timeout closes the client exactly by the handler's close. */
  lemma ClosedWithin(qs: seq<Queue>, es: seq<Event>, w: Wid)
    requires Trace(qs, es) && Inv(qs[0]) && TimedOut(qs[0], w) && !ClosedByTimeout(qs[0], w)
    ensures ClosedByTimeout(qs[|es|], w) <==> exists i :: 0 <= i < |es| && es[i].a == EnterFinish(w)
  {
    var flag := seq(|qs|, i requires 0 <= i < |qs| => ClosedByTimeout(qs[i], w));
    var sets := seq(|es|, i requires 0 <= i < |es| => es[i].a == EnterFinish(w));
    forall i | 0 <= i < |es|
      ensures flag[i + 1] == (flag[i] || sets[i])
    {
      TimedOutAlong(qs, es, w, i);
      TimedOutAt(qs, es, w, i);
    }
    SetBySome(flag, sets, |es|);
    assert forall i :: 0 <= i < |es| ==> sets[i] == (es[i].a == EnterFinish(w));
    assert flag[|es|] == ClosedByTimeout(qs[|es|], w);
  }

  predicate BeforePurgeEnds(pc: HandlerPc) {
    pc == Finishing(IdleTimeout) || pc == InFinish(IdleTimeout) || pc == PurgePending
  }

  /** Nobody takes a client whose timed-out handler is through with its purge. */
  lemma TakenBeforePurge(q: Queue, e: Event, w: Wid)
    requires Inv(q) && TimedOut(q, w) && Takes(q, e, w)
    ensures BeforePurgeEnds(q.ws[w].pc)
  {
    PurgeFacts(q);
    assert w in Kept(q.waiting, q.lock.obs);
    assert WaiterOk(q.ws[w], ViewOf(q, w));
  }

  lemma TestLeavesUntaken(q: Queue, t: Time, w: Wid)
    requires Reachable(q) && HandlerAt(q, w, TimerFired) && !q.ws[w].acquired && CanStep(q, TestAcquired(w), t)
    ensures
      var q' := Next(q, TestAcquired(w), t);
      Inv(q') && w !in q'.acqLog && TimedOut(q', w) && !ClosedByTimeout(q', w)
  {
    ReachableInv(q);
    AcquiredIsLogged(q, w);
    assert WaiterOk(q.ws[w], ViewOf(q, w));
    StepInv(q, TestAcquired(w), t);
  }

  /** handleWaitTimeout tests `isAcquired`, closes the transport, closes `done` and
      purges, with steps of others in between.  Over every run after a test that
      found the client idle: the client is handed out exactly if some acquiring
      section ends with it as its first surviving entry, it is closed by the
      timeout exactly if the handler's `finish` is the one that runs, and every
      such section ends before the handler's own purge does.  So a client ends up
      both handed out and closed by its own timeout exactly when both happen, in
      either order, the first before the purge ends. */
  lemma TimeoutRaceExact(q0: Queue, t: Time, qs: seq<Queue>, es: seq<Event>, w: Wid)
    requires Reachable(q0) && HandlerAt(q0, w, TimerFired) && !q0.ws[w].acquired && CanStep(q0, TestAcquired(w), t)
    requires Trace(qs, es) && qs[0] == Next(q0, TestAcquired(w), t)
    ensures w in qs[|es|].ws
    ensures qs[|es|].ws[w].acquired <==> exists i :: 0 <= i < |es| && Takes(qs[i], es[i], w)
    ensures qs[|es|].ws[w].closedBy == Some(IdleTimeout) <==> exists i :: 0 <= i < |es| && es[i].a == EnterFinish(w)
    ensures forall i :: 0 <= i < |es| && Takes(qs[i], es[i], w) ==> w in qs[i].ws && BeforePurgeEnds(qs[i].ws[w].pc)
  {
    TestLeavesUntaken(q0, t, w);
    TimedOutAlong(qs, es, w, |es|);
    TakenWithin(qs, es, w);
    ClosedWithin(qs, es, w);
    forall i | 0 <= i < |es| && Takes(qs[i], es[i], w)
      ensures w in qs[i].ws && BeforePurgeEnds(qs[i].ws[w].pc)
    {
      TakenAt(qs, es, w, i);
    }
  }

  lemma TakenWithin(qs: seq<Queue>, es: seq<Event>, w: Wid)
    requires Trace(qs, es) && Inv(qs[0]) && w !in qs[0].acqLog && w in qs[|es|].ws
    ensures qs[|es|].ws[w].acquired <==> exists i :: 0 <= i < |es| && Takes(qs[i], es[i], w)
  {
    TraceLogs(qs, es, w);
    LoggedWithin(qs, es, w);
    TraceKeepsInv(qs, es, |es|);
    AcquiredIsLogged(qs[|es|], w);
  }

  lemma TakenAt(qs: seq<Queue>, es: seq<Event>, w: Wid, i: nat)
    requires Trace(qs, es) && Inv(qs[0]) && TimedOut(qs[0], w) && i < |es| && Takes(qs[i], es[i], w)
    ensures w in qs[i].ws && BeforePurgeEnds(qs[i].ws[w].pc)
  {
    TraceKeepsInv(qs, es, i);
    TimedOutAlong(qs, es, w, i);
    TakenBeforePurge(qs[i], es[i], w);
  }

  /** So the promise holds when no acquiring section ends between the test and the
      end of the handler's purge. */
  lemma TimeoutSparesUninterrupted(q0: Queue, t: Time, qs: seq<Queue>, es: seq<Event>, w: Wid)
    requires Reachable(q0) && HandlerAt(q0, w, TimerFired) && !q0.ws[w].acquired && CanStep(q0, TestAcquired(w), t)
    requires Trace(qs, es) && qs[0] == Next(q0, TestAcquired(w), t)
    requires forall i {:trigger es[i]} :: 0 <= i < |es| && es[i].a == CommitAcquire ==> HandlerAt(qs[i], w, Returned)
    ensures w in qs[|es|].ws && !qs[|es|].ws[w].acquired
  {
    TimeoutRaceExact(q0, t, qs, es, w);
  }

  // ------------------------------------------------------------ two bad runs

  lemma OneArrives()
    ensures Reachable(Small([], Held(EnqueueTask(0), [], 3), 0, 3, map[0 := FreshWaiter], map[], [], []))
  {
    Start();
    var q1 := Small([], Free, 0, 2, map[0 := FreshWaiter], map[], [], []);
    StepTo(Small([], Free, 0, 1, map[], map[], [], []), Arrive(0), 0, q1);
    StepTo(q1, LockEnqueue(0), 0, Small([], Held(EnqueueTask(0), [], 3), 0, 3, map[0 := FreshWaiter], map[], [], []));
  }

  /** One client, queued. */
  lemma OneQueued()
    ensures Reachable(Small([0], Free, 0, 4, map[0 := FreshWaiter.(pc := Queued)], map[], [0], []))
  {
    var q2 := Small([], Held(EnqueueTask(0), [], 3), 0, 3, map[0 := FreshWaiter], map[], [], []);
    var q3 := Small([0], Free, 0, 4, map[0 := FreshWaiter.(pc := Queued)], map[], [0], []);
    assert q3.ws == map[0 := FreshWaiter][0 := FreshWaiter.(pc := Queued)];
    assert Appended(Purged(Advance(q2, 0)), 0) == q3;
    assert Broadcast(q3).ws == q3.ws && Broadcast(q3).cs == q3.cs;
    OneArrives();
    StepTo(q2, CommitEnqueue, 0, q3);
  }

  /** The same client, tested by its timed-out handler while still queued. */
  lemma TestedWhileQueued()
    ensures Reachable(Small([0], Free, 0, 7, map[0 := FreshWaiter.(pc := Finishing(IdleTimeout), tested := SawIdle)],
                            map[], [0], []))
  {
    OneQueued();
    var r := FreshWaiter;
    var q3 := Small([0], Free, 0, 4, map[0 := r.(pc := Queued)], map[], [0], []);
    var q4 := Small([0], Free, 0, 5, map[0 := r.(pc := Selecting)], map[], [0], []);
    StepTo(q3, TouchedByClient(0), 0, q4);
    var q5 := Small([0], Free, 0, 6, map[0 := r.(pc := TimerFired)], map[], [0], []);
    StepTo(q4, SelectTimer(0), 0, q5);
    var q6 := Small([0], Free, 0, 7, map[0 := r.(pc := Finishing(IdleTimeout), tested := SawIdle)], map[], [0], []);
    StepTo(q5, TestAcquired(0), 0, q6);
  }

  /** The client, not finished, is found alive by an acquiring section ... */
  lemma FoundAlive(r: Waiter, c: Incoming, step: nat)
    requires Reachable(Small([0], Free, 0, step, map[0 := r], map[], [0], [])) && !Done(r)
    requires c == Incoming(Acquiring, None, Armed, 0, TEN_SECONDS, NO_SECTION)
    ensures Reachable(Small([0], Held(AcquireTask(0), [false], step + 4), 0, step + 5,
                            map[0 := r.(liveAt := step + 5)], map[0 := c], [0], []))
  {
    ArmsTimer([0], step, map[0 := r], [0], 0);
    var q0 := Small([0], Free, 0, step + 3, map[0 := r], map[0 := c], [0], []);
    var q1 := Small([0], Held(AcquireTask(0), [], step + 4), 0, step + 4, map[0 := r], map[0 := c], [0], []);
    StepTo(q0, LockAcquire(0), 0, q1);
    assert map[0 := r][0 := r.(liveAt := step + 5)] == map[0 := r.(liveAt := step + 5)];
    assert [] + [false] == [false];
    StepTo(q1, Observe, 0, Small([0], Held(AcquireTask(0), [false], step + 4), 0, step + 5,
                                 map[0 := r.(liveAt := step + 5)], map[0 := c], [0], []));
  }

  /** ... and handed out. */
  lemma GivesAway(p: Queue, r: Waiter, c: Incoming, since: nat, step: nat, q3: Queue)
    requires r.pc != EnqueueBlocked && c.pc == Acquiring
    requires p == Small([0], Free, 0, step, map[0 := r], map[0 := c], [0], [])
    requires q3 == Small([], Free, 0, step, map[0 := r.(acquired := true, takenBy := Some(0))],
                         map[0 := c.(pc := Holding, got := Some(0), section := Span(since, step))], [0], [0])
    ensures Broadcast(HandedTo(p, 0, since)) == q3
  {
    assert HandedTo(p, 0, since).ws == q3.ws && HandedTo(p, 0, since).cs == q3.cs;
    assert HandedTo(p, 0, since) == q3;
    assert Broadcast(q3).ws == q3.ws && Broadcast(q3).cs == q3.cs;
  }

  lemma HandingStep(r: Waiter, c: Incoming, since: nat, step: nat, q2: Queue, q3: Queue)
    requires r.pc != EnqueueBlocked && c.pc == Acquiring
    requires q2 == Small([0], Held(AcquireTask(0), [false], since), 0, step, map[0 := r], map[0 := c], [0], [])
    requires q3 == Small([], Free, 0, step + 1, map[0 := r.(acquired := true, takenBy := Some(0))],
                         map[0 := c.(pc := Holding, got := Some(0), section := Span(since, step + 1))], [0], [0])
    ensures CanStep(q2, CommitAcquire, 0) && Next(q2, CommitAcquire, 0) == q3
  {
    assert Kept([0], [false]) == [0];
    var p := Small([0], Free, 0, step + 1, map[0 := r], map[0 := c], [0], []);
    assert Purged(Advance(q2, 0)) == p;
    GivesAway(p, r, c, since, step + 1, q3);
  }

  lemma HandedOut(r: Waiter, step: nat) returns (q: Queue)
    requires Reachable(Small([0], Free, 0, step, map[0 := r], map[], [0], [])) && !Done(r) && r.pc != EnqueueBlocked
    ensures Reachable(q) && IncomingAt(q, 0, Holding) && q.cs[0].got == Some(0) && q.now == 0
    ensures q.ws == map[0 := r.(liveAt := step + 5, acquired := true, takenBy := Some(0))]
  {
    var c := Incoming(Acquiring, None, Armed, 0, TEN_SECONDS, NO_SECTION);
    var r' := r.(liveAt := step + 5);
    var q2 := Small([0], Held(AcquireTask(0), [false], step + 4), 0, step + 5, map[0 := r'], map[0 := c], [0], []);
    q := Small([], Free, 0, step + 6, map[0 := r'.(acquired := true, takenBy := Some(0))],
               map[0 := c.(pc := Holding, got := Some(0), section := Span(step + 4, step + 6))], [0], [0]);
    HandingStep(r', c, step + 4, step + 5, q2, q);
    FoundAlive(r, c, step);
    StepTo(q2, CommitAcquire, 0, q);
  }

  predicate TakenAndClosed(q: Queue) {
    && 0 in q.ws && IncomingAt(q, 0, Holding) && q.cs[0].got == Some(0)
    && q.ws[0].acquired && q.ws[0].closedBy == Some(IdleTimeout) && q.ws[0].transportCloses == 1
  }

  /** Handed out between the test and the close, and then closed. */
  lemma TimeoutRaceHappens() returns (q: Queue)
    ensures Reachable(q) && TakenAndClosed(q)
  {
    TestedWhileQueued();
    var q3 := HandedOut(FreshWaiter.(pc := Finishing(IdleTimeout), tested := SawIdle), 7);
    q := Next(q3, EnterFinish(0), 0);
    StepTo(q3, EnterFinish(0), 0, q);
  }

  /** Closed right after the test, and then handed out, `done` being still open. */
  lemma TakenAfterClose() returns (q: Queue)
    ensures Reachable(q) && TakenAndClosed(q)
  {
    TestedWhileQueued();
    var r := FreshWaiter.(pc := Finishing(IdleTimeout), tested := SawIdle);
    var r1 := r.(pc := InFinish(IdleTimeout), once := Running(ByHandler), transportCloses := 1, closedBy := Some(IdleTimeout));
    var q0 := Small([0], Free, 0, 7, map[0 := r], map[], [0], []);
    assert map[0 := r][0 := r1] == map[0 := r1];
    StepTo(q0, EnterFinish(0), 0, Small([0], Free, 0, 8, map[0 := r1], map[], [0], []));
    q := HandedOut(r1, 8);
  }
}
