/** The enqueuing and the acquiring section that the reverse-tunnel manager runs
    under a listener's `queueMu`, as functions of the queue they find.  Each
    first purges: `gone[i]` is what the test of entry `i`'s `done` channel
    answered.  `wake` says whether the section broadcast on `queueCond`. */
module QueueSections {
  import opened Sequences

  datatype EnqueueOutcome = Added | Refused | EnqueueWaits
  datatype AcquireOutcome<T> = Taken(conn: T) | NoneAvailable | AcquireWaits

  datatype EnqueueResult<T> = EnqueueResult(waiting: seq<T>, outcome: EnqueueOutcome, wake: bool)
  datatype AcquireResult<T> = AcquireResult(waiting: seq<T>, outcome: AcquireOutcome<T>, wake: bool)

  function EnqueueSection<T>(waiting: seq<T>, cap: nat, quit: bool, gone: seq<bool>, conn: T): EnqueueResult<T>
    requires |gone| == |waiting|
  {
    var kept := Kept(waiting, gone);
    if quit then EnqueueResult(kept, Refused, true in gone)
    else if |kept| < cap then EnqueueResult(kept + [conn], Added, true)
    else EnqueueResult(kept, EnqueueWaits, true in gone)
  }

  function AcquireSection<T>(waiting: seq<T>, quit: bool, expired: bool, gone: seq<bool>): AcquireResult<T>
    requires |gone| == |waiting|
  {
    var kept := Kept(waiting, gone);
    if kept != [] then AcquireResult(kept[1..], Taken(kept[0]), true)
    else if expired || quit then AcquireResult(kept, NoneAvailable, true in gone)
    else AcquireResult(kept, AcquireWaits, true in gone)
  }
}

/** One listener's rendezvous as a transition system.  A step is one entry test
    of a purge, the end of one critical section, one `select` choice, one half of
    a `finish` body, or one move of a goroutine between them; goroutines
    interleave freely.  Every step reads a clock that never runs backwards. */
module ListenerQueue {
  import opened Wrappers
  import opened Sequences

  type Wid = nat   // a client tunnel and the handler goroutine that owns it
  type Cid = nat   // an incoming connection and its goroutine
  type Time = int  // nanoseconds

  const TEN_SECONDS: Time := 10_000_000_000

  /** Why a handler calls `finish(true)`. */
  datatype Why = Rejected | Shutdown | IdleTimeout

  datatype HandlerPc =
    | Enqueuing          // wants queueMu inside enqueueWaitingConn
    | EnqueueBlocked     // asleep in queueCond.Wait, not yet notified
    | Queued             // enqueued, touchListener not yet called
    | Selecting          // in the select of waitForUseOrTimeout
    | AfterAcquire       // in waitAfterAcquireOrShutdown
    | TimerFired         // in handleWaitTimeout, isAcquired not yet tested
    | Finishing(why: Why)
    | InFinish(why: Why) // inside the body of once.Do
    | PurgePending       // timed out, purgeDoneWaiters not yet finished
    | Returned

  datatype Runner = ByHandler | ByIncoming(c: Cid)
  datatype Once = Unused | Running(who: Runner) | Finished

  datatype Tested = Untested | SawAcquired | SawIdle

  /** A waitingConn with its handler.  The last four fields are history. */
  datatype Waiter = Waiter(
    pc: HandlerPc, acquired: bool, once: Once, transportCloses: nat, doneCloses: nat,
    tested: Tested, closedBy: Option<Why>, takenBy: Option<Cid>, liveAt: nat, doneAt: nat)

  datatype IncomingPc =
    | Handshaking
    | Arming             // AfterFunc started, deadline not yet computed
    | Acquiring          // wants queueMu inside acquireWaitingConn
    | AcquireBlocked     // asleep in queueCond.Wait, not yet notified
    | Holding            // got a client, touchListener not yet called
    | Piping
    | Releasing          // about to call finish(false)
    | InRelease          // inside the body of once.Do
    | Ending             // updateActivePipes(-1) not yet called
    | Gone

  datatype Timer = NoTimer | Armed | Broadcasted(at: Time)

  /** The steps at which a section began and ended. */
  datatype Span = Span(from: nat, to: nat)

  /** An incoming connection.  `section` is history: the section that acquired
      its client. */
  datatype Incoming = Incoming(
    pc: IncomingPc, got: Option<Wid>, timer: Timer, timerStart: Time, deadline: Time, section: Span)

  datatype Task = EnqueueTask(w: Wid) | AcquireTask(c: Cid) | PurgeTask(w: Wid)

  /** queueMu held for a purging section: `obs` are the answers so far. */
  datatype Lock = Free | Held(task: Task, obs: seq<bool>, since: nat)

  /** `enqLog` and `acqLog` are history: every client queued and every client
      handed out, in order. */
  datatype Queue = Queue(
    cap: nat, idleTimeoutOn: bool, waiting: seq<Wid>, quit: bool, lock: Lock, now: Time, step: nat,
    ws: map<Wid, Waiter>, cs: map<Cid, Incoming>, enqLog: seq<Wid>, acqLog: seq<Wid>)

  datatype Action =
    // client handler
    | Arrive(w: Wid)
    | LockEnqueue(w: Wid) | CommitEnqueue
    | TouchedByClient(w: Wid)
    | SelectDone(w: Wid) | SelectQuit(w: Wid) | SelectAcquired(w: Wid) | SelectTimer(w: Wid)
    | TestAcquired(w: Wid)
    | EnterFinish(w: Wid) | LeaveFinish(w: Wid) | SkipFinish(w: Wid)
    | LockPurge(w: Wid) | CommitPurge
    // incoming connection
    | Begin(c: Cid)
    | HandshakeFails(c: Cid) | ArmTimer(c: Cid) | SetDeadline(c: Cid)
    | LockAcquire(c: Cid) | CommitAcquire
    | TimedBroadcast(c: Cid)
    | TouchedByIncoming(c: Cid) | PipeEnds(c: Cid)
    | EnterRelease(c: Cid) | LeaveRelease(c: Cid) | SkipRelease(c: Cid)
    | End(c: Cid)
    // shared
    | Observe
    | Quit

  predicate Done(w: Waiter) { w.doneCloses > 0 }

  function Initial(cap: nat, idleTimeoutOn: bool, now: Time): Queue {
    Queue(cap, idleTimeoutOn, [], false, Free, now, 1, map[], map[], [], [])
  }

  const FreshWaiter := Waiter(Enqueuing, false, Unused, 0, 0, Untested, None, None, 0, 0)
  const NO_SECTION := Span(0, 0)
  const FreshIncoming := Incoming(Handshaking, None, NoTimer, 0, 0, NO_SECTION)

  predicate HandlerAt(q: Queue, w: Wid, pc: HandlerPc) { w in q.ws && q.ws[w].pc == pc }
  predicate IncomingAt(q: Queue, c: Cid, pc: IncomingPc) { c in q.cs && q.cs[c].pc == pc }

  function SetHandler(q: Queue, w: Wid, r: Waiter): Queue { q.(ws := q.ws[w := r]) }
  function SetIncoming(q: Queue, c: Cid, r: Incoming): Queue { q.(cs := q.cs[c := r]) }

  /** queueCond.Broadcast(): every sleeper has to take queueMu again. */
  function Broadcast(q: Queue): Queue {
    q.(ws := map w | w in q.ws :: if q.ws[w].pc == EnqueueBlocked then q.ws[w].(pc := Enqueuing) else q.ws[w],
       cs := map c | c in q.cs :: if q.cs[c].pc == AcquireBlocked then q.cs[c].(pc := Acquiring) else q.cs[c])
  }

  predicate SectionOver(q: Queue) { q.lock.Held? && |q.lock.obs| == |q.waiting| }

  predicate InSelect(q: Queue, w: Wid) { HandlerAt(q, w, Selecting) || HandlerAt(q, w, AfterAcquire) }

  predicate Enabled(q: Queue, a: Action) {
    match a
    case Arrive(w) => w !in q.ws
    case LockEnqueue(w) => HandlerAt(q, w, Enqueuing) && q.lock.Free?
    case CommitEnqueue => SectionOver(q) && q.lock.task.EnqueueTask? && HandlerAt(q, q.lock.task.w, Enqueuing)
    case TouchedByClient(w) => HandlerAt(q, w, Queued)
    case SelectDone(w) => InSelect(q, w) && Done(q.ws[w])
    case SelectQuit(w) => InSelect(q, w) && q.quit
    case SelectAcquired(w) => HandlerAt(q, w, Selecting) && q.idleTimeoutOn && q.ws[w].acquired
    case SelectTimer(w) => HandlerAt(q, w, Selecting) && q.idleTimeoutOn
    case TestAcquired(w) => HandlerAt(q, w, TimerFired)
    case EnterFinish(w) => w in q.ws && q.ws[w].pc.Finishing? && q.ws[w].once.Unused?
    case LeaveFinish(w) => w in q.ws && q.ws[w].pc.InFinish?
    case SkipFinish(w) => w in q.ws && q.ws[w].pc.Finishing? && q.ws[w].once.Finished?
    case LockPurge(w) => HandlerAt(q, w, PurgePending) && q.lock.Free?
    case CommitPurge => SectionOver(q) && q.lock.task.PurgeTask? && HandlerAt(q, q.lock.task.w, PurgePending)
    case Begin(c) => c !in q.cs
    case HandshakeFails(c) => IncomingAt(q, c, Handshaking)
    case ArmTimer(c) => IncomingAt(q, c, Handshaking)
    case SetDeadline(c) => IncomingAt(q, c, Arming)
    case LockAcquire(c) => IncomingAt(q, c, Acquiring) && q.lock.Free?
    case CommitAcquire => SectionOver(q) && q.lock.task.AcquireTask? && IncomingAt(q, q.lock.task.c, Acquiring)
    case TimedBroadcast(c) =>
      c in q.cs && q.cs[c].timer.Armed? && q.cs[c].timerStart + TEN_SECONDS <= q.now && q.lock.Free?
    case TouchedByIncoming(c) => IncomingAt(q, c, Holding)
    case PipeEnds(c) => IncomingAt(q, c, Piping)
    case EnterRelease(c) => IncomingAt(q, c, Releasing) && HasClient(q, c) && HeldBy(q, c).once.Unused?
    case LeaveRelease(c) => IncomingAt(q, c, InRelease) && HasClient(q, c)
    case SkipRelease(c) => IncomingAt(q, c, Releasing) && HasClient(q, c) && HeldBy(q, c).once.Finished?
    case End(c) => IncomingAt(q, c, Ending)
    case Observe => q.lock.Held? && |q.lock.obs| < |q.waiting| && q.waiting[|q.lock.obs|] in q.ws
    case Quit => q.lock.Free?
  }

  predicate HasClient(q: Queue, c: Cid) { c in q.cs && q.cs[c].got.Some? && q.cs[c].got.value in q.ws }

  function HeldBy(q: Queue, c: Cid): Waiter
    requires HasClient(q, c)
  {
    q.ws[q.cs[c].got.value]
  }

  function Do(q: Queue, a: Action): Queue
    requires Enabled(q, a)
  {
    match a
    case Arrive(w) => SetHandler(q, w, FreshWaiter)
    case LockEnqueue(w) => q.(lock := Held(EnqueueTask(w), [], q.step))
    case CommitEnqueue => DoCommitEnqueue(q)
    case TouchedByClient(w) => SetHandler(q, w, q.ws[w].(pc := Selecting))
    case SelectDone(w) => SetHandler(q, w, q.ws[w].(pc := Returned))
    case SelectQuit(w) => SetHandler(q, w, q.ws[w].(pc := Finishing(Shutdown)))
    case SelectAcquired(w) => SetHandler(q, w, q.ws[w].(pc := AfterAcquire))
    case SelectTimer(w) => SetHandler(q, w, q.ws[w].(pc := TimerFired))
    case TestAcquired(w) =>
      if q.ws[w].acquired
      then SetHandler(q, w, q.ws[w].(pc := AfterAcquire, tested := SawAcquired))
      else SetHandler(q, w, q.ws[w].(pc := Finishing(IdleTimeout), tested := SawIdle))
    case EnterFinish(w) =>
      SetHandler(q, w, q.ws[w].(pc := InFinish(q.ws[w].pc.why), once := Running(ByHandler),
                                transportCloses := q.ws[w].transportCloses + 1, closedBy := Some(q.ws[w].pc.why)))
    case LeaveFinish(w) =>
      SetHandler(q, w, q.ws[w].(pc := AfterFinish(q.ws[w].pc.why), once := Finished,
                                doneCloses := q.ws[w].doneCloses + 1, doneAt := q.step))
    case SkipFinish(w) => SetHandler(q, w, q.ws[w].(pc := AfterFinish(q.ws[w].pc.why)))
    case LockPurge(w) => q.(lock := Held(PurgeTask(w), [], q.step))
    case CommitPurge => DoCommitPurge(q)
    case Begin(c) => SetIncoming(q, c, FreshIncoming)
    case HandshakeFails(c) => SetIncoming(q, c, q.cs[c].(pc := Ending))
    case ArmTimer(c) => SetIncoming(q, c, q.cs[c].(pc := Arming, timer := Armed, timerStart := q.now))
    case SetDeadline(c) => SetIncoming(q, c, q.cs[c].(pc := Acquiring, deadline := q.now + TEN_SECONDS))
    case LockAcquire(c) => q.(lock := Held(AcquireTask(c), [], q.step))
    case CommitAcquire => DoCommitAcquire(q)
    case TimedBroadcast(c) =>
      var q' := Broadcast(q);
      SetIncoming(q', c, q'.cs[c].(timer := Broadcasted(q.now)))
    case TouchedByIncoming(c) => SetIncoming(q, c, q.cs[c].(pc := Piping))
    case PipeEnds(c) => SetIncoming(q, c, q.cs[c].(pc := Releasing))
    case EnterRelease(c) =>
      SetIncoming(SetHandler(q, q.cs[c].got.value, HeldBy(q, c).(once := Running(ByIncoming(c)))),
                  c, q.cs[c].(pc := InRelease))
    case LeaveRelease(c) =>
      SetIncoming(SetHandler(q, q.cs[c].got.value,
                             HeldBy(q, c).(once := Finished, doneCloses := HeldBy(q, c).doneCloses + 1, doneAt := q.step)),
                  c, q.cs[c].(pc := Ending))
    case SkipRelease(c) => SetIncoming(q, c, q.cs[c].(pc := Ending))
    case End(c) => SetIncoming(q, c, q.cs[c].(pc := Gone))
    case Observe => DoObserve(q)
    case Quit => Broadcast(q.(quit := true))
  }

  function AfterFinish(why: Why): HandlerPc {
    if why == IdleTimeout then PurgePending else Returned
  }

  function DoObserve(q: Queue): Queue
    requires Enabled(q, Observe)
  {
    var w := q.waiting[|q.lock.obs|];
    var gone := Done(q.ws[w]);
    var q' := q.(lock := q.lock.(obs := q.lock.obs + [gone]));
    if gone then q' else SetHandler(q', w, q.ws[w].(liveAt := q.step))
  }

  /** purgeDoneWaitersLocked, and the release of queueMu at the end of the section. */
  function Purged(q: Queue): Queue
    requires SectionOver(q)
  {
    var q' := q.(waiting := Kept(q.waiting, q.lock.obs), lock := Free);
    if true in q.lock.obs then Broadcast(q') else q'
  }

  function Appended(q: Queue, w: Wid): Queue
    requires w in q.ws
  {
    SetHandler(q.(waiting := q.waiting + [w], enqLog := q.enqLog + [w]), w, q.ws[w].(pc := Queued))
  }

  function DoCommitEnqueue(q: Queue): Queue
    requires Enabled(q, CommitEnqueue)
  {
    var w := q.lock.task.w;
    var q' := Purged(q);
    if q.quit then SetHandler(q', w, q.ws[w].(pc := Finishing(Rejected)))
    else if |q'.waiting| < q.cap then Broadcast(Appended(q', w))
    else SetHandler(q', w, q.ws[w].(pc := EnqueueBlocked))
  }

  function DoCommitPurge(q: Queue): Queue
    requires Enabled(q, CommitPurge)
  {
    SetHandler(Purged(q), q.lock.task.w, q.ws[q.lock.task.w].(pc := Returned))
  }

  /** The first client leaves the queue for `c`. */
  function HandedTo(q: Queue, c: Cid, since: nat): Queue
    requires q.waiting != [] && q.waiting[0] in q.ws && c in q.cs
  {
    var w := q.waiting[0];
    q.(waiting := q.waiting[1..], acqLog := q.acqLog + [w],
       ws := q.ws[w := q.ws[w].(acquired := true, takenBy := Some(c))],
       cs := q.cs[c := q.cs[c].(pc := Holding, got := Some(w), section := Span(since, q.step))])
  }

  function DoCommitAcquire(q: Queue): Queue
    requires Enabled(q, CommitAcquire)
  {
    var c := q.lock.task.c;
    var q' := Purged(q);
    if q'.waiting != [] && q'.waiting[0] in q'.ws then Broadcast(HandedTo(q', c, q.lock.since))
    else if q.cs[c].deadline <= q.now || q.quit then SetIncoming(q', c, q.cs[c].(pc := Ending))
    else SetIncoming(q', c, q.cs[c].(pc := AcquireBlocked))
  }

  /** The clock moves to `t` and the step gets its number. */
  function Advance(q: Queue, t: Time): Queue { q.(now := t, step := q.step + 1) }

  /** One step, taken at clock reading `t`. */
  predicate CanStep(q: Queue, a: Action, t: Time) {
    q.now <= t && Enabled(Advance(q, t), a)
  }

  function Next(q: Queue, a: Action, t: Time): Queue
    requires CanStep(q, a, t)
  {
    Do(Advance(q, t), a)
  }
}
