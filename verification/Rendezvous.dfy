/** The whole manager: the registry and one queue per listener, run together.
    Steps that concern both move both at once; any other interleaving is free. */
module Rendezvous {
  import opened Wrappers
  import opened Sequences
  import LQ = ListenerQueue
  import QI = QueueInvariants
  import QS = QueueSteps
  import R = Registry

  type Lid = R.Lid
  type Wid = LQ.Wid
  type Cid = LQ.Cid
  type Time = LQ.Time

  const WAIT_CAP := 10

  /** `clients` and `conns`: the listener each client handler and each incoming
      connection works for. */
  datatype System = System(reg: R.State, qs: map<Lid, LQ.Queue>, clients: map<Wid, Lid>, conns: map<Cid, Lid>)

  datatype Action =
    | ClientArrives(addr: string, protocol: R.Protocol, created: Lid, w: Wid)
    | ClientTouches(l: Lid, w: Wid)
    | Accepts(l: Lid, c: Cid)
    | IncomingTouches(l: Lid, c: Cid)
    | IncomingEnds(l: Lid, c: Cid)
    | ShutsDown(k: R.Kid)
    | ShutsDownOnFailure(l: Lid)
    | QueueOnly(l: Lid, qa: LQ.Action)
    | RegistryOnly(ra: R.Action)

  /** The registry's share of a step, if any. */
  function RegistryPart(a: Action): Option<R.Action> {
    match a
    case ClientArrives(addr, protocol, l, _) => Some(R.GetOrCreate(addr, protocol, l))
    case ClientTouches(l, _) => Some(R.Touch(l))
    case Accepts(l, c) => Some(R.Begin(l, c))
    case IncomingTouches(l, _) => Some(R.Touch(l))
    case IncomingEnds(_, c) => Some(R.End(c))
    case ShutsDown(k) => Some(R.CloseNext(k))
    case ShutsDownOnFailure(l) => Some(R.QuitOnFailure(l))
    case QueueOnly(_, _) => None
    case RegistryOnly(ra) => Some(ra)
  }

  /** The queue's share of a step, if any. */
  function QueuePart(a: Action): Option<LQ.Action> {
    match a
    case ClientArrives(_, _, _, w) => Some(LQ.Arrive(w))
    case ClientTouches(_, w) => Some(LQ.TouchedByClient(w))
    case Accepts(_, c) => Some(LQ.Begin(c))
    case IncomingTouches(_, c) => Some(LQ.TouchedByIncoming(c))
    case IncomingEnds(_, c) => Some(LQ.End(c))
    case ShutsDown(_) => Some(LQ.Quit)
    case ShutsDownOnFailure(_) => Some(LQ.Quit)
    case QueueOnly(_, qa) => Some(qa)
    case RegistryOnly(_) => None
  }

  /** The listener whose queue takes part. */
  function Target(s: System, a: Action): Lid {
    match a
    case ClientArrives(addr, _, l, _) => if addr in s.reg.listeners then s.reg.listeners[addr] else l
    case ShutsDown(k) => if R.Idle(s.reg, k) then 0 else s.reg.closing[k][0]
    case RegistryOnly(_) => 0
    case _ => a.l
  }

  /** A listener's queue; a listener being created has an empty one. */
  function QueueOf(s: System, l: Lid, t: Time): LQ.Queue {
    if l in s.qs then s.qs[l] else LQ.Initial(WAIT_CAP, s.reg.idleTimeout > 0, t)
  }

  predicate QueueInternal(qa: LQ.Action) {
    !(qa.Arrive? || qa.TouchedByClient? || qa.Begin? || qa.TouchedByIncoming? || qa.End? || qa.Quit?)
  }

  ghost predicate Guard(s: System, a: Action) {
    match a
    case ClientArrives(_, _, _, w) => w !in s.clients
    case Accepts(l, c) => l in s.qs && c !in s.conns
    case IncomingEnds(l, c) => l in s.qs && c in s.reg.inflight && s.reg.inflight[c] == l
    case QueueOnly(l, qa) => l in s.qs && QueueInternal(qa)
    case RegistryOnly(ra) => ra.Reap? || ra.CloseAll? || ra.AcceptFails? || ra.Unregister?
    case _ => Target(s, a) in s.qs
  }

  ghost predicate CanStep(s: System, a: Action, t: Time) {
    && s.reg.now <= t && Guard(s, a)
    && (RegistryPart(a).Some? ==> R.CanStep(s.reg, RegistryPart(a).value, t))
    && (QueuePart(a).Some? ==> LQ.CanStep(QueueOf(s, Target(s, a), t), QueuePart(a).value, t))
  }

  function NextRegistry(reg: R.State, ra: Option<R.Action>, t: Time): R.State
    requires ra.Some? ==> R.CanStep(reg, ra.value, t)
  {
    if ra.Some? then R.Next(reg, ra.value, t) else reg.(now := t)
  }

  function Next(s: System, a: Action, t: Time): System
    requires CanStep(s, a, t)
  {
    var l := Target(s, a);
    System(NextRegistry(s.reg, RegistryPart(a), t),
           if QueuePart(a).Some? then s.qs[l := LQ.Next(QueueOf(s, l, t), QueuePart(a).value, t)] else s.qs,
           if a.ClientArrives? then s.clients[a.w := l] else s.clients,
           if a.Accepts? then s.conns[a.c := l] else s.conns)
  }

  function Initial(idleTimeout: Time, now: Time): System { System(R.Initial(idleTimeout, now), map[], map[], map[]) }

  // ------------------------------------------------------------ invariant

  ghost predicate QueuesInv(s: System) { forall l :: l in s.qs ==> QI.Inv(s.qs[l]) }

  /** What ties the queues to the registry. */
  ghost predicate LinkInv(s: System) {
    InStep(s.reg, s.qs) && ClientsOk(s.qs, s.clients) && ConnsOk(s.reg.inflight, s.qs, s.conns)
  }

  /** A connection's goroutine is running in its listener's queue exactly while
      the registry has it begun and not ended. */
  predicate ConnOk(inflight: map<Cid, Lid>, qs: map<Lid, LQ.Queue>, l: Lid, c: Cid) {
    && l in qs && c in qs[l].cs
    && (c in inflight <==> qs[l].cs[c].pc != LQ.Gone)
    && (c in inflight ==> inflight[c] == l)
  }

  ghost predicate ConnsOk(inflight: map<Cid, Lid>, qs: map<Lid, LQ.Queue>, conns: map<Cid, Lid>) {
    && inflight.Keys <= conns.Keys
    && (forall c :: c in conns ==> ConnOk(inflight, qs, conns[c], c))
    && HomesOk(qs, conns)
  }

  ghost predicate HomesOk(qs: map<Lid, LQ.Queue>, conns: map<Cid, Lid>) {
    forall l, c :: l in qs && c in qs[l].cs ==> c in conns && conns[c] == l
  }

  ghost predicate Inv(s: System) { R.Inv(s.reg) && QueuesInv(s) && LinkInv(s) }

  /** What the queue's own steps leave alone. */
  ghost predicate Frame(q: LQ.Queue, q': LQ.Queue) {
    && q'.quit == q.quit && q'.cap == q.cap && q'.now == q.now
    && q'.ws.Keys == q.ws.Keys && q'.cs.Keys == q.cs.Keys
    && (forall c :: c in q.cs ==> (q'.cs[c].pc == LQ.Gone <==> q.cs[c].pc == LQ.Gone))
  }

  lemma BroadcastFrame(q: LQ.Queue)
    ensures Frame(q, LQ.Broadcast(q))
  {
  }

  lemma PurgedFrame(q: LQ.Queue)
    requires LQ.SectionOver(q)
    ensures Frame(q, LQ.Purged(q))
  {
    BroadcastFrame(q.(waiting := Kept(q.waiting, q.lock.obs), lock := LQ.Free));
  }

  lemma HandlerCommitFrame(q: LQ.Queue, a: LQ.Action)
    requires LQ.Enabled(q, a) && (a.CommitEnqueue? || a.CommitPurge?)
    ensures Frame(q, LQ.Do(q, a))
  {
    PurgedFrame(q);
    if a.CommitEnqueue? { BroadcastFrame(LQ.Appended(LQ.Purged(q), q.lock.task.w)); }
  }

  lemma FrameTrans(a: LQ.Queue, b: LQ.Queue, c: LQ.Queue)
    requires Frame(a, b) && Frame(b, c)
    ensures Frame(a, c)
  {
  }

  lemma MovedFrame(q: LQ.Queue, c: Cid, r: LQ.Incoming)
    requires LQ.IncomingAt(q, c, LQ.Acquiring) && r.pc != LQ.Gone
    ensures Frame(q, LQ.SetIncoming(q, c, r))
  {
  }

  lemma HandedFrame(q: LQ.Queue, c: Cid, since: nat)
    requires LQ.IncomingAt(q, c, LQ.Acquiring) && q.waiting != [] && q.waiting[0] in q.ws
    ensures Frame(q, LQ.Broadcast(LQ.HandedTo(q, c, since)))
  {
    var h := LQ.HandedTo(q, c, since);
    assert Frame(q, h);
    BroadcastFrame(h);
    FrameTrans(q, h, LQ.Broadcast(h));
  }

  lemma AcquireCommitFrame(q: LQ.Queue)
    requires LQ.Enabled(q, LQ.CommitAcquire)
    ensures Frame(q, LQ.DoCommitAcquire(q))
  {
    var p, c := LQ.Purged(q), q.lock.task.c;
    PurgedFrame(q);
    if p.waiting != [] && p.waiting[0] in p.ws {
      HandedFrame(p, c, q.lock.since);
    } else {
      MovedFrame(p, c, LQ.DoCommitAcquire(q).cs[c]);
    }
    FrameTrans(q, p, LQ.DoCommitAcquire(q));
  }

  lemma HandlerFrame(q: LQ.Queue, a: LQ.Action)
    requires LQ.Enabled(q, a) && QS.OfHandler(a) && QueueInternal(a)
    ensures Frame(q, LQ.Do(q, a))
  {
    if a.CommitEnqueue? || a.CommitPurge? { HandlerCommitFrame(q, a); }
  }

  lemma IncomingFrame(q: LQ.Queue, a: LQ.Action)
    requires LQ.Enabled(q, a) && !QS.OfHandler(a) && !a.CommitAcquire? && QueueInternal(a)
    ensures Frame(q, LQ.Do(q, a))
  {
    if a.TimedBroadcast? { BroadcastFrame(q); }
    else if a.EnterRelease? || a.LeaveRelease? { ReleaseFrame(q, a); }
  }

  lemma ReleaseFrame(q: LQ.Queue, a: LQ.Action)
    requires LQ.Enabled(q, a) && (a.EnterRelease? || a.LeaveRelease?)
    ensures Frame(q, LQ.Do(q, a))
  {
  }

  /** What a queue step shows to the rest of the manager. */
  datatype Effect = Effect(quits: bool, arrived: set<Wid>, begun: set<Cid>, ended: set<Cid>)

  function EffectOf(a: LQ.Action): Effect {
    match a
    case Arrive(w) => Effect(false, {w}, {}, {})
    case Begin(c) => Effect(false, {}, {c}, {})
    case End(c) => Effect(false, {}, {}, {c})
    case Quit => Effect(true, {}, {}, {})
    case _ => Effect(false, {}, {}, {})
  }

  ghost predicate Shows(q: LQ.Queue, q': LQ.Queue, t: Time, e: Effect) {
    && q'.quit == (q.quit || e.quits) && q'.cap == q.cap && q'.now == t
    && q'.ws.Keys == q.ws.Keys + e.arrived && q'.cs.Keys == q.cs.Keys + e.begun
    && (forall c :: c in q'.cs ==> (q'.cs[c].pc == LQ.Gone <==> c in e.ended || (c in q.cs && q.cs[c].pc == LQ.Gone)))
  }

  lemma ClientShows(q: LQ.Queue, a: LQ.Action)
    requires LQ.Enabled(q, a) && (a.Arrive? || a.TouchedByClient? || a.Quit?)
    ensures Shows(q, LQ.Do(q, a), q.now, EffectOf(a))
  {
    if a.Quit? { BroadcastFrame(q.(quit := true)); }
  }

  lemma ConnShows(q: LQ.Queue, a: LQ.Action)
    requires LQ.Enabled(q, a) && (a.Begin? || a.TouchedByIncoming? || a.End?)
    ensures Shows(q, LQ.Do(q, a), q.now, EffectOf(a))
  {
  }

  lemma InternalShows(q: LQ.Queue, a: LQ.Action)
    requires LQ.Enabled(q, a) && QueueInternal(a)
    ensures Shows(q, LQ.Do(q, a), q.now, EffectOf(a))
  {
    if QS.OfHandler(a) { HandlerFrame(q, a); }
    else if a.CommitAcquire? { AcquireCommitFrame(q); }
    else { IncomingFrame(q, a); }
  }

  lemma StepShows(q: LQ.Queue, a: LQ.Action, t: Time)
    requires LQ.CanStep(q, a, t)
    ensures Shows(q, LQ.Next(q, a, t), t, EffectOf(a))
  {
    if QueueInternal(a) { InternalShows(LQ.Advance(q, t), a); }
    else if a.Arrive? || a.TouchedByClient? || a.Quit? { ClientShows(LQ.Advance(q, t), a); }
    else { ConnShows(LQ.Advance(q, t), a); }
  }

  lemma QueuesStep(s: System, a: Action, t: Time)
    requires QueuesInv(s) && CanStep(s, a, t)
    ensures QueuesInv(Next(s, a, t))
  {
    if QueuePart(a).Some? {
      var l := Target(s, a);
      var q := QueueOf(s, l, t);
      assert QI.Inv(q) by { QI.InitialInv(WAIT_CAP, s.reg.idleTimeout > 0, t); }
      QS.StepInv(q, QueuePart(a).value, t);
      UpdateQueue(s.qs, l, LQ.Next(q, QueuePart(a).value, t));
    }
  }

  lemma UpdateQueue(qs: map<Lid, LQ.Queue>, l: Lid, q: LQ.Queue)
    requires (forall x :: x in qs ==> QI.Inv(qs[x])) && QI.Inv(q)
    ensures var qs' := qs[l := q]; forall x :: x in qs' ==> QI.Inv(qs'[x])
  {
  }

  lemma RegistryStep(s: System, a: Action, t: Time)
    requires R.Inv(s.reg) && CanStep(s, a, t)
    ensures R.Inv(Next(s, a, t).reg)
  {
    if RegistryPart(a).Some? { R.StepInv(s.reg, RegistryPart(a).value, t); } else { R.ClockInv(s.reg, t); }
  }

  /** What the registry does in the same step: `l` quits or appears, its
      connections begin or end; nothing else is shut down, begun or ended. */
  ghost predicate RegistryShows(reg: R.State, reg': R.State, l: Lid, e: Effect) {
    && reg'.store.Keys == reg.store.Keys + {l}
    && reg'.store[l].quit == (e.quits || (l in reg.store && reg.store[l].quit))
    && (forall x :: x in reg.store && x != l ==> reg'.store[x].quit == reg.store[x].quit)
    && reg'.inflight.Keys == reg.inflight.Keys + e.begun - e.ended
    && (forall c :: c in reg'.inflight ==> reg'.inflight[c] == if c in e.begun then l else reg.inflight[c])
  }

  ghost predicate QueueBefore(qs: map<Lid, LQ.Queue>, l: Lid, q: LQ.Queue) {
    if l in qs then q == qs[l] else q.ws == map[] && q.cs == map[] && q.cap == WAIT_CAP && !q.quit
  }

  /** One connection across a step of listener `l`. */
  lemma ConnStep(s: System, inflight: map<Cid, Lid>, l: Lid, q: LQ.Queue, q': LQ.Queue, t: Time, e: Effect, x: Lid, c: Cid)
    requires QueueBefore(s.qs, l, q) && Shows(q, q', t, e) && e.begun !! e.ended
    requires inflight.Keys == s.reg.inflight.Keys + e.begun - e.ended
    requires c in inflight ==> inflight[c] == if c in e.begun then l else s.reg.inflight[c]
    requires if c in e.begun then x == l && c !in q.cs else ConnOk(s.reg.inflight, s.qs, x, c)
    requires c in e.ended ==> x == l
    ensures ConnOk(inflight, s.qs[l := q'], x, c)
  {
  }

  lemma HomesStep(qs: map<Lid, LQ.Queue>, conns: map<Cid, Lid>, l: Lid, q: LQ.Queue, q': LQ.Queue, t: Time, e: Effect, conns': map<Cid, Lid>)
    requires HomesOk(qs, conns) && QueueBefore(qs, l, q) && Shows(q, q', t, e) && e.begun !! conns.Keys
    requires conns'.Keys == conns.Keys + e.begun
    requires forall c :: c in conns' ==> conns'[c] == if c in e.begun then l else conns[c]
    ensures HomesOk(qs[l := q'], conns')
  {
  }

  lemma ConnsStep(s: System, inflight: map<Cid, Lid>, conns: map<Cid, Lid>, l: Lid, q: LQ.Queue, q': LQ.Queue, t: Time, e: Effect)
    requires ConnsOk(s.reg.inflight, s.qs, s.conns) && QueueBefore(s.qs, l, q) && Shows(q, q', t, e)
    requires e.begun !! s.conns.Keys && e.begun !! e.ended
    requires forall c :: c in e.ended ==> c in s.conns && s.conns[c] == l
    requires inflight.Keys == s.reg.inflight.Keys + e.begun - e.ended
    requires forall c :: c in inflight ==> inflight[c] == if c in e.begun then l else s.reg.inflight[c]
    requires conns.Keys == s.conns.Keys + e.begun
    requires forall c :: c in conns ==> conns[c] == if c in e.begun then l else s.conns[c]
    ensures ConnsOk(inflight, s.qs[l := q'], conns)
  {
    HomesStep(s.qs, s.conns, l, q, q', t, e, conns);
    forall c | c in conns ensures ConnOk(inflight, s.qs[l := q'], conns[c], c) {
      ConnStep(s, inflight, l, q, q', t, e, conns[c], c);
    }
  }

  ghost predicate ClientsOk(qs: map<Lid, LQ.Queue>, clients: map<Wid, Lid>) {
    forall l, w :: l in qs && w in qs[l].ws ==> w in clients && clients[w] == l
  }

  lemma ClientsStep(qs: map<Lid, LQ.Queue>, clients: map<Wid, Lid>, l: Lid, q: LQ.Queue, q': LQ.Queue, t: Time, e: Effect, clients': map<Wid, Lid>)
    requires ClientsOk(qs, clients) && QueueBefore(qs, l, q) && Shows(q, q', t, e) && e.arrived !! clients.Keys
    requires clients'.Keys == clients.Keys + e.arrived
    requires forall w :: w in clients' ==> clients'[w] == if w in e.arrived then l else clients[w]
    ensures ClientsOk(qs[l := q'], clients')
  {
  }

  ghost predicate InStep(reg: R.State, qs: map<Lid, LQ.Queue>) {
    && qs.Keys == reg.store.Keys
    && (forall l :: l in qs ==> qs[l].quit == reg.store[l].quit && qs[l].cap == WAIT_CAP && qs[l].now <= reg.now)
  }

  lemma InStepStep(reg: R.State, reg': R.State, qs: map<Lid, LQ.Queue>, l: Lid, q: LQ.Queue, q': LQ.Queue, t: Time, e: Effect)
    requires InStep(reg, qs) && QueueBefore(qs, l, q) && Shows(q, q', t, e) && RegistryShows(reg, reg', l, e)
    requires reg.now <= reg'.now == t
    ensures InStep(reg', qs[l := q'])
  {
  }

  /** The registry's share of a step of listener `l`, seen from the queues. */
  lemma BeginShows(reg: R.State, l: Lid, c: Cid, t: Time)
    requires R.CanStep(reg, R.Begin(l, c), t)
    ensures RegistryShows(reg, R.Next(reg, R.Begin(l, c), t), l, EffectOf(LQ.Begin(c)))
  {
  }

  lemma EndShows(reg: R.State, l: Lid, c: Cid, t: Time)
    requires R.CanStep(reg, R.End(c), t) && l == reg.inflight[c] && l in reg.store
    ensures RegistryShows(reg, R.Next(reg, R.End(c), t), l, EffectOf(LQ.End(c)))
  {
  }

  lemma ShuttingShows(reg: R.State, ra: R.Action, l: Lid, t: Time)
    requires R.CanStep(reg, ra, t)
    requires (ra.CloseNext? && l == reg.closing[ra.k][0]) || (ra.QuitOnFailure? && l == ra.l)
    ensures RegistryShows(reg, R.Next(reg, ra, t), l, EffectOf(LQ.Quit))
  {
  }

  lemma JoiningShows(reg: R.State, ra: R.Action, l: Lid, t: Time, qa: LQ.Action)
    requires qa.Arrive? || qa.TouchedByClient? || qa.TouchedByIncoming?
    requires R.CanStep(reg, ra, t)
    requires (ra.GetOrCreate? && l == if ra.addr in reg.listeners then reg.listeners[ra.addr] else ra.l)
          || (ra.Touch? && l == ra.l)
    ensures RegistryShows(reg, R.Next(reg, ra, t), l, EffectOf(qa))
  {
  }

  lemma RegistryOnlyShows(s: R.State, ra: R.Action, t: Time)
    requires R.CanStep(s, ra, t) && (ra.Reap? || ra.CloseAll? || ra.AcceptFails? || ra.Unregister?)
    ensures var s' := R.Next(s, ra, t);
      && s'.store.Keys == s.store.Keys && s'.inflight == s.inflight && s'.now == t
      && forall x :: x in s.store ==> s'.store[x].quit == s.store[x].quit
  {
  }

  /** A step that moves the registry and one queue together keeps them tied. */
  lemma JointStep(s: System, reg: R.State, clients: map<Wid, Lid>, conns: map<Cid, Lid>,
                  l: Lid, q: LQ.Queue, q': LQ.Queue, t: Time, e: Effect)
    requires LinkInv(s) && QueueBefore(s.qs, l, q) && Shows(q, q', t, e)
    requires RegistryShows(s.reg, reg, l, e) && s.reg.now <= reg.now == t
    requires e.arrived !! s.clients.Keys && e.begun !! s.conns.Keys && e.begun !! e.ended
    requires forall c :: c in e.ended ==> c in s.reg.inflight && s.reg.inflight[c] == l
    requires clients.Keys == s.clients.Keys + e.arrived && conns.Keys == s.conns.Keys + e.begun
    requires forall w :: w in clients ==> clients[w] == if w in e.arrived then l else s.clients[w]
    requires forall c :: c in conns ==> conns[c] == if c in e.begun then l else s.conns[c]
    ensures LinkInv(System(reg, s.qs[l := q'], clients, conns))
  {
    InStepStep(s.reg, reg, s.qs, l, q, q', t, e);
    ClientsStep(s.qs, s.clients, l, q, q', t, e, clients);
    forall c | c in e.ended ensures c in s.conns && s.conns[c] == l {
      assert ConnOk(s.reg.inflight, s.qs, s.conns[c], c);
    }
    ConnsStep(s, reg.inflight, conns, l, q, q', t, e);
  }

  /** ... in particular when nobody new arrives ... */
  lemma PlainStep(s: System, reg: R.State, l: Lid, q': LQ.Queue, t: Time, e: Effect)
    requires LinkInv(s) && l in s.qs && Shows(s.qs[l], q', t, e) && e.arrived == {} && e.begun == {}
    requires RegistryShows(s.reg, reg, l, e) && s.reg.now <= reg.now == t
    requires forall c :: c in e.ended ==> c in s.reg.inflight && s.reg.inflight[c] == l
    ensures LinkInv(System(reg, s.qs[l := q'], s.clients, s.conns))
  {
    JointStep(s, reg, s.clients, s.conns, l, s.qs[l], q', t, e);
  }

  /** ... a connection begins ... */
  lemma BegunStep(s: System, reg: R.State, l: Lid, q': LQ.Queue, t: Time, c: Cid, e: Effect)
    requires LinkInv(s) && l in s.qs && c !in s.conns && Shows(s.qs[l], q', t, e) && e == Effect(false, {}, {c}, {})
    requires RegistryShows(s.reg, reg, l, e) && s.reg.now <= reg.now == t
    ensures LinkInv(System(reg, s.qs[l := q'], s.clients, s.conns[c := l]))
  {
    JointStep(s, reg, s.clients, s.conns[c := l], l, s.qs[l], q', t, e);
  }

  lemma NobodyBeginsStep(s: System, reg: R.State, l: Lid, q: LQ.Queue, q': LQ.Queue, t: Time, e: Effect)
    requires LinkInv(s) && QueueBefore(s.qs, l, q) && Shows(q, q', t, e) && e.begun == {} && e.ended == {}
    requires RegistryShows(s.reg, reg, l, e)
    ensures ConnsOk(reg.inflight, s.qs[l := q'], s.conns)
  {
    ConnsStep(s, reg.inflight, s.conns, l, q, q', t, e);
  }

  /** ... or a client arrives. */
  lemma ArrivedStep(s: System, reg: R.State, l: Lid, q: LQ.Queue, q': LQ.Queue, t: Time, w: Wid, e: Effect)
    requires LinkInv(s) && QueueBefore(s.qs, l, q) && w !in s.clients && Shows(q, q', t, e) && e == Effect(false, {w}, {}, {})
    requires RegistryShows(s.reg, reg, l, e) && s.reg.now <= reg.now == t
    ensures LinkInv(System(reg, s.qs[l := q'], s.clients[w := l], s.conns))
  {
    InStepStep(s.reg, reg, s.qs, l, q, q', t, e);
    ClientsStep(s.qs, s.clients, l, q, q', t, e, s.clients[w := l]);
    NobodyBeginsStep(s, reg, l, q, q', t, e);
  }

  lemma ClockOnly(s: System, reg: R.State)
    requires LinkInv(s) && s.reg.now <= reg.now && reg.store.Keys == s.reg.store.Keys && reg.inflight == s.reg.inflight
    requires forall x :: x in s.reg.store ==> reg.store[x].quit == s.reg.store[x].quit
    ensures LinkInv(s.(reg := reg))
  {
  }

  lemma ArriveLinks(s: System, ra: R.Action, l: Lid, w: Wid, t: Time)
    requires LinkInv(s) && s.reg.now <= t && R.CanStep(s.reg, ra, t) && ra.GetOrCreate? && w !in s.clients
    requires l == (if ra.addr in s.reg.listeners then s.reg.listeners[ra.addr] else ra.l)
    requires LQ.CanStep(QueueOf(s, l, t), LQ.Arrive(w), t)
    ensures LinkInv(System(R.Next(s.reg, ra, t), s.qs[l := LQ.Next(QueueOf(s, l, t), LQ.Arrive(w), t)], s.clients[w := l], s.conns))
  {
    var q := QueueOf(s, l, t);
    StepShows(q, LQ.Arrive(w), t);
    JoiningShows(s.reg, ra, l, t, LQ.Arrive(w));
    ArrivedStep(s, R.Next(s.reg, ra, t), l, q, LQ.Next(q, LQ.Arrive(w), t), t, w, EffectOf(LQ.Arrive(w)));
  }

  lemma TouchLinks(s: System, l: Lid, qa: LQ.Action, t: Time)
    requires LinkInv(s) && s.reg.now <= t && R.CanStep(s.reg, R.Touch(l), t)
    requires l in s.qs && (qa.TouchedByClient? || qa.TouchedByIncoming?) && LQ.CanStep(s.qs[l], qa, t)
    ensures LinkInv(System(R.Next(s.reg, R.Touch(l), t), s.qs[l := LQ.Next(s.qs[l], qa, t)], s.clients, s.conns))
  {
    StepShows(s.qs[l], qa, t);
    JoiningShows(s.reg, R.Touch(l), l, t, qa);
    PlainStep(s, R.Next(s.reg, R.Touch(l), t), l, LQ.Next(s.qs[l], qa, t), t, EffectOf(qa));
  }

  lemma AcceptLinks(s: System, l: Lid, c: Cid, t: Time)
    requires LinkInv(s) && s.reg.now <= t && R.CanStep(s.reg, R.Begin(l, c), t)
    requires l in s.qs && c !in s.conns && LQ.CanStep(s.qs[l], LQ.Begin(c), t)
    ensures LinkInv(System(R.Next(s.reg, R.Begin(l, c), t), s.qs[l := LQ.Next(s.qs[l], LQ.Begin(c), t)], s.clients, s.conns[c := l]))
  {
    StepShows(s.qs[l], LQ.Begin(c), t);
    BeginShows(s.reg, l, c, t);
    BegunStep(s, R.Next(s.reg, R.Begin(l, c), t), l, LQ.Next(s.qs[l], LQ.Begin(c), t), t, c, EffectOf(LQ.Begin(c)));
  }

  lemma EndLinks(s: System, l: Lid, c: Cid, t: Time)
    requires LinkInv(s) && s.reg.now <= t && R.CanStep(s.reg, R.End(c), t)
    requires l in s.qs && s.reg.inflight[c] == l && LQ.CanStep(s.qs[l], LQ.End(c), t)
    ensures LinkInv(System(R.Next(s.reg, R.End(c), t), s.qs[l := LQ.Next(s.qs[l], LQ.End(c), t)], s.clients, s.conns))
  {
    StepShows(s.qs[l], LQ.End(c), t);
    EndShows(s.reg, l, c, t);
    PlainStep(s, R.Next(s.reg, R.End(c), t), l, LQ.Next(s.qs[l], LQ.End(c), t), t, EffectOf(LQ.End(c)));
  }

  lemma ShutLinks(s: System, ra: R.Action, l: Lid, t: Time)
    requires LinkInv(s) && s.reg.now <= t && R.CanStep(s.reg, ra, t) && (ra.CloseNext? || ra.QuitOnFailure?)
    requires l in s.qs && l == (if ra.CloseNext? then s.reg.closing[ra.k][0] else ra.l) && LQ.CanStep(s.qs[l], LQ.Quit, t)
    ensures LinkInv(System(R.Next(s.reg, ra, t), s.qs[l := LQ.Next(s.qs[l], LQ.Quit, t)], s.clients, s.conns))
  {
    var q := s.qs[l];
    StepShows(q, LQ.Quit, t);
    ShuttingShows(s.reg, ra, l, t);
    PlainStep(s, R.Next(s.reg, ra, t), l, LQ.Next(q, LQ.Quit, t), t, EffectOf(LQ.Quit));
  }

  lemma QueueOnlyLinks(s: System, l: Lid, qa: LQ.Action, t: Time)
    requires LinkInv(s) && s.reg.now <= t && l in s.qs && QueueInternal(qa) && LQ.CanStep(s.qs[l], qa, t)
    ensures LinkInv(System(s.reg.(now := t), s.qs[l := LQ.Next(s.qs[l], qa, t)], s.clients, s.conns))
  {
    var q := s.qs[l];
    StepShows(q, qa, t);
    PlainStep(s, s.reg.(now := t), l, LQ.Next(q, qa, t), t, EffectOf(qa));
  }

  lemma ClientLinksStep(s: System, a: Action, t: Time)
    requires LinkInv(s) && CanStep(s, a, t) && (a.ClientArrives? || a.ClientTouches? || a.QueueOnly?)
    ensures LinkInv(Next(s, a, t))
  {
    if a.ClientArrives? { ArriveLinks(s, R.GetOrCreate(a.addr, a.protocol, a.created), Target(s, a), a.w, t); }
    else if a.ClientTouches? { TouchLinks(s, a.l, LQ.TouchedByClient(a.w), t); }
    else { QueueOnlyLinks(s, a.l, a.qa, t); }
  }

  lemma ConnLinksStep(s: System, a: Action, t: Time)
    requires LinkInv(s) && CanStep(s, a, t) && (a.Accepts? || a.IncomingTouches? || a.IncomingEnds?)
    ensures LinkInv(Next(s, a, t))
  {
    if a.Accepts? { AcceptLinks(s, a.l, a.c, t); }
    else if a.IncomingTouches? { TouchLinks(s, a.l, LQ.TouchedByIncoming(a.c), t); }
    else { EndLinks(s, a.l, a.c, t); }
  }

  lemma LifecycleLinksStep(s: System, a: Action, t: Time)
    requires LinkInv(s) && CanStep(s, a, t) && (a.ShutsDown? || a.ShutsDownOnFailure? || a.RegistryOnly?)
    ensures LinkInv(Next(s, a, t))
  {
    if a.ShutsDown? { ShutLinks(s, R.CloseNext(a.k), s.reg.closing[a.k][0], t); }
    else if a.ShutsDownOnFailure? { ShutLinks(s, R.QuitOnFailure(a.l), a.l, t); }
    else { RegistryOnlyShows(s.reg, a.ra, t); ClockOnly(s, R.Next(s.reg, a.ra, t)); }
  }

  lemma LinksStep(s: System, a: Action, t: Time)
    requires LinkInv(s) && CanStep(s, a, t)
    ensures LinkInv(Next(s, a, t))
  {
    if a.ClientArrives? || a.ClientTouches? || a.QueueOnly? { ClientLinksStep(s, a, t); }
    else if a.Accepts? || a.IncomingTouches? || a.IncomingEnds? { ConnLinksStep(s, a, t); }
    else { LifecycleLinksStep(s, a, t); }
  }

  /** Every step of the manager keeps the invariant. */
  lemma StepInv(s: System, a: Action, t: Time)
    requires Inv(s) && CanStep(s, a, t)
    ensures Inv(Next(s, a, t))
  {
    QueuesStep(s, a, t);
    RegistryStep(s, a, t);
    LinksStep(s, a, t);
  }
}
