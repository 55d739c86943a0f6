/** What holds of the whole manager in every reachable state and along every run. */
module ManagerTheorems {
  import opened Wrappers
  import opened Sequences
  import LQ = ListenerQueue
  import QI = QueueInvariants
  import QT = QueueTheorems
  import R = Registry
  import opened Rendezvous

  datatype Event = Event(a: Action, t: Time)

  ghost predicate Steps(s: System, e: Event, s': System) {
    CanStep(s, e.a, e.t) && s' == Next(s, e.a, e.t)
  }

  ghost predicate Trace(ss: seq<System>, es: seq<Event>) {
    |ss| == |es| + 1 && forall i {:trigger es[i]} :: 0 <= i < |es| ==> Steps(ss[i], es[i], ss[i + 1])
  }

  /** Some run of a manager with some idle timeout ends in `s`. */
  ghost predicate Reachable(s: System) {
    exists idleTimeout, t0, ss, es :: Trace(ss, es) && ss[0] == Initial(idleTimeout, t0) && ss[|es|] == s
  }

  lemma InitialInv(idleTimeout: Time, t0: Time)
    ensures Inv(Initial(idleTimeout, t0))
  {
    R.InitialInv(idleTimeout, t0);
  }

  lemma StepAt(ss: seq<System>, es: seq<Event>, i: nat)
    requires Trace(ss, es) && i < |es| && Inv(ss[i])
    ensures Inv(ss[i + 1])
  {
    assert Steps(ss[i], es[i], ss[i + 1]);
    StepInv(ss[i], es[i].a, es[i].t);
  }

  lemma {:induction false} TraceKeepsInv(ss: seq<System>, es: seq<Event>, k: nat)
    requires Trace(ss, es) && Inv(ss[0]) && k <= |es|
    ensures Inv(ss[k])
  {
    if k > 0 {
      TraceKeepsInv(ss, es, k - 1);
      StepAt(ss, es, k - 1);
    }
  }

  lemma ReachableInv(s: System)
    requires Reachable(s)
    ensures Inv(s)
  {
    var idleTimeout, t0, ss, es :| Trace(ss, es) && ss[0] == Initial(idleTimeout, t0) && ss[|es|] == s;
    InitialInv(idleTimeout, t0);
    TraceKeepsInv(ss, es, |es|);
  }

  /** No client tunnel is ever paired with two incoming connections, on whatever
      listeners. */
  lemma NoSharedClient(s: System, l: Lid, c: Cid, l': Lid, c': Cid)
    requires Reachable(s)
    requires l in s.qs && c in s.qs[l].cs && l' in s.qs && c' in s.qs[l'].cs
    requires s.qs[l].cs[c].got.Some? && s.qs[l].cs[c].got == s.qs[l'].cs[c'].got
    ensures l == l' && c == c'
  {
    ReachableInv(s);
    var w := s.qs[l].cs[c].got.value;
    assert w in s.qs[l].ws && s.qs[l].ws[w].takenBy == Some(c) by { assert QI.Inv(s.qs[l]); }
    assert w in s.qs[l'].ws && s.qs[l'].ws[w].takenBy == Some(c') by { assert QI.Inv(s.qs[l']); }
  }

  /** The connections of a listener whose goroutine still runs. */
  ghost function Busy(q: LQ.Queue): set<Cid> { set c | c in q.cs && q.cs[c].pc != LQ.Gone }

  lemma BusyIsInFlight(s: System, l: Lid)
    requires LinkInv(s) && l in s.qs
    ensures Busy(s.qs[l]) == R.InFlightAt(s.reg, l)
  {
    forall c ensures c in Busy(s.qs[l]) <==> c in R.InFlightAt(s.reg, l) {
      if c in s.conns { assert ConnOk(s.reg.inflight, s.qs, s.conns[c], c); }
    }
  }

  /** While a listener is registered, `active` counts its running connections. */
  lemma ActiveIsExact(s: System, l: Lid)
    requires Reachable(s) && R.Registered(s.reg, l)
    ensures l in s.qs && s.reg.store[l].active == |Busy(s.qs[l])|
  {
    ReachableInv(s);
    BusyIsInFlight(s, l);
  }

  /** `active` is never negative, registered or not. */
  lemma ActiveNeverNegative(s: System, l: Lid)
    requires Reachable(s) && l in s.reg.store
    ensures s.reg.store[l].active >= 0
  {
    ReachableInv(s);
  }

  /** The reaper never removes a listener with a connection in flight. */
  lemma ReaperSparesBusy(s: System, stale: seq<Lid>, at: Time, t: Time, l: Lid)
    requires Reachable(s) && CanStep(s, RegistryOnly(R.Reap(stale, at)), t) && l in stale
    ensures l in s.qs && Busy(s.qs[l]) == {}
    ensures R.Registered(s.reg, l) && !R.Registered(Next(s, RegistryOnly(R.Reap(stale, at)), t).reg, l)
  {
    assert R.Stale(s.reg.(now := at), l);
    ActiveIsExact(s, l);
  }

  /** The exit of a dying listener takes itself off the registry and nobody else,
      in particular no successor at the same address. */
  lemma ExitSparesOthers(s: System, l: Lid, t: Time, x: Lid)
    requires Reachable(s) && CanStep(s, RegistryOnly(R.Unregister(l)), t)
    ensures R.Registered(Next(s, RegistryOnly(R.Unregister(l)), t).reg, x) <==> R.Registered(s.reg, x) && x != l
  {
    assert R.Inv(s.reg.(now := t)) by { ReachableInv(s); R.ClockInv(s.reg, t); }
    R.UnregisterOnly(s.reg.(now := t), l, x);
  }

  /** A listener off the registry is shut down, or some goroutine holds it in the
      list of listeners it is about to shut down. */
  lemma UnregisteredIsShut(s: System, l: Lid)
    requires Reachable(s) && l in s.qs && !R.Registered(s.reg, l)
    ensures s.qs[l].quit || exists k :: k in s.reg.closing && l in s.reg.closing[k]
  {
    ReachableInv(s);
    assert R.ShutOrPending(s.reg, l);
  }

  lemma StaysUnregistered(reg: R.State, ra: R.Action, t: Time, l: Lid)
    requires R.Inv(reg) && R.CanStep(reg, ra, t) && l in reg.store && !R.Registered(reg, l)
    ensures l in R.Next(reg, ra, t).store && !R.Registered(R.Next(reg, ra, t), l)
  {
  }

  ghost predicate OffRegistry(s: System, l: Lid) {
    R.Inv(s.reg) && l in s.reg.store && !R.Registered(s.reg, l)
  }

  lemma StepStaysUnregistered(s: System, a: Action, t: Time, l: Lid)
    requires OffRegistry(s, l) && CanStep(s, a, t)
    ensures OffRegistry(Next(s, a, t), l)
  {
    RegistryStep(s, a, t);
    if RegistryPart(a).Some? { StaysUnregistered(s.reg, RegistryPart(a).value, t, l); }
  }

  lemma {:induction false} UnregisteredAlong(ss: seq<System>, es: seq<Event>, l: Lid, k: nat)
    requires Trace(ss, es) && OffRegistry(ss[0], l) && k <= |es|
    ensures OffRegistry(ss[k], l)
  {
    if k > 0 {
      UnregisteredAlong(ss, es, l, k - 1);
      assert Steps(ss[k - 1], es[k - 1], ss[k]);
      StepStaysUnregistered(ss[k - 1], es[k - 1].a, es[k - 1].t, l);
    }
  }

  /** Once off the registry, always off the registry. */
  lemma NeverRegisteredAgain(ss: seq<System>, es: seq<Event>, l: Lid, k: nat)
    requires Trace(ss, es) && Reachable(ss[0]) && l in ss[0].reg.store && !R.Registered(ss[0].reg, l) && k <= |es|
    ensures l in ss[k].reg.store && !R.Registered(ss[k].reg, l)
  {
    ReachableInv(ss[0]);
    UnregisteredAlong(ss, es, l, k);
  }

  lemma ShutQueueStep(s: System, a: Action, t: Time, l: Lid)
    requires CanStep(s, a, t) && l in s.qs && s.qs[l].quit
    ensures var s' := Next(s, a, t);
      && l in s'.qs && s'.qs[l].quit && s'.qs[l].enqLog == s.qs[l].enqLog && Subseq(s'.qs[l].waiting, s.qs[l].waiting)
  {
    SubseqRefl(s.qs[l].waiting);
    if QueuePart(a).Some? && Target(s, a) == l { QT.QuitStep(s.qs[l], QueuePart(a).value, t); }
  }

  /** Along every run, the queue of a listener that was shut down never grows. */
  lemma {:induction false} ShutQueueNeverGrows(ss: seq<System>, es: seq<Event>, l: Lid, k: nat)
    requires Trace(ss, es) && l in ss[0].qs && ss[0].qs[l].quit && k <= |es|
    ensures l in ss[k].qs && ss[k].qs[l].quit
    ensures ss[k].qs[l].enqLog == ss[0].qs[l].enqLog && Subseq(ss[k].qs[l].waiting, ss[0].qs[l].waiting)
  {
    if k == 0 {
      SubseqRefl(ss[0].qs[l].waiting);
    } else {
      ShutQueueNeverGrows(ss, es, l, k - 1);
      ShutQueueStep(ss[k - 1], es[k - 1].a, es[k - 1].t, l);
      SubseqTrans(ss[k].qs[l].waiting, ss[k - 1].qs[l].waiting, ss[0].qs[l].waiting);
    }
  }

  ghost predicate AllReachable(qs: map<Lid, LQ.Queue>) { forall l :: l in qs ==> QT.Reachable(qs[l]) }

  lemma AllReachableSet(qs: map<Lid, LQ.Queue>, l: Lid, q: LQ.Queue)
    requires AllReachable(qs) && QT.Reachable(q)
    ensures AllReachable(qs[l := q])
  {
  }

  lemma QueueStepReachable(s: System, l: Lid, qa: LQ.Action, t: Time)
    requires AllReachable(s.qs) && LQ.CanStep(QueueOf(s, l, t), qa, t)
    ensures AllReachable(s.qs[l := LQ.Next(QueueOf(s, l, t), qa, t)])
  {
    QT.InitialReachable(WAIT_CAP, s.reg.idleTimeout > 0, t);
    QT.ReachableStep(QueueOf(s, l, t), qa, t);
    AllReachableSet(s.qs, l, LQ.Next(QueueOf(s, l, t), qa, t));
  }

  lemma StepKeepsReachable(s: System, a: Action, t: Time)
    requires AllReachable(s.qs) && CanStep(s, a, t)
    ensures AllReachable(Next(s, a, t).qs)
  {
    if QueuePart(a).Some? { QueueStepReachable(s, Target(s, a), QueuePart(a).value, t); }
  }

  lemma {:induction false} TraceKeepsReachable(ss: seq<System>, es: seq<Event>, k: nat)
    requires Trace(ss, es) && ss[0].qs == map[] && k <= |es|
    ensures AllReachable(ss[k].qs)
  {
    if k > 0 {
      TraceKeepsReachable(ss, es, k - 1);
      assert Steps(ss[k - 1], es[k - 1], ss[k]);
      StepKeepsReachable(ss[k - 1], es[k - 1].a, es[k - 1].t);
    }
  }

  /** What a listener does inside a running manager it does by itself: its queue
      is reachable, with room for ten clients.  So whatever holds of every
      reachable queue, no lost wakeup first of all, holds of every listener. */
  lemma EveryListener(s: System, l: Lid)
    requires Reachable(s) && l in s.qs
    ensures QT.Reachable(s.qs[l]) && s.qs[l].cap == 10
  {
    ReachableInv(s);
    var idleTimeout, t0, ss, es :| Trace(ss, es) && ss[0] == Initial(idleTimeout, t0) && ss[|es|] == s;
    TraceKeepsReachable(ss, es, |es|);
  }

  /** Listeners are keyed by address alone: a client is served by a listener of
      its own protocol exactly when its address is free or held by such a one. */
  lemma JoinsByAddressAlone(s: System, a: Action, t: Time)
    requires Reachable(s) && CanStep(s, a, t) && a.ClientArrives?
    ensures var s' := Next(s, a, t);
      && a.w in s'.clients && s'.clients[a.w] in s'.reg.store
      && (s'.reg.store[s'.clients[a.w]].protocol == a.protocol <==>
            (a.addr in s.reg.listeners ==> s.reg.store[s.reg.listeners[a.addr]].protocol == a.protocol))
  {
    ReachableInv(s);
  }

  lemma ReachableStep(s: System, a: Action, t: Time)
    requires Reachable(s) && CanStep(s, a, t)
    ensures Reachable(Next(s, a, t))
  {
    var idleTimeout, t0, ss, es :| Trace(ss, es) && ss[0] == Initial(idleTimeout, t0) && ss[|es|] == s;
    var ss', es' := ss + [Next(s, a, t)], es + [Event(a, t)];
    assert Trace(ss', es') && ss'[0] == Initial(idleTimeout, t0) && ss'[|es'|] == Next(s, a, t);
  }

  lemma EmptyReachable(idleTimeout: Time, t0: Time)
    ensures Reachable(Initial(idleTimeout, t0))
  {
    var s := Initial(idleTimeout, t0);
    assert Trace([s], []) && [s][0] == s;
  }

  const ADDRESS := "0.0.0.0:80"

  /** A manager whose first client made it listen for TCP connections. */
  lemma OneTcpListener() returns (s: System)
    ensures Reachable(s) && s.reg.now == 0 && s.clients.Keys == {0}
    ensures s.reg.listeners == map[ADDRESS := 0] && 0 in s.reg.store && s.reg.store[0].protocol == R.ReverseTcp
    ensures 0 in s.qs && s.qs[0].ws.Keys == {0} && s.qs[0].now == 0
  {
    var s0, a := Initial(0, 0), ClientArrives(ADDRESS, R.ReverseTcp, 0, 0);
    EmptyReachable(0, 0);
    ReachableStep(s0, a, 0);
    s := Next(s0, a, 0);
  }

  /** And clients do end up with a listener of another protocol: a SOCKS5 client
      that asks for the address where a TCP listener is already bound. */
  lemma JoinsAnotherProtocol() returns (before: System, a: Action, after: System)
    ensures Reachable(before) && CanStep(before, a, 0) && after == Next(before, a, 0) && Reachable(after)
    ensures a.ClientArrives? && a.protocol == R.ReverseSocks5
    ensures a.w in after.clients && after.clients[a.w] in after.reg.store
    ensures after.reg.store[after.clients[a.w]].protocol == R.ReverseTcp
  {
    before := OneTcpListener();
    a := ClientArrives(ADDRESS, R.ReverseSocks5, 1, 1);
    assert LQ.CanStep(before.qs[0], LQ.Arrive(1), 0);
    assert CanStep(before, a, 0);
    after := Next(before, a, 0);
    ReachableStep(before, a, 0);
  }
}
