/** The manager's listener registry as a transition system: one step per critical
    section of `m.mu`, and one per listener that a closing goroutine shuts down. */
module Registry {
  import opened Sequences

  type Lid = nat   // a tunnelListener
  type Cid = nat   // an incoming connection
  type Kid = nat   // a goroutine closing listeners
  type Time = int

  const REAPER: Kid := 0

  datatype Protocol = ReverseTcp | ReverseUdp | ReverseSocks5 | ReverseHttpProxy | ReverseUnix

  /** Where a listener's accept loop is. */
  datatype Loop = Accepting | AcceptFailed | Unregistering | Exited

  datatype Listener = Listener(addr: string, protocol: Protocol, lastUsed: Time, active: int, quit: bool, loop: Loop)

  /** `inflight`: incoming connections begun and not yet ended.  `closing`: the
      listeners each closing goroutine has removed and still has to shut down. */
  datatype State = State(
    idleTimeout: Time, listeners: map<string, Lid>, store: map<Lid, Listener>,
    inflight: map<Cid, Lid>, closing: map<Kid, seq<Lid>>, now: Time)

  datatype Action =
    | GetOrCreate(addr: string, protocol: Protocol, l: Lid)
    | Touch(l: Lid)
    | Begin(l: Lid, c: Cid)
    | End(c: Cid)
    | Reap(stale: seq<Lid>, at: Time)   // the clock as read before taking the lock
    | CloseAll(k: Kid, all: seq<Lid>)
    | CloseNext(k: Kid)
    | AcceptFails(l: Lid)
    | QuitOnFailure(l: Lid)
    | Unregister(l: Lid)

  predicate Registered(s: State, l: Lid) {
    l in s.store && s.store[l].addr in s.listeners && s.listeners[s.store[l].addr] == l
  }

  /** The reaper's test: no counted connection and unused for the idle timeout. */
  predicate Stale(s: State, l: Lid) {
    Registered(s, l) && s.store[l].active <= 0 && s.idleTimeout <= s.now - s.store[l].lastUsed
  }

  function Initial(idleTimeout: Time, now: Time): State {
    State(idleTimeout, map[], map[], map[], map[], now)
  }

  predicate Idle(s: State, k: Kid) { k !in s.closing || s.closing[k] == [] }

  ghost predicate Enabled(s: State, a: Action) {
    match a
    case GetOrCreate(addr, _, l) => if addr in s.listeners then s.listeners[addr] in s.store else l !in s.store
    case Touch(l) => l in s.store
    case Begin(l, c) => l in s.store && s.store[l].loop == Accepting && c !in s.inflight
    case End(c) => c in s.inflight && s.inflight[c] in s.store
    case Reap(stale, at) =>
      && s.idleTimeout > 0 && at <= s.now && Idle(s, REAPER) && NoDup(stale)
      && forall l :: l in stale <==> Stale(s.(now := at), l)
    case CloseAll(k, all) => k != REAPER && k !in s.closing && NoDup(all) && forall l :: l in all <==> Registered(s, l)
    case CloseNext(k) => !Idle(s, k) && s.closing[k][0] in s.store
    case AcceptFails(l) => l in s.store && s.store[l].loop == Accepting
    case QuitOnFailure(l) => l in s.store && s.store[l].loop == AcceptFailed
    case Unregister(l) => l in s.store && s.store[l].loop == Unregistering
  }

  function SetListener(s: State, l: Lid, r: Listener): State { s.(store := s.store[l := r]) }

  /** The listeners in `gone` leave the registry. */
  function Without(listeners: map<string, Lid>, gone: seq<Lid>): map<string, Lid> {
    map a | a in listeners && listeners[a] !in gone :: listeners[a]
  }

  /** updateActivePipes and beginIncoming: skipped once the listener is unregistered. */
  function Counted(s: State, l: Lid, delta: int): State
    requires l in s.store
  {
    if Registered(s, l)
    then SetListener(s, l, s.store[l].(active := s.store[l].active + delta, lastUsed := s.now))
    else s
  }

  function Do(s: State, a: Action): State
    requires Enabled(s, a)
  {
    match a
    case GetOrCreate(addr, protocol, l) =>
      if addr in s.listeners
      then SetListener(s, s.listeners[addr], s.store[s.listeners[addr]].(lastUsed := s.now))
      else s.(listeners := s.listeners[addr := l],
              store := s.store[l := Listener(addr, protocol, s.now, 0, false, Accepting)])
    case Touch(l) => if Registered(s, l) then SetListener(s, l, s.store[l].(lastUsed := s.now)) else s
    case Begin(l, c) => Counted(s, l, 1).(inflight := s.inflight[c := l])
    case End(c) => Counted(s, s.inflight[c], -1).(inflight := s.inflight - {c})
    case Reap(stale, _) => s.(listeners := Without(s.listeners, stale), closing := s.closing[REAPER := stale])
    case CloseAll(k, all) => s.(listeners := Without(s.listeners, all), closing := s.closing[k := all])
    case CloseNext(k) =>
      var l := s.closing[k][0];
      SetListener(s, l, s.store[l].(quit := true)).(closing := s.closing[k := s.closing[k][1..]])
    case AcceptFails(l) => SetListener(s, l, s.store[l].(loop := AcceptFailed))
    case QuitOnFailure(l) => SetListener(s, l, s.store[l].(quit := true, loop := Unregistering))
    case Unregister(l) =>
      var s' := SetListener(s, l, s.store[l].(loop := Exited));
      if Registered(s, l) then s'.(listeners := s.listeners - {s.store[l].addr}) else s'
  }

  ghost predicate CanStep(s: State, a: Action, t: Time) { s.now <= t && Enabled(s.(now := t), a) }

  function Next(s: State, a: Action, t: Time): State
    requires CanStep(s, a, t)
  {
    Do(s.(now := t), a)
  }

  // ------------------------------------------------------------ invariant

  ghost function InFlightAt(s: State, l: Lid): set<Cid> { set c | c in s.inflight && s.inflight[c] == l }

  /** An unregistered listener is shut down, or some goroutine is about to. */
  ghost predicate ShutOrPending(s: State, l: Lid) {
    l in s.store && (s.store[l].quit || exists k :: k in s.closing && l in s.closing[k])
  }

  ghost predicate CountsOk(s: State) {
    forall l :: l in s.store && Registered(s, l) ==> s.store[l].active == |InFlightAt(s, l)|
  }

  ghost predicate PendingOk(s: State) {
    forall l :: l in s.store && !Registered(s, l) ==> ShutOrPending(s, l)
  }

  ghost predicate Inv(s: State) {
    && (forall a :: a in s.listeners ==> s.listeners[a] in s.store && s.store[s.listeners[a]].addr == a)
    && (forall c :: c in s.inflight ==> s.inflight[c] in s.store)
    && (forall k :: k in s.closing ==> forall l :: l in s.closing[k] ==> l in s.store)
    && CountsOk(s)
    && (forall l :: l in s.store ==> s.store[l].active >= 0)
    && PendingOk(s)
    && (forall l :: l in s.store && s.store[l].loop in {Unregistering, Exited} ==> s.store[l].quit)
    && (forall l :: l in s.store && s.store[l].loop == Exited ==> !Registered(s, l))
  }

  lemma InitialInv(idleTimeout: Time, now: Time)
    ensures Inv(Initial(idleTimeout, now))
  {
  }

  /** Steps that change one listener but neither registration nor counting. */
  lemma SetListenerInv(s: State, l: Lid, r: Listener)
    requires Inv(s) && l in s.store && r.addr == s.store[l].addr && r.active == s.store[l].active
    requires s.store[l].quit ==> r.quit
    requires r.loop in {Unregistering, Exited} ==> r.quit
    requires r.loop == Exited ==> !Registered(s, l)
    ensures Inv(SetListener(s, l, r))
    ensures forall x :: Registered(SetListener(s, l, r), x) <==> Registered(s, x)
  {
    var s' := SetListener(s, l, r);
    forall x ensures Registered(s', x) <==> Registered(s, x) {}
    forall x | x in s'.store && Registered(s', x) ensures s'.store[x].active == |InFlightAt(s', x)| {
      assert InFlightAt(s', x) == InFlightAt(s, x);
    }
    forall x | x in s'.store && !Registered(s', x) ensures ShutOrPending(s', x) {
      assert ShutOrPending(s, x);
    }
  }

  lemma CountedRegistered(s: State, l: Lid, delta: int, x: Lid)
    requires l in s.store
    ensures Registered(Counted(s, l, delta), x) <==> Registered(s, x)
  {
  }

  lemma CountedPending(s: State, l: Lid, delta: int, inflight: map<Cid, Lid>)
    requires PendingOk(s) && l in s.store
    ensures PendingOk(Counted(s, l, delta).(inflight := inflight))
  {
    var s' := Counted(s, l, delta).(inflight := inflight);
    forall x | x in s'.store && !Registered(s', x) ensures ShutOrPending(s', x) {
      CountedRegistered(s, l, delta, x);
      assert ShutOrPending(s, x);
    }
  }

  /** The new connections change the count of `l` by `delta` and no other. */
  ghost predicate CountMoves(s: State, l: Lid, delta: int, inflight: map<Cid, Lid>) {
    var s' := s.(inflight := inflight);
    && |InFlightAt(s', l)| == |InFlightAt(s, l)| + delta
    && forall x :: x in s.store && x != l ==> InFlightAt(s', x) == InFlightAt(s, x)
  }

  lemma CountedCounts(s: State, l: Lid, delta: int, inflight: map<Cid, Lid>)
    requires CountsOk(s) && l in s.store && CountMoves(s, l, delta, inflight)
    ensures CountsOk(Counted(s, l, delta).(inflight := inflight))
  {
    var s' := Counted(s, l, delta).(inflight := inflight);
    forall x | x in s'.store && Registered(s', x) ensures s'.store[x].active == |InFlightAt(s', x)| {
      CountedRegistered(s, l, delta, x);
      assert InFlightAt(s', x) == InFlightAt(s.(inflight := inflight), x);
    }
  }

  lemma CountedPlain(s: State, l: Lid, delta: int, inflight: map<Cid, Lid>)
    requires Inv(s) && l in s.store && forall c :: c in inflight ==> inflight[c] in s.store
    requires Registered(s, l) ==> s.store[l].active + delta >= 0
    ensures
      var s' := Counted(s, l, delta).(inflight := inflight);
      CountsOk(s') && PendingOk(s') ==> Inv(s')
  {
    forall x ensures Registered(Counted(s, l, delta), x) <==> Registered(s, x) { CountedRegistered(s, l, delta, x); }
  }

  /** The counter and the connections it counts move together. */
  lemma CountedInv(s: State, l: Lid, delta: int, inflight: map<Cid, Lid>)
    requires Inv(s) && l in s.store && forall c :: c in inflight ==> inflight[c] in s.store
    requires CountMoves(s, l, delta, inflight)
    ensures Inv(Counted(s, l, delta).(inflight := inflight))
  {
    CountedCounts(s, l, delta, inflight);
    CountedPending(s, l, delta, inflight);
    CountedPlain(s, l, delta, inflight);
  }

  lemma BeginInv(s: State, l: Lid, c: Cid)
    requires Inv(s) && Enabled(s, Begin(l, c))
    ensures Inv(Do(s, Begin(l, c)))
  {
    var s' := s.(inflight := s.inflight[c := l]);
    assert InFlightAt(s', l) == InFlightAt(s, l) + {c};
    forall x | x in s.store && x != l ensures InFlightAt(s', x) == InFlightAt(s, x) {}
    CountedInv(s, l, 1, s.inflight[c := l]);
  }

  lemma EndInv(s: State, c: Cid)
    requires Inv(s) && Enabled(s, End(c))
    ensures Inv(Do(s, End(c)))
  {
    var l := s.inflight[c];
    var s' := s.(inflight := s.inflight - {c});
    assert c in InFlightAt(s, l) && InFlightAt(s', l) == InFlightAt(s, l) - {c};
    forall x | x in s.store && x != l ensures InFlightAt(s', x) == InFlightAt(s, x) {}
    CountedInv(s, l, -1, s.inflight - {c});
  }

  /** Removing listeners hands them to a closing goroutine. */
  lemma RemoveInv(s: State, k: Kid, gone: seq<Lid>)
    requires Inv(s) && Idle(s, k) && forall l :: l in gone ==> Registered(s, l)
    ensures var s' := s.(listeners := Without(s.listeners, gone), closing := s.closing[k := gone]);
      && Inv(s')
      && forall l :: Registered(s', l) <==> Registered(s, l) && l !in gone
  {
    var s' := s.(listeners := Without(s.listeners, gone), closing := s.closing[k := gone]);
    forall l ensures Registered(s', l) <==> Registered(s, l) && l !in gone {}
    forall x | x in s'.store && Registered(s', x) ensures s'.store[x].active == |InFlightAt(s', x)| {
      assert InFlightAt(s', x) == InFlightAt(s, x);
    }
    forall x | x in s'.store && !Registered(s', x) ensures ShutOrPending(s', x) {
      if x in gone {
        assert x in s'.closing[k];
      } else {
        assert ShutOrPending(s, x);
        if !s.store[x].quit {
          var k' :| k' in s.closing && x in s.closing[k'];
          assert k' in s'.closing && x in s'.closing[k'];
        }
      }
    }
  }

  lemma PoppedPending(s: State, k: Kid)
    requires PendingOk(s) && k in s.closing && s.closing[k] != [] && s.closing[k][0] in s.store
    requires s.store[s.closing[k][0]].quit
    ensures PendingOk(s.(closing := s.closing[k := s.closing[k][1..]]))
  {
    var s' := s.(closing := s.closing[k := s.closing[k][1..]]);
    forall x | x in s'.store && !Registered(s', x) ensures ShutOrPending(s', x) {
      assert !Registered(s, x) && ShutOrPending(s, x);
      if !s.store[x].quit {
        var k' :| k' in s.closing && x in s.closing[k'];
        assert s.closing[k] == [s.closing[k][0]] + s.closing[k][1..];
        assert k' in s'.closing && x in s'.closing[k'];
      }
    }
  }

  lemma PoppedCounts(s: State, closing: map<Kid, seq<Lid>>)
    requires CountsOk(s)
    ensures CountsOk(s.(closing := closing))
  {
    var s' := s.(closing := closing);
    forall x | x in s'.store && Registered(s', x) ensures s'.store[x].active == |InFlightAt(s', x)| {
      assert Registered(s, x) && InFlightAt(s', x) == InFlightAt(s, x);
    }
  }

  lemma CloseNextInv(s: State, k: Kid)
    requires Inv(s) && Enabled(s, CloseNext(k))
    ensures Inv(Do(s, CloseNext(k)))
  {
    var l := s.closing[k][0];
    var s1 := SetListener(s, l, s.store[l].(quit := true));
    SetListenerInv(s, l, s.store[l].(quit := true));
    PoppedPending(s1, k);
    PoppedCounts(s1, s.closing[k := s.closing[k][1..]]);
    forall x ensures Registered(Do(s, CloseNext(k)), x) <==> Registered(s1, x) {}
  }

  lemma CreateInv(s: State, addr: string, protocol: Protocol, l: Lid)
    requires Inv(s) && addr !in s.listeners && l !in s.store
    ensures Inv(Do(s, GetOrCreate(addr, protocol, l)))
  {
    var s' := Do(s, GetOrCreate(addr, protocol, l));
    forall x | x in s'.store && Registered(s', x) ensures s'.store[x].active == |InFlightAt(s', x)| {
      assert InFlightAt(s', x) == InFlightAt(s, x);
      if x == l { assert InFlightAt(s, x) == {}; } else { assert Registered(s, x); }
    }
    forall x | x in s'.store && !Registered(s', x) ensures ShutOrPending(s', x) {
      assert x != l && !Registered(s, x) && ShutOrPending(s, x);
    }
    forall x | x in s'.store && s'.store[x].loop == Exited ensures !Registered(s', x) {
      assert !Registered(s, x);
    }
  }

  lemma UnregisterOnly(s: State, l: Lid, x: Lid)
    requires Inv(s) && Enabled(s, Unregister(l))
    ensures Registered(Do(s, Unregister(l)), x) <==> Registered(s, x) && x != l
  {
  }

  /** Taking one listener that is already shut down off the registry. */
  lemma DropInv(s: State, l: Lid)
    requires Inv(s) && Registered(s, l) && s.store[l].quit
    ensures var s' := s.(listeners := s.listeners - {s.store[l].addr}); Inv(s') && !Registered(s', l)
  {
    var s' := s.(listeners := s.listeners - {s.store[l].addr});
    forall x ensures Registered(s', x) <==> Registered(s, x) && x != l {}
    forall x | x in s'.store && Registered(s', x) ensures s'.store[x].active == |InFlightAt(s', x)| {
      assert InFlightAt(s', x) == InFlightAt(s, x);
    }
    forall x | x in s'.store && !Registered(s', x) ensures ShutOrPending(s', x) {
      assert x != l ==> ShutOrPending(s, x);
    }
  }

  lemma UnregisterInv(s: State, l: Lid)
    requires Inv(s) && Enabled(s, Unregister(l))
    ensures Inv(Do(s, Unregister(l)))
  {
    var r := s.store[l].(loop := Exited);
    if Registered(s, l) {
      DropInv(s, l);
      SetListenerInv(s.(listeners := s.listeners - {s.store[l].addr}), l, r);
    } else {
      SetListenerInv(s, l, r);
    }
  }

  /** Every step keeps the invariant. */
  lemma StepInv(s0: State, a: Action, t: Time)
    requires Inv(s0) && CanStep(s0, a, t)
    ensures Inv(Next(s0, a, t))
  {
    var s := s0.(now := t);
    ClockInv(s0, t);
    match a
    case GetOrCreate(addr, protocol, l) =>
      if addr in s.listeners {
        SetListenerInv(s, s.listeners[addr], s.store[s.listeners[addr]].(lastUsed := t));
      } else {
        CreateInv(s, addr, protocol, l);
      }
    case Touch(l) => SetListenerInv(s, l, s.store[l].(lastUsed := t));
    case Begin(l, c) => BeginInv(s, l, c);
    case End(c) => EndInv(s, c);
    case Reap(stale, _) => RemoveInv(s, REAPER, stale);
    case CloseAll(k, all) => RemoveInv(s, k, all);
    case CloseNext(k) => CloseNextInv(s, k);
    case AcceptFails(l) => SetListenerInv(s, l, s.store[l].(loop := AcceptFailed));
    case QuitOnFailure(l) => SetListenerInv(s, l, s.store[l].(quit := true, loop := Unregistering));
    case Unregister(l) => UnregisterInv(s, l);
  }

  lemma ClockInv(s: State, t: Time)
    requires Inv(s)
    ensures Inv(s.(now := t))
  {
    var s' := s.(now := t);
    forall x ensures Registered(s', x) <==> Registered(s, x) {}
    forall x | x in s'.store && Registered(s', x) ensures s'.store[x].active == |InFlightAt(s', x)| {
      assert InFlightAt(s', x) == InFlightAt(s, x);
    }
    forall x | x in s'.store && !Registered(s', x) ensures ShutOrPending(s', x) {
      assert ShutOrPending(s, x);
    }
  }
}
