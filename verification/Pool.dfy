/** The client's connection pool as a transition system: one maintainer, any
    number of `Get` and `Close` calls, one step per atomic access. */
module Pool {
  import opened Wrappers
  import opened Sequences

  type Conn = nat
  type Gid = nat   // a call of Get
  type Kid = nat   // a call of Close

  /** Where the maintainer is. */
  datatype Maintainer =
    | Waiting            // for the ticker or cancellation
    | Checking           // about to compare len(conns) with minIdle
    | CtxCheck           // about to look at the context
    | Dialling
    | Offering(c: Conn)  // about to select on context, send and default
    | BackingOff
    | Exited

  datatype Getter =
    | Entry
    | Receiving
    | Received(c: Conn)
    | BeforeDial
    | GetDialling
    | Dialled(c: Conn)
    | Returned(result: Option<Conn>)

  datatype Closer = Storing | Cancelling | Joining | Draining | Drained(c: Conn) | CloseReturned

  /** Who holds a connection: the pool, the maintainer, a Get, a Close, the
      caller of a Get, or nobody because it is closed. */
  datatype Place = Pooled | WithMaintainer | WithGet(g: Gid) | WithClose(k: Kid) | HandedOut(g: Gid) | Shut

  /** History: `dialled` and `shut`, the connections dialled and the closing
      calls made; `place`, where each was last put. */
  datatype State = State(
    minIdle: nat, conns: seq<Conn>, closed: bool, cancelled: bool,
    maintainer: Maintainer, gets: map<Gid, Getter>, closers: map<Kid, Closer>,
    dialled: set<Conn>, shut: seq<Conn>, place: map<Conn, Place>)

  datatype Action =
    | Tick | StopOnCancel | Compare | LookAtContext | Dial(c: Option<Conn>) | BackOffEnds
    | Send | DropAndExit | Discard
    | CallGet(g: Gid) | LoadFirst(g: Gid) | Receive(g: Gid) | LoadAfterReceive(g: Gid)
    | LoadBeforeDial(g: Gid) | GetDials(g: Gid, c: Option<Conn>) | LoadAfterDial(g: Gid)
    | CallClose(k: Kid) | Store(k: Kid) | Cancel(k: Kid) | Join(k: Kid) | Drain(k: Kid) | CloseDrained(k: Kid)

  predicate GetAt(s: State, g: Gid, pc: Getter) { g in s.gets && s.gets[g] == pc }
  predicate CloseAt(s: State, k: Kid, pc: Closer) { k in s.closers && s.closers[k] == pc }
  predicate Fresh(s: State, c: Option<Conn>) { c.Some? ==> c.value !in s.dialled }

  predicate Enabled(s: State, a: Action) {
    match a
    case Tick => s.maintainer == Waiting
    case StopOnCancel => (s.maintainer == Waiting || s.maintainer == BackingOff) && s.cancelled
    case Compare => s.maintainer == Checking
    case LookAtContext => s.maintainer == CtxCheck
    case Dial(c) => s.maintainer == Dialling && Fresh(s, c)
    case BackOffEnds => s.maintainer == BackingOff
    case Send => s.maintainer.Offering? && |s.conns| < s.minIdle
    case DropAndExit => s.maintainer.Offering? && s.cancelled
    case Discard => s.maintainer.Offering? && !s.cancelled && |s.conns| >= s.minIdle
    case CallGet(g) => g !in s.gets
    case LoadFirst(g) => GetAt(s, g, Entry)
    case Receive(g) => GetAt(s, g, Receiving)
    case LoadAfterReceive(g) => g in s.gets && s.gets[g].Received?
    case LoadBeforeDial(g) => GetAt(s, g, BeforeDial)
    case GetDials(g, c) => GetAt(s, g, GetDialling) && Fresh(s, c)
    case LoadAfterDial(g) => g in s.gets && s.gets[g].Dialled?
    case CallClose(k) => k !in s.closers
    case Store(k) => CloseAt(s, k, Storing)
    case Cancel(k) => CloseAt(s, k, Cancelling)
    case Join(k) => CloseAt(s, k, Joining) && s.maintainer == Exited
    case Drain(k) => CloseAt(s, k, Draining)
    case CloseDrained(k) => k in s.closers && s.closers[k].Drained?
  }

  function SetGet(s: State, g: Gid, pc: Getter): State { s.(gets := s.gets[g := pc]) }
  function SetClose(s: State, k: Kid, pc: Closer): State { s.(closers := s.closers[k := pc]) }
  function Put(s: State, c: Conn, p: Place): State { s.(place := s.place[c := p]) }
  function NewConn(s: State, c: Conn, p: Place): State { Put(s, c, p).(dialled := s.dialled + {c}) }
  function CloseConn(s: State, c: Conn): State { Put(s, c, Shut).(shut := s.shut + [c]) }

  /** The last look at `closed` before handing `c` out. */
  function HandOut(s: State, g: Gid, c: Conn): State {
    if s.closed then SetGet(CloseConn(s, c), g, Returned(None))
    else SetGet(Put(s, c, HandedOut(g)), g, Returned(Some(c)))
  }

  function DoMaintainer(s: State, a: Action): (r: State)
    requires Enabled(s, a)
    ensures r.gets == s.gets && r.closers == s.closers && r.closed == s.closed
  {
    match a
    case Tick => s.(maintainer := Checking)
    case StopOnCancel => s.(maintainer := Exited)
    case Compare => s.(maintainer := if |s.conns| < s.minIdle then CtxCheck else Waiting)
    case LookAtContext => s.(maintainer := if s.cancelled then Exited else Dialling)
    case Dial(c) =>
      if c.None? then s.(maintainer := BackingOff)
      else NewConn(s, c.value, WithMaintainer).(maintainer := Offering(c.value))
    case BackOffEnds => s.(maintainer := Checking)
    case Send => Put(s, s.maintainer.c, Pooled).(maintainer := Checking, conns := s.conns + [s.maintainer.c])
    case DropAndExit => CloseConn(s, s.maintainer.c).(maintainer := Exited)
    case Discard => CloseConn(s, s.maintainer.c).(maintainer := Checking)
    case _ => s
  }

  function DoGet(s: State, a: Action): (r: State)
    requires Enabled(s, a)
    ensures r.maintainer == s.maintainer && r.closers == s.closers
    ensures r.closed == s.closed
  {
    match a
    case CallGet(g) => SetGet(s, g, Entry)
    case LoadFirst(g) => SetGet(s, g, if s.closed then Returned(None) else Receiving)
    case Receive(g) =>
      if s.conns == [] then SetGet(s, g, BeforeDial)
      else SetGet(Put(s, s.conns[0], WithGet(g)), g, Received(s.conns[0])).(conns := s.conns[1..])
    case LoadAfterReceive(g) => HandOut(s, g, s.gets[g].c)
    case LoadBeforeDial(g) => SetGet(s, g, if s.closed then Returned(None) else GetDialling)
    case GetDials(g, c) =>
      if c.None? then SetGet(s, g, Returned(None))
      else SetGet(NewConn(s, c.value, WithGet(g)), g, Dialled(c.value))
    case LoadAfterDial(g) => HandOut(s, g, s.gets[g].c)
    case _ => s
  }

  function DoClose(s: State, a: Action): (r: State)
    requires Enabled(s, a)
    ensures r.maintainer == s.maintainer && r.gets == s.gets
    ensures !a.Store? ==> r.closed == s.closed
  {
    match a
    case CallClose(k) => SetClose(s, k, Storing)
    case Store(k) => SetClose(s, k, Cancelling).(closed := true)
    case Cancel(k) => SetClose(s, k, Joining).(cancelled := true)
    case Join(k) => SetClose(s, k, Draining)
    case Drain(k) =>
      if s.conns == [] then SetClose(s, k, CloseReturned)
      else SetClose(Put(s, s.conns[0], WithClose(k)), k, Drained(s.conns[0])).(conns := s.conns[1..])
    case CloseDrained(k) => SetClose(CloseConn(s, s.closers[k].c), k, Draining)
    case _ => s
  }

  /** An action of one of the three parties; the other two functions leave the state alone. */
  function Next(s: State, a: Action): State
    requires Enabled(s, a)
  {
    if IsMaintainer(a) then DoMaintainer(s, a) else if IsGet(a) then DoGet(s, a) else DoClose(s, a)
  }

  predicate IsMaintainer(a: Action) {
    || a.Tick? || a.StopOnCancel? || a.Compare? || a.LookAtContext? || a.Dial? || a.BackOffEnds?
    || a.Send? || a.DropAndExit? || a.Discard?
  }

  predicate IsGet(a: Action) {
    || a.CallGet? || a.LoadFirst? || a.Receive? || a.LoadAfterReceive? || a.LoadBeforeDial? || a.GetDials?
    || a.LoadAfterDial?
  }

  /** With no idle target there is no maintainer to wait for. */
  function Initial(minIdle: nat): State {
    State(minIdle, [], false, false, if minIdle > 0 then Waiting else Exited,
          map[], map[], {}, [], map[])
  }

  // ------------------------------------------------------- where connections are

  predicate HeldByGet(gets: map<Gid, Getter>, g: Gid, c: Conn) {
    g in gets && (gets[g].Received? || gets[g].Dialled?) && gets[g].c == c
  }
  predicate ReturnedBy(gets: map<Gid, Getter>, g: Gid, c: Conn) {
    g in gets && gets[g].Returned? && gets[g].result == Some(c)
  }
  predicate HeldByClose(closers: map<Kid, Closer>, k: Kid, c: Conn) {
    k in closers && closers[k] == Drained(c)
  }

  /** What the parties' own variables say about where `c` is. */
  predicate IsAt(s: State, c: Conn, p: Place) {
    match p
    case Pooled => c in s.conns
    case WithMaintainer => s.maintainer == Offering(c)
    case WithGet(g) => HeldByGet(s.gets, g, c)
    case WithClose(k) => HeldByClose(s.closers, k, c)
    case HandedOut(g) => ReturnedBy(s.gets, g, c)
    case Shut => c in s.shut
  }

  predicate At(place: map<Conn, Place>, c: Conn, p: Place) { c in place && place[c] == p }

  ghost predicate PooledOk(conns: seq<Conn>, place: map<Conn, Place>) {
    NoDup(conns) && forall c :: c in conns <==> At(place, c, Pooled)
  }
  ghost predicate MaintainerOk(m: Maintainer, place: map<Conn, Place>) {
    forall c :: m == Offering(c) <==> At(place, c, WithMaintainer)
  }
  ghost predicate GetsOk(gets: map<Gid, Getter>, place: map<Conn, Place>) {
    forall g, c ::
      && (HeldByGet(gets, g, c) <==> At(place, c, WithGet(g)))
      && (ReturnedBy(gets, g, c) <==> At(place, c, HandedOut(g)))
  }
  ghost predicate ClosersOk(closers: map<Kid, Closer>, place: map<Conn, Place>) {
    forall k, c :: HeldByClose(closers, k, c) <==> At(place, c, WithClose(k))
  }
  ghost predicate ShutOk(shut: seq<Conn>, place: map<Conn, Place>) {
    NoDup(shut) && forall c :: c in shut <==> At(place, c, Shut)
  }

  ghost predicate Placed(s: State) {
    && s.dialled == s.place.Keys
    && PooledOk(s.conns, s.place) && MaintainerOk(s.maintainer, s.place) && GetsOk(s.gets, s.place)
    && ClosersOk(s.closers, s.place) && ShutOk(s.shut, s.place)
  }

  // ---------------------------------------------------------------- flow

  predicate Busy(m: Maintainer) { m.CtxCheck? || m.Dialling? || m.Offering? }
  predicate Joined(k: Closer) { k.Draining? || k.Drained? || k.CloseReturned? }

  ghost predicate CapacityOk(s: State) {
    |s.conns| <= s.minIdle && (Busy(s.maintainer) ==> |s.conns| < s.minIdle)
  }

  /** Draining starts after the maintainer is gone; returning, with the pool empty. */
  ghost predicate ClosersFlow(closers: map<Kid, Closer>, exited: bool, empty: bool, closed: bool) {
    forall k :: k in closers ==>
      && (Joined(closers[k]) ==> exited)
      && (closers[k].CloseReturned? ==> empty)
      && (!closers[k].Storing? ==> closed)
  }

  ghost predicate CloseOk(s: State) {
    ClosersFlow(s.closers, s.maintainer == Exited, s.conns == [], s.closed)
  }

  ghost predicate Inv(s: State) { Placed(s) && CapacityOk(s) && CloseOk(s) }

  lemma InitialInv(minIdle: nat)
    ensures Inv(Initial(minIdle))
  {
  }

  // ------------------------------------------------- one connection moves

  lemma PooledKept(conns: seq<Conn>, place: map<Conn, Place>, c: Conn, p: Place)
    requires PooledOk(conns, place) && !p.Pooled? && (c in place ==> !place[c].Pooled?)
    ensures PooledOk(conns, place[c := p])
  {
    forall d
      ensures d in conns <==> At(place[c := p], d, Pooled)
    {
      assert d in conns <==> At(place, d, Pooled);
    }
  }

  lemma PooledLeaves(conns: seq<Conn>, place: map<Conn, Place>, p: Place)
    requires PooledOk(conns, place) && conns != [] && !p.Pooled?
    ensures PooledOk(conns[1..], place[conns[0] := p])
  {
    var place' := place[conns[0] := p];
    forall d
      ensures d in conns[1..] <==> At(place', d, Pooled)
    {
      assert d in conns <==> At(place, d, Pooled);
      assert conns == [conns[0]] + conns[1..];
    }
  }

  lemma PooledJoins(conns: seq<Conn>, place: map<Conn, Place>, c: Conn)
    requires PooledOk(conns, place) && !At(place, c, Pooled)
    ensures PooledOk(conns + [c], place[c := Pooled])
  {
    forall d
      ensures d in conns + [c] <==> At(place[c := Pooled], d, Pooled)
    {
      assert d in conns <==> At(place, d, Pooled);
    }
    assert c !in conns;
  }

  lemma ShutJoins(shut: seq<Conn>, place: map<Conn, Place>, c: Conn)
    requires ShutOk(shut, place) && !At(place, c, Shut)
    ensures ShutOk(shut + [c], place[c := Shut])
  {
    forall d
      ensures d in shut + [c] <==> At(place[c := Shut], d, Shut)
    {
      assert d in shut <==> At(place, d, Shut);
    }
    assert c !in shut;
  }

  lemma ShutKept(shut: seq<Conn>, place: map<Conn, Place>, c: Conn, p: Place)
    requires ShutOk(shut, place) && !p.Shut? && (c in place ==> !place[c].Shut?)
    ensures ShutOk(shut, place[c := p])
  {
    forall d
      ensures d in shut <==> At(place[c := p], d, Shut)
    {
      assert d in shut <==> At(place, d, Shut);
    }
  }

  lemma MaintainerKept(m: Maintainer, place: map<Conn, Place>, c: Conn, p: Place)
    requires MaintainerOk(m, place) && !p.WithMaintainer? && (c in place ==> !place[c].WithMaintainer?)
    ensures MaintainerOk(m, place[c := p])
  {
    forall d
      ensures m == Offering(d) <==> At(place[c := p], d, WithMaintainer)
    {
      assert m == Offering(d) <==> At(place, d, WithMaintainer);
    }
  }

  lemma MaintainerTakes(m: Maintainer, place: map<Conn, Place>, c: Conn)
    requires MaintainerOk(m, place) && !m.Offering?
    ensures MaintainerOk(Offering(c), place[c := WithMaintainer])
  {
    forall d
      ensures Offering(c) == Offering(d) <==> At(place[c := WithMaintainer], d, WithMaintainer)
    {
      assert m == Offering(d) <==> At(place, d, WithMaintainer);
    }
  }

  lemma MaintainerGives(m: Maintainer, m': Maintainer, place: map<Conn, Place>, p: Place)
    requires MaintainerOk(m, place) && m.Offering? && !m'.Offering? && !p.WithMaintainer?
    ensures MaintainerOk(m', place[m.c := p]) && At(place, m.c, WithMaintainer)
  {
    forall d
      ensures m' == Offering(d) <==> At(place[m.c := p], d, WithMaintainer)
    {
      assert m == Offering(d) <==> At(place, d, WithMaintainer);
    }
    assert m == Offering(m.c);
  }

  predicate OfGet(p: Place) { p.WithGet? || p.HandedOut? }

  lemma GetsKept(gets: map<Gid, Getter>, place: map<Conn, Place>, c: Conn, p: Place)
    requires GetsOk(gets, place) && !OfGet(p) && (c in place ==> !OfGet(place[c]))
    ensures GetsOk(gets, place[c := p])
  {
    forall g, d
      ensures HeldByGet(gets, g, d) <==> At(place[c := p], d, WithGet(g))
      ensures ReturnedBy(gets, g, d) <==> At(place[c := p], d, HandedOut(g))
    {
      assert HeldByGet(gets, g, d) <==> At(place, d, WithGet(g));
      assert ReturnedBy(gets, g, d) <==> At(place, d, HandedOut(g));
    }
  }

  predicate EmptyHanded(pc: Getter) {
    !pc.Received? && !pc.Dialled? && (pc.Returned? ==> pc.result.None?)
  }

  /** A Get moves between states in which it has no connection. */
  lemma GetsPlain(gets: map<Gid, Getter>, place: map<Conn, Place>, g: Gid, pc: Getter)
    requires GetsOk(gets, place) && EmptyHanded(pc) && (g in gets ==> EmptyHanded(gets[g]))
    ensures GetsOk(gets[g := pc], place)
  {
    var gets' := gets[g := pc];
    forall h, d
      ensures HeldByGet(gets', h, d) <==> At(place, d, WithGet(h))
      ensures ReturnedBy(gets', h, d) <==> At(place, d, HandedOut(h))
    {
      assert HeldByGet(gets, h, d) <==> At(place, d, WithGet(h));
      assert ReturnedBy(gets, h, d) <==> At(place, d, HandedOut(h));
    }
  }

  lemma GetsTakes(gets: map<Gid, Getter>, place: map<Conn, Place>, g: Gid, c: Conn, pc: Getter)
    requires GetsOk(gets, place) && g in gets && EmptyHanded(gets[g])
    requires (pc.Received? || pc.Dialled?) && pc.c == c
    requires c in place ==> !OfGet(place[c])
    ensures GetsOk(gets[g := pc], place[c := WithGet(g)])
  {
    var gets', place' := gets[g := pc], place[c := WithGet(g)];
    forall h, d
      ensures HeldByGet(gets', h, d) <==> At(place', d, WithGet(h))
      ensures ReturnedBy(gets', h, d) <==> At(place', d, HandedOut(h))
    {
      assert HeldByGet(gets, h, d) <==> At(place, d, WithGet(h));
      assert ReturnedBy(gets, h, d) <==> At(place, d, HandedOut(h));
    }
  }

  /** A Get gives up the connection it holds: closes it, or returns it. */
  lemma GetsGives(gets: map<Gid, Getter>, place: map<Conn, Place>, g: Gid, c: Conn, pc: Getter, p: Place)
    requires GetsOk(gets, place) && HeldByGet(gets, g, c) && pc.Returned?
    requires (p == Shut && pc.result == None) || (p == HandedOut(g) && pc.result == Some(c))
    ensures GetsOk(gets[g := pc], place[c := p]) && At(place, c, WithGet(g))
  {
    var gets', place' := gets[g := pc], place[c := p];
    forall h, d
      ensures HeldByGet(gets', h, d) <==> At(place', d, WithGet(h))
      ensures ReturnedBy(gets', h, d) <==> At(place', d, HandedOut(h))
    {
      assert HeldByGet(gets, h, d) <==> At(place, d, WithGet(h));
      assert ReturnedBy(gets, h, d) <==> At(place, d, HandedOut(h));
    }
    assert HeldByGet(gets, g, c) <==> At(place, c, WithGet(g));
  }

  lemma ClosersKept(closers: map<Kid, Closer>, place: map<Conn, Place>, c: Conn, p: Place)
    requires ClosersOk(closers, place) && !p.WithClose? && (c in place ==> !place[c].WithClose?)
    ensures ClosersOk(closers, place[c := p])
  {
    forall k, d
      ensures HeldByClose(closers, k, d) <==> At(place[c := p], d, WithClose(k))
    {
      assert HeldByClose(closers, k, d) <==> At(place, d, WithClose(k));
    }
  }

  lemma ClosersPlain(closers: map<Kid, Closer>, place: map<Conn, Place>, k: Kid, pc: Closer)
    requires ClosersOk(closers, place) && !pc.Drained? && (k in closers ==> !closers[k].Drained?)
    ensures ClosersOk(closers[k := pc], place)
  {
    var closers' := closers[k := pc];
    forall h, d
      ensures HeldByClose(closers', h, d) <==> At(place, d, WithClose(h))
    {
      assert HeldByClose(closers, h, d) <==> At(place, d, WithClose(h));
    }
  }

  lemma ClosersTakes(closers: map<Kid, Closer>, place: map<Conn, Place>, k: Kid, c: Conn)
    requires ClosersOk(closers, place) && k in closers && !closers[k].Drained?
    requires c in place ==> !place[c].WithClose?
    ensures ClosersOk(closers[k := Drained(c)], place[c := WithClose(k)])
  {
    var closers', place' := closers[k := Drained(c)], place[c := WithClose(k)];
    forall h, d
      ensures HeldByClose(closers', h, d) <==> At(place', d, WithClose(h))
    {
      assert HeldByClose(closers, h, d) <==> At(place, d, WithClose(h));
    }
  }

  lemma ClosersGives(closers: map<Kid, Closer>, place: map<Conn, Place>, k: Kid, c: Conn)
    requires ClosersOk(closers, place) && HeldByClose(closers, k, c)
    ensures ClosersOk(closers[k := Draining], place[c := Shut]) && At(place, c, WithClose(k))
  {
    var closers', place' := closers[k := Draining], place[c := Shut];
    forall h, d
      ensures HeldByClose(closers', h, d) <==> At(place', d, WithClose(h))
    {
      assert HeldByClose(closers, h, d) <==> At(place, d, WithClose(h));
    }
    assert HeldByClose(closers, k, c) <==> At(place, c, WithClose(k));
  }

  // ------------------------------------------------------------ every step

  lemma MaintainerPlaced(s: State, a: Action)
    requires Placed(s) && Enabled(s, a) && IsMaintainer(a)
    ensures Placed(Next(s, a))
  {
    if a.Dial? && a.c.Some? {
      var c := a.c.value;
      PooledKept(s.conns, s.place, c, WithMaintainer);
      MaintainerTakes(s.maintainer, s.place, c);
      GetsKept(s.gets, s.place, c, WithMaintainer);
      ClosersKept(s.closers, s.place, c, WithMaintainer);
      ShutKept(s.shut, s.place, c, WithMaintainer);
    } else if a.Send? || a.DropAndExit? || a.Discard? {
      var c := s.maintainer.c;
      var p := if a.Send? then Pooled else Shut;
      MaintainerGives(s.maintainer, if a.DropAndExit? then Exited else Checking, s.place, p);
      GetsKept(s.gets, s.place, c, p);
      ClosersKept(s.closers, s.place, c, p);
      if a.Send? {
        PooledJoins(s.conns, s.place, c);
        ShutKept(s.shut, s.place, c, p);
      } else {
        PooledKept(s.conns, s.place, c, p);
        ShutJoins(s.shut, s.place, c);
      }
    }
  }

  lemma ReceivePlaced(s: State, g: Gid)
    requires Placed(s) && Enabled(s, Receive(g)) && s.conns != []
    ensures Placed(Next(s, Receive(g)))
  {
    var c := s.conns[0];
    assert c in s.conns && At(s.place, c, Pooled);
    PooledLeaves(s.conns, s.place, WithGet(g));
    MaintainerKept(s.maintainer, s.place, c, WithGet(g));
    GetsTakes(s.gets, s.place, g, c, Received(c));
    ClosersKept(s.closers, s.place, c, WithGet(g));
    ShutKept(s.shut, s.place, c, WithGet(g));
  }

  lemma DialledPlaced(s: State, g: Gid, c: Conn)
    requires Placed(s) && Enabled(s, GetDials(g, Some(c)))
    ensures Placed(Next(s, GetDials(g, Some(c))))
  {
    PooledKept(s.conns, s.place, c, WithGet(g));
    MaintainerKept(s.maintainer, s.place, c, WithGet(g));
    GetsTakes(s.gets, s.place, g, c, Dialled(c));
    ClosersKept(s.closers, s.place, c, WithGet(g));
    ShutKept(s.shut, s.place, c, WithGet(g));
  }

  lemma HandOutPlaced(s: State, g: Gid, c: Conn)
    requires Placed(s) && HeldByGet(s.gets, g, c)
    ensures Placed(HandOut(s, g, c))
  {
    var p := if s.closed then Shut else HandedOut(g);
    GetsGives(s.gets, s.place, g, c, Returned(if s.closed then None else Some(c)), p);
    PooledKept(s.conns, s.place, c, p);
    MaintainerKept(s.maintainer, s.place, c, p);
    ClosersKept(s.closers, s.place, c, p);
    if s.closed {
      ShutJoins(s.shut, s.place, c);
    } else {
      ShutKept(s.shut, s.place, c, p);
    }
  }

  lemma GetPlaced(s: State, a: Action)
    requires Placed(s) && Enabled(s, a) && IsGet(a)
    ensures Placed(Next(s, a))
  {
    if a.Receive? && s.conns != [] {
      ReceivePlaced(s, a.g);
    } else if a.GetDials? && a.c.Some? {
      DialledPlaced(s, a.g, a.c.value);
    } else if a.LoadAfterReceive? || a.LoadAfterDial? {
      HandOutPlaced(s, a.g, s.gets[a.g].c);
    } else {
      GetsPlain(s.gets, s.place, a.g, Next(s, a).gets[a.g]);
    }
  }

  lemma ClosePlaced(s: State, a: Action)
    requires Placed(s) && Enabled(s, a) && !IsMaintainer(a) && !IsGet(a)
    ensures Placed(Next(s, a))
  {
    if a.Drain? && s.conns != [] {
      var c, p := s.conns[0], WithClose(a.k);
      assert c in s.conns && At(s.place, c, Pooled);
      PooledLeaves(s.conns, s.place, p);
      MaintainerKept(s.maintainer, s.place, c, p);
      GetsKept(s.gets, s.place, c, p);
      ClosersTakes(s.closers, s.place, a.k, c);
      ShutKept(s.shut, s.place, c, p);
    } else if a.CloseDrained? {
      var c := s.closers[a.k].c;
      ClosersGives(s.closers, s.place, a.k, c);
      PooledKept(s.conns, s.place, c, Shut);
      MaintainerKept(s.maintainer, s.place, c, Shut);
      GetsKept(s.gets, s.place, c, Shut);
      ShutJoins(s.shut, s.place, c);
    } else {
      ClosersPlain(s.closers, s.place, a.k, Next(s, a).closers[a.k]);
    }
  }

  lemma CapacityStep(s: State, a: Action)
    requires CapacityOk(s) && Enabled(s, a)
    ensures CapacityOk(Next(s, a))
  {
  }

  lemma ClosersMove(closers: map<Kid, Closer>, k: Kid, pc: Closer,
                    exited: bool, empty: bool, closed: bool, empty': bool, closed': bool)
    requires ClosersFlow(closers, exited, empty, closed) && (empty ==> empty') && (closed ==> closed')
    requires (Joined(pc) ==> exited) && (pc.CloseReturned? ==> empty') && (!pc.Storing? ==> closed')
    ensures ClosersFlow(closers[k := pc], exited, empty', closed')
  {
  }

  /** Once some Close drains, the maintainer is gone and takes no step. */
  lemma MaintainerIsGone(s: State, a: Action)
    requires CloseOk(s) && Enabled(s, a) && IsMaintainer(a)
    ensures CloseOk(Next(s, a))
  {
    var s' := Next(s, a);
    assert s.maintainer != Exited;
    assert s'.closers == s.closers && s'.closed == s.closed;
    assert ClosersFlow(s.closers, false, s.conns == [], s.closed);
    assert ClosersFlow(s.closers, s'.maintainer == Exited, s'.conns == [], s.closed);
  }

  lemma CloseStep(s: State, a: Action)
    requires CloseOk(s) && Enabled(s, a)
    ensures CloseOk(Next(s, a))
  {
    var s' := Next(s, a);
    if IsMaintainer(a) {
      MaintainerIsGone(s, a);
    } else if IsGet(a) {
      assert s'.closers == s.closers && s'.closed == s.closed && s'.maintainer == s.maintainer;
      assert ClosersFlow(s.closers, s.maintainer == Exited, s.conns == [], s.closed);
      assert s.conns == [] ==> s'.conns == [];
    } else {
      ClosersMove(s.closers, a.k, s'.closers[a.k], s.maintainer == Exited, s.conns == [], s.closed,
                  s'.conns == [], s'.closed);
    }
  }

  lemma StepInv(s: State, a: Action)
    requires Inv(s) && Enabled(s, a)
    ensures Inv(Next(s, a))
  {
    if IsMaintainer(a) {
      MaintainerPlaced(s, a);
    } else if IsGet(a) {
      GetPlaced(s, a);
    } else {
      ClosePlaced(s, a);
    }
    CapacityStep(s, a);
    CloseStep(s, a);
  }

  // --------------------------------------------------------------- runs

  predicate Steps(s: State, a: Action, s': State) { Enabled(s, a) && s' == Next(s, a) }

  /** A run of a pool with some idle target: the states it visits and the steps between them. */
  ghost predicate Trace(ss: seq<State>, acts: seq<Action>) {
    && |ss| == |acts| + 1
    && ss[0] == Initial(ss[0].minIdle)
    && forall i {:trigger acts[i]} :: 0 <= i < |acts| ==> Steps(ss[i], acts[i], ss[i + 1])
  }

  lemma {:induction false} TraceInv(ss: seq<State>, acts: seq<Action>, k: nat)
    requires Trace(ss, acts) && k <= |acts|
    ensures Inv(ss[k]) && ss[k].minIdle == ss[0].minIdle
  {
    if k == 0 {
      InitialInv(ss[0].minIdle);
    } else {
      TraceInv(ss, acts, k - 1);
      StepInv(ss[k - 1], acts[k - 1]);
    }
  }

  /** At every moment each dialled connection is at exactly one place, and only
      dialled ones are anywhere; no connection is pooled twice or closed twice. */
  lemma Conservation(ss: seq<State>, acts: seq<Action>, k: nat)
    requires Trace(ss, acts) && k <= |acts|
    ensures forall c :: c in ss[k].dialled <==> exists p :: IsAt(ss[k], c, p)
    ensures forall c, p, p' :: IsAt(ss[k], c, p) && IsAt(ss[k], c, p') ==> p == p'
    ensures NoDup(ss[k].conns) && NoDup(ss[k].shut)
  {
    var s := ss[k];
    TraceInv(ss, acts, k);
    forall c, p
      ensures IsAt(s, c, p) <==> At(s.place, c, p)
    {
    }
    forall c | c in s.dialled
      ensures exists p :: IsAt(s, c, p)
    {
      assert IsAt(s, c, s.place[c]);
    }
  }

  /** The pool never holds more than `minIdle`, and the branch that discards a
      dialled connection because the pool is full is never taken. */
  lemma NeverOverfull(ss: seq<State>, acts: seq<Action>, k: nat)
    requires Trace(ss, acts) && k <= |acts|
    ensures |ss[k].conns| <= ss[0].minIdle
    ensures !Enabled(ss[k], Discard)
    ensures k < |acts| ==> acts[k] != Discard
  {
    TraceInv(ss, acts, k);
    if k < |acts| {
      assert Steps(ss[k], acts[k], ss[k + 1]);
    }
  }

  lemma ReturnedStep(s: State, a: Action, x: Kid)
    requires Enabled(s, a) && CloseAt(s, x, CloseReturned)
    ensures CloseAt(Next(s, a), x, CloseReturned)
  {
  }

  /** Once some Close has returned, the pool is empty, with no maintainer, and stays so. */
  lemma {:induction false} EmptyAfterClose(ss: seq<State>, acts: seq<Action>, x: Kid, i: nat, k: nat)
    requires Trace(ss, acts) && i <= k <= |acts| && CloseAt(ss[i], x, CloseReturned)
    ensures ss[k].conns == [] && ss[k].maintainer == Exited && CloseAt(ss[k], x, CloseReturned)
  {
    if i < k {
      EmptyAfterClose(ss, acts, x, i, k - 1);
      assert Steps(ss[k - 1], acts[k - 1], ss[k]);
      ReturnedStep(ss[k - 1], acts[k - 1], x);
    }
    TraceInv(ss, acts, k);
  }

  lemma ClosedStep(s: State, a: Action)
    requires Enabled(s, a) && s.closed
    ensures Next(s, a).closed
  {
  }

  lemma {:induction false} ClosedStays(ss: seq<State>, acts: seq<Action>, i: nat, k: nat)
    requires Trace(ss, acts) && i <= k <= |acts| && ss[i].closed
    ensures ss[k].closed
  {
    if i < k {
      ClosedStays(ss, acts, i, k - 1);
      assert Steps(ss[k - 1], acts[k - 1], ss[k]);
      ClosedStep(ss[k - 1], acts[k - 1]);
    }
  }

  predicate LastLook(a: Action, g: Gid) { a == LoadAfterReceive(g) || a == LoadAfterDial(g) }

  /** The one step that makes a Get return a connection is its last look at
      `closed`, which saw it unset. */
  lemma ReturnStep(s: State, a: Action, g: Gid, c: Conn)
    requires Enabled(s, a) && GetAt(Next(s, a), g, Returned(Some(c))) && !GetAt(s, g, Returned(Some(c)))
    ensures LastLook(a, g) && !s.closed
  {
  }

  /** A Get that has returned a connection made its last look before `closed`
      was stored: at some step `n`, and every state with `closed` set is later. */
  lemma {:induction false} ReturnedWhileOpen(ss: seq<State>, acts: seq<Action>, g: Gid, c: Conn, k: nat)
      returns (n: nat)
    requires Trace(ss, acts) && k <= |acts| && GetAt(ss[k], g, Returned(Some(c)))
    ensures n < k && LastLook(acts[n], g)
    ensures forall i :: 0 <= i <= |acts| && ss[i].closed ==> n < i
  {
    assert k > 0;
    assert Steps(ss[k - 1], acts[k - 1], ss[k]);
    if GetAt(ss[k - 1], g, Returned(Some(c))) {
      n := ReturnedWhileOpen(ss, acts, g, c, k - 1);
    } else {
      n := k - 1;
      ReturnStep(ss[n], acts[n], g, c);
      forall i | 0 <= i <= |acts| && ss[i].closed
        ensures n < i
      {
        if i <= n { ClosedStays(ss, acts, i, n); }
      }
    }
  }

  // ------------------------------------------------------- a Close can return

  /** Past its cancelling step, a Close has the context cancelled. */
  ghost predicate CancelOk(s: State) {
    forall k :: k in s.closers && !s.closers[k].Storing? && !s.closers[k].Cancelling? ==> s.cancelled
  }

  lemma CancelStays(s: State, a: Action)
    requires Enabled(s, a) && s.cancelled
    ensures Next(s, a).cancelled
  {
  }

  lemma CancelStep(s: State, a: Action)
    requires CancelOk(s) && Enabled(s, a)
    ensures CancelOk(Next(s, a))
  {
    if s.cancelled { CancelStays(s, a); }
  }

  lemma {:induction false} CancelAlong(ss: seq<State>, acts: seq<Action>, k: nat)
    requires Trace(ss, acts) && k <= |acts|
    ensures CancelOk(ss[k])
  {
    if k > 0 {
      CancelAlong(ss, acts, k - 1);
      assert Steps(ss[k - 1], acts[k - 1], ss[k]);
      CancelStep(ss[k - 1], acts[k - 1]);
    }
  }

  /** What the maintainer does next if every dial fails and nothing is sent. */
  function MaintainerMove(m: Maintainer): Action {
    match m
    case Waiting => StopOnCancel
    case Checking => Compare
    case CtxCheck => LookAtContext
    case Dialling => Dial(None)
    case Offering(_) => DropAndExit
    case BackingOff => StopOnCancel
    case Exited => Tick
  }

  function MaintainerRank(m: Maintainer): nat {
    if m.Exited? then 0 else if m.Checking? || m.Dialling? then 2 else 1
  }

  function ClosingMove(s: State, k: Kid): Action
    requires k in s.closers
  {
    match s.closers[k]
    case Storing => Store(k)
    case Cancelling => Cancel(k)
    case Joining => if s.maintainer == Exited then Join(k) else MaintainerMove(s.maintainer)
    case Draining => Drain(k)
    case Drained(_) => CloseDrained(k)
    case CloseReturned => Tick
  }

  function Stage(c: Closer): nat {
    match c
    case Storing => 4
    case Cancelling => 3
    case Joining => 2
    case Draining => 1
    case Drained(_) => 1
    case CloseReturned => 0
  }

  function Rank(s: State, k: Kid): nat
    requires k in s.closers
  {
    if s.closers[k].Joining? then MaintainerRank(s.maintainer)
    else 2 * |s.conns| + if s.closers[k].Drained? then 1 else 0
  }

  lemma MaintainerCan(s: State)
    requires s.cancelled && s.maintainer != Exited
    ensures Enabled(s, MaintainerMove(s.maintainer))
    ensures MaintainerRank(Next(s, MaintainerMove(s.maintainer)).maintainer) < MaintainerRank(s.maintainer)
    ensures Next(s, MaintainerMove(s.maintainer)).closers == s.closers
  {
  }

  /** Nothing blocks the move, and it brings the Close nearer to its return. */
  lemma ClosingMoves(s: State, k: Kid)
    requires CancelOk(s) && k in s.closers && !s.closers[k].CloseReturned?
    ensures
      var a := ClosingMove(s, k);
      && Enabled(s, a) && k in Next(s, a).closers
      && (Stage(Next(s, a).closers[k]) < Stage(s.closers[k])
          || (Stage(Next(s, a).closers[k]) == Stage(s.closers[k]) && Rank(Next(s, a), k) < Rank(s, k)))
  {
    if s.closers[k].Joining? && s.maintainer != Exited { MaintainerCan(s); }
  }

  ghost predicate Path(ss: seq<State>, acts: seq<Action>) {
    && |ss| == |acts| + 1
    && forall i {:trigger acts[i]} :: 0 <= i < |acts| ==> Steps(ss[i], acts[i], ss[i + 1])
  }

  lemma Prepended(s: State, a: Action, ss: seq<State>, acts: seq<Action>)
    requires Path(ss, acts) && Steps(s, a, ss[0])
    ensures Path([s] + ss, [a] + acts)
  {
    forall i {:trigger ([a] + acts)[i]} | 0 <= i < |[a] + acts|
      ensures Steps(([s] + ss)[i], ([a] + acts)[i], ([s] + ss)[i + 1])
    {
      if i > 0 { assert ([a] + acts)[i] == acts[i - 1]; }
    }
  }

  lemma {:induction false} ReturnPath(s: State, k: Kid) returns (ss: seq<State>, acts: seq<Action>)
    requires CancelOk(s) && k in s.closers
    ensures Path(ss, acts) && ss[0] == s && CloseAt(ss[|acts|], k, CloseReturned)
    decreases Stage(s.closers[k]), Rank(s, k)
  {
    if s.closers[k].CloseReturned? {
      ss, acts := [s], [];
    } else {
      ClosingMoves(s, k);
      var a := ClosingMove(s, k);
      CancelStep(s, a);
      var rest, more := ReturnPath(Next(s, a), k);
      Prepended(s, a, rest, more);
      ss, acts := [s] + rest, [a] + more;
    }
  }

  /** From every moment of every run, whatever the maintainer and the Gets were
      doing, a Close that was called can go on to return. */
  lemma CloseCanReturn(ss: seq<State>, acts: seq<Action>, n: nat, k: Kid) returns (rest: seq<State>, more: seq<Action>)
    requires Trace(ss, acts) && n <= |acts| && k in ss[n].closers
    ensures Path(rest, more) && rest[0] == ss[n] && CloseAt(rest[|more|], k, CloseReturned)
  {
    CancelAlong(ss, acts, n);
    rest, more := ReturnPath(ss[n], k);
  }
}
