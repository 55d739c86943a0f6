/** The table of reverse UDP sessions, their idle timers, and the closing calls
    that race over them, as a transition system: one step per mutex section. */
module UdpTable {
  import opened Wrappers
  type Key = string   // the peer's address
  type Sid = nat      // a session
  type Tid = nat      // a closing call

  /** A call of the idle wrapper's Close: before its mutex, before the session's
      mutex, before the callback's mutex, done. */
  datatype ClosePc = Entering | Inner | Callback | Finished

  datatype Handler = Running | Closing(t: Tid) | Ended(t: Tid)

  /** `wrapperClosed`, `armed`: the idle wrapper; `closed`: the session under it.
      History: `winner`, the call that closed the wrapper; `removed`, what each
      run of the callback took out of the table. */
  datatype Sess = Sess(
    key: Key, wrapperClosed: bool, armed: bool, closed: bool, handler: Handler, calls: map<Tid, ClosePc>,
    winner: Option<Tid>, removed: seq<Option<Sid>>)

  datatype State = State(table: map<Key, Sid>, ss: map<Sid, Sess>)

  datatype Action =
    | Datagram(key: Key, sid: Sid)      // look up the peer, or open session `sid`
    | Touch(sid: Sid)                   // traffic passed through the wrapper
    | TimerFires(sid: Sid, t: Tid)
    | PipeCloses(sid: Sid, t: Tid)
    | HandlerCloses(sid: Sid, t: Tid)   // the handler's deferred, last close
    | CloseWrapper(sid: Sid, t: Tid)
    | CloseSession(sid: Sid, t: Tid)
    | RunCallback(sid: Sid, t: Tid)
    | HandlerReturns(sid: Sid)

  function NewSession(key: Key): Sess { Sess(key, false, true, false, Running, map[], None, []) }

  predicate CallAt(e: Sess, t: Tid, pc: ClosePc) { t in e.calls && e.calls[t] == pc }

  predicate EnabledFor(e: Sess, a: Action) {
    match a
    case Datagram(_, _) => false
    case Touch(_) => true
    case TimerFires(_, t) => e.armed && t !in e.calls
    case PipeCloses(_, t) => t !in e.calls
    case HandlerCloses(_, t) => e.handler == Running && t !in e.calls
    case CloseWrapper(_, t) => CallAt(e, t, Entering)
    case CloseSession(_, t) => CallAt(e, t, Inner)
    case RunCallback(_, t) => CallAt(e, t, Callback)
    case HandlerReturns(_) => e.handler.Closing? && CallAt(e, e.handler.t, Finished)
  }

  predicate Enabled(s: State, a: Action) {
    if a.Datagram? then a.sid !in s.ss else a.sid in s.ss && EnabledFor(s.ss[a.sid], a)
  }

  function At(e: Sess, t: Tid, pc: ClosePc): Sess { e.(calls := e.calls[t := pc]) }

  /** What the table gives up when `key` is deleted. */
  function Found(table: map<Key, Sid>, key: Key): Option<Sid> {
    if key in table then Some(table[key]) else None
  }

  /** The session's part of a step; `found` is what a deletion would remove. */
  function DoSess(e: Sess, a: Action, found: Option<Sid>): (r: Sess)
    requires EnabledFor(e, a)
    ensures r.key == e.key && r.removed == if a.RunCallback? then e.removed + [found] else e.removed
  {
    match a
    case Touch(_) => if e.wrapperClosed then e else e.(armed := true)
    case TimerFires(_, t) => At(e, t, Entering).(armed := false)
    case PipeCloses(_, t) => At(e, t, Entering)
    case HandlerCloses(_, t) => At(e, t, Entering).(handler := Closing(t))
    case CloseWrapper(_, t) =>
      if e.wrapperClosed then At(e, t, Finished)
      else At(e, t, Inner).(wrapperClosed := true, armed := false, winner := Some(t))
    case CloseSession(_, t) => if e.closed then At(e, t, Finished) else At(e, t, Callback).(closed := true)
    case RunCallback(_, t) => At(e, t, Finished).(removed := e.removed + [found])
    case HandlerReturns(_) => e.(handler := Ended(e.handler.t))
  }

  function Next(s: State, a: Action): State
    requires Enabled(s, a)
  {
    if a.Datagram? then
      if a.key in s.table then s
      else State(s.table[a.key := a.sid], s.ss[a.sid := NewSession(a.key)])
    else
      var key := s.ss[a.sid].key;
      State(if a.RunCallback? then s.table - {key} else s.table,
            s.ss[a.sid := DoSess(s.ss[a.sid], a, Found(s.table, key))])
  }

  // ------------------------------------------------------------ invariant

  /** Where the one call that closed the wrapper is. */
  predicate WinnerOk(e: Sess, t: Tid) {
    t in e.calls &&
    match e.calls[t]
    case Entering => false
    case Inner => !e.closed && e.removed == []
    case Callback => e.closed && e.removed == []
    case Finished => e.closed && |e.removed| == 1
  }

  ghost predicate SessOk(e: Sess) {
    && (e.wrapperClosed <==> e.winner.Some?)
    && (e.wrapperClosed ==> !e.armed && WinnerOk(e, e.winner.value))
    && (!e.wrapperClosed ==> !e.closed && e.removed == [])
    && (forall t :: t in e.calls && e.winner != Some(t) ==> e.calls[t] == Entering || e.calls[t] == Finished)
    && (forall t :: CallAt(e, t, Finished) ==> e.wrapperClosed)
    && (!e.handler.Running? ==> e.handler.t in e.calls)
    && (e.handler.Ended? ==> CallAt(e, e.handler.t, Finished))
  }

  ghost predicate AllOk(ss: map<Sid, Sess>) { forall sid :: sid in ss ==> SessOk(ss[sid]) }

  ghost predicate KeysOk(table: map<Key, Sid>, ss: map<Sid, Sess>) {
    forall k :: k in table ==> table[k] in ss && ss[table[k]].key == k
  }

  /** The table holds each session until its callback ran, under its own key. */
  ghost predicate HeldOk(table: map<Key, Sid>, ss: map<Sid, Sess>) {
    forall sid :: sid in ss ==> (ss[sid].removed == [] <==> Found(table, ss[sid].key) == Some(sid))
  }

  ghost predicate RemovedOk(ss: map<Sid, Sess>) {
    forall sid :: sid in ss ==> ss[sid].removed == [] || ss[sid].removed == [Some(sid)]
  }

  ghost predicate Inv(s: State) {
    AllOk(s.ss) && KeysOk(s.table, s.ss) && HeldOk(s.table, s.ss) && RemovedOk(s.ss)
  }

  lemma AllOkSet(ss: map<Sid, Sess>, sid: Sid, e: Sess)
    requires AllOk(ss) && SessOk(e)
    ensures AllOk(ss[sid := e])
  {
  }

  lemma SessStep(e: Sess, a: Action, found: Option<Sid>)
    requires SessOk(e) && EnabledFor(e, a)
    ensures SessOk(DoSess(e, a, found))
    ensures a.RunCallback? ==> e.removed == []
  {
    var e' := DoSess(e, a, found);
    if a.RunCallback? {
      assert e.winner == Some(a.t);
    } else if a.CloseSession? {
      assert e.winner == Some(a.t);
    }
    forall t | CallAt(e', t, Finished)
      ensures e'.wrapperClosed
    {
      assert CallAt(e, t, Finished) || e'.wrapperClosed;
    }
  }

  lemma SameLinks(table: map<Key, Sid>, ss: map<Sid, Sess>, sid: Sid, e: Sess)
    requires KeysOk(table, ss) && HeldOk(table, ss) && RemovedOk(ss)
    requires sid in ss && e.key == ss[sid].key && e.removed == ss[sid].removed
    ensures KeysOk(table, ss[sid := e]) && HeldOk(table, ss[sid := e]) && RemovedOk(ss[sid := e])
  {
  }

  lemma PlainStep(s: State, sid: Sid, e: Sess)
    requires Inv(s) && sid in s.ss && SessOk(e) && e.key == s.ss[sid].key && e.removed == s.ss[sid].removed
    ensures Inv(State(s.table, s.ss[sid := e]))
  {
    AllOkSet(s.ss, sid, e);
    SameLinks(s.table, s.ss, sid, e);
  }

  /** Deleting by key removes the session whose callback runs, and no other. */
  lemma RemoveHeld(table: map<Key, Sid>, ss: map<Sid, Sess>, sid: Sid, e: Sess)
    requires HeldOk(table, ss) && sid in ss && e.key == ss[sid].key && ss[sid].removed == [] && e.removed != []
    ensures Found(table, e.key) == Some(sid)
    ensures HeldOk(table - {e.key}, ss[sid := e])
  {
    var table', ss' := table - {e.key}, ss[sid := e];
    forall i | i in ss'
      ensures ss'[i].removed == [] <==> Found(table', ss'[i].key) == Some(i)
    {
      assert i != sid ==> (ss[i].removed == [] <==> Found(table, ss[i].key) == Some(i));
    }
  }

  lemma RemoveStep(s: State, sid: Sid, e: Sess)
    requires Inv(s) && sid in s.ss && SessOk(e) && e.key == s.ss[sid].key
    requires s.ss[sid].removed == [] && e.removed == [Found(s.table, e.key)]
    ensures Inv(State(s.table - {e.key}, s.ss[sid := e]))
  {
    AllOkSet(s.ss, sid, e);
    RemoveHeld(s.table, s.ss, sid, e);
  }

  lemma OpenStep(s: State, key: Key, sid: Sid)
    requires Inv(s) && sid !in s.ss && key !in s.table
    ensures Inv(State(s.table[key := sid], s.ss[sid := NewSession(key)]))
  {
    var table', ss' := s.table[key := sid], s.ss[sid := NewSession(key)];
    AllOkSet(s.ss, sid, NewSession(key));
    forall i | i in ss'
      ensures ss'[i].removed == [] <==> Found(table', ss'[i].key) == Some(i)
    {
      assert i != sid ==> (s.ss[i].removed == [] <==> Found(s.table, s.ss[i].key) == Some(i));
    }
  }

  lemma StepInv(s: State, a: Action)
    requires Inv(s) && Enabled(s, a)
    ensures Inv(Next(s, a))
  {
    if a.Datagram? {
      if a.key !in s.table { OpenStep(s, a.key, a.sid); }
    } else {
      var found := Found(s.table, s.ss[a.sid].key);
      var e := DoSess(s.ss[a.sid], a, found);
      SessStep(s.ss[a.sid], a, found);
      if a.RunCallback? { RemoveStep(s, a.sid, e); } else { PlainStep(s, a.sid, e); }
    }
  }

  // --------------------------------------------------------------- runs

  predicate Steps(s: State, a: Action, s': State) { Enabled(s, a) && s' == Next(s, a) }

  ghost predicate Trace(sts: seq<State>, acts: seq<Action>) {
    && |sts| == |acts| + 1 && sts[0] == State(map[], map[])
    && forall i {:trigger acts[i]} :: 0 <= i < |acts| ==> Steps(sts[i], acts[i], sts[i + 1])
  }

  ghost predicate Reachable(s: State) {
    exists sts, acts :: Trace(sts, acts) && sts[|acts|] == s
  }

  lemma {:induction false} TraceInv(sts: seq<State>, acts: seq<Action>, k: nat)
    requires Trace(sts, acts) && k <= |acts|
    ensures Inv(sts[k])
  {
    if k > 0 {
      TraceInv(sts, acts, k - 1);
      assert Steps(sts[k - 1], acts[k - 1], sts[k]);
      StepInv(sts[k - 1], acts[k - 1]);
    }
  }

  lemma ReachableInv(s: State)
    requires Reachable(s)
    ensures Inv(s)
  {
    var sts, acts :| Trace(sts, acts) && sts[|acts|] == s;
    TraceInv(sts, acts, |acts|);
  }

  lemma ReachableStep(s: State, a: Action)
    requires Reachable(s) && Enabled(s, a)
    ensures Reachable(Next(s, a))
  {
    var sts, acts :| Trace(sts, acts) && sts[|acts|] == s;
    assert Trace(sts + [Next(s, a)], acts + [a]);
  }

  /** A session's callback runs at most once over any run, what it deletes is
      that same session, and until then the table holds it under its key. */
  lemma CallbackOnce(s: State, sid: Sid)
    requires Reachable(s) && sid in s.ss
    ensures s.ss[sid].removed == [] || s.ss[sid].removed == [Some(sid)]
    ensures s.ss[sid].removed == [] <==> s.ss[sid].key in s.table && s.table[s.ss[sid].key] == sid
  {
    ReachableInv(s);
  }

  /** Two sessions for the same peer are never both in use: the older one's
      callback has already run. */
  lemma OnePerPeer(s: State, i: Sid, j: Sid)
    requires Reachable(s) && i in s.ss && j in s.ss && i != j && s.ss[i].key == s.ss[j].key
    ensures s.ss[i].removed == [Some(i)] || s.ss[j].removed == [Some(j)]
  {
    ReachableInv(s);
  }

  lemma ClosedIsStopped(s: State, sid: Sid)
    requires Reachable(s) && sid in s.ss && s.ss[sid].wrapperClosed
    ensures !s.ss[sid].armed
  {
    ReachableInv(s);
  }

  lemma ClosedStays(s: State, a: Action, sid: Sid)
    requires Enabled(s, a) && sid in s.ss && s.ss[sid].wrapperClosed
    ensures sid in Next(s, a).ss && Next(s, a).ss[sid].wrapperClosed
  {
  }

  /** A closed wrapper's timer is stopped, and no later step of any kind arms it. */
  lemma NeverRearmed(s: State, a: Action, sid: Sid)
    requires Reachable(s) && Enabled(s, a) && sid in s.ss && s.ss[sid].wrapperClosed
    ensures !s.ss[sid].armed && forall t :: !Enabled(s, TimerFires(sid, t))
    ensures sid in Next(s, a).ss && Next(s, a).ss[sid].wrapperClosed && !Next(s, a).ss[sid].armed
  {
    ClosedIsStopped(s, sid);
    ClosedStays(s, a, sid);
    ReachableStep(s, a);
    ClosedIsStopped(Next(s, a), sid);
  }

  /** Some closing call has closed the wrapper and not yet reached the table. */
  predicate ClosingNow(e: Sess, t: Tid) { CallAt(e, t, Inner) || CallAt(e, t, Callback) }

  /** After the handler's last close has returned, the session is still in the
      table exactly while another call is closing it. */
  lemma InTableAfterHandler(s: State, sid: Sid)
    requires Reachable(s) && sid in s.ss && s.ss[sid].handler.Ended?
    ensures Found(s.table, s.ss[sid].key) == Some(sid) <==> exists t :: ClosingNow(s.ss[sid], t)
    ensures forall t :: ClosingNow(s.ss[sid], t) ==> t != s.ss[sid].handler.t
  {
    ReachableInv(s);
    var e := s.ss[sid];
    assert CallAt(e, e.handler.t, Finished);
    if e.removed == [] {
      assert ClosingNow(e, e.winner.value);
    } else {
      forall t: Tid
        ensures !ClosingNow(e, t)
      {
        assert t in e.calls && e.winner != Some(t) ==> e.calls[t] == Entering || e.calls[t] == Finished;
      }
    }
  }

  /** So a handler whose own call closed the wrapper leaves nothing behind. */
  lemma WinningHandlerRemoves(s: State, sid: Sid)
    requires Reachable(s) && sid in s.ss && s.ss[sid].handler.Ended?
    requires s.ss[sid].winner == Some(s.ss[sid].handler.t)
    ensures Found(s.table, s.ss[sid].key) != Some(sid)
  {
    ReachableInv(s);
  }

  /** And the call that is still closing needs only its own next steps, which
      nothing can block, to take the session out. */
  lemma CloserRemoves(s: State, sid: Sid, t: Tid)
    requires Reachable(s) && sid in s.ss && ClosingNow(s.ss[sid], t)
    ensures CallAt(s.ss[sid], t, Inner) ==>
              Enabled(s, CloseSession(sid, t)) && CallAt(Next(s, CloseSession(sid, t)).ss[sid], t, Callback)
    ensures CallAt(s.ss[sid], t, Callback) ==>
              Enabled(s, RunCallback(sid, t)) && Found(Next(s, RunCallback(sid, t)).table, s.ss[sid].key) == None
  {
    ReachableInv(s);
    assert s.ss[sid].winner == Some(t);
  }

  /** The handler's close can return while the timer's is still on its way: the
      session outlives its handler's last close. */
  lemma OutlivesHandler() returns (s: State)
    ensures Reachable(s) && 0 in s.ss && s.ss[0].handler.Ended?
    ensures Found(s.table, s.ss[0].key) == Some(0)
  {
    s := State(map[], map[]);
    assert Trace([s], []) && [s][0] == s;
    ReachableStep(s, Datagram("peer", 0));
    s := Next(s, Datagram("peer", 0));
    ReachableStep(s, TimerFires(0, 1));
    s := Next(s, TimerFires(0, 1));
    ReachableStep(s, CloseWrapper(0, 1));
    s := Next(s, CloseWrapper(0, 1));
    ReachableStep(s, HandlerCloses(0, 2));
    s := Next(s, HandlerCloses(0, 2));
    ReachableStep(s, CloseWrapper(0, 2));
    s := Next(s, CloseWrapper(0, 2));
    ReachableStep(s, HandlerReturns(0));
    s := Next(s, HandlerReturns(0));
  }

  // ------------------------------------------------------- the idle wrapper

  class IdleTimeoutConn {
    var closed: bool
    var armed: bool        // the timer is running
    var innerCloses: nat   // how often the wrapped connection was closed

    /** Closed means stopped for good and the wrapped connection closed once. */
    predicate Valid()
      reads this
    {
      && (closed ==> !armed)
      && innerCloses == if closed then 1 else 0
    }

    constructor ()
      ensures Valid() && armed && !closed
    {
      closed, armed, innerCloses := false, true, 0;
    }

    method Touch()
      requires Valid()
      modifies this`armed
      ensures Valid() && armed == !closed
    {
      if !closed {
        armed := true;
      }
    }

    /** Traffic of `n` bytes through the wrapper; an empty one is not activity. */
    method Transfer(n: nat)
      requires Valid()
      modifies this`armed
      ensures Valid() && armed == if n > 0 then !closed else old(armed)
    {
      if n > 0 {
        Touch();
      }
    }

    /** Any number of calls close the wrapped connection once. */
    method Close()
      requires Valid()
      modifies this
      ensures Valid() && closed && innerCloses == 1
    {
      if closed {
        return;
      }
      closed := true;
      armed := false;
      innerCloses := innerCloses + 1;
    }
  }
}
