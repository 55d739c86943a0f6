/** The idle reaper over every run: what it removes, told by what happened. */
module ReaperRuns {
  import opened Wrappers
  import R = Registry
  import opened Rendezvous
  import opened ManagerTheorems

  /** The event creates, joins or touches listener `l`, or begins or ends one of
      its connections. */
  predicate Uses(s: System, e: Event, l: Lid) {
    match e.a
    case ClientArrives(addr, _, created, _) => l == if addr in s.reg.listeners then s.reg.listeners[addr] else created
    case ClientTouches(x, _) => x == l
    case Accepts(x, _) => x == l
    case IncomingTouches(x, _) => x == l
    case IncomingEnds(x, _) => x == l
    case _ => false
  }

  /** The same, seen from the registry. */
  predicate UsesListener(reg: R.State, ra: R.Action, l: Lid) {
    match ra
    case GetOrCreate(addr, _, created) => l == if addr in reg.listeners then reg.listeners[addr] else created
    case Touch(x) => x == l
    case Begin(x, _) => x == l
    case End(c) => c in reg.inflight && reg.inflight[c] == l
    case _ => false
  }

  lemma UseIsRecorded(reg: R.State, ra: R.Action, t: Time, l: Lid)
    requires R.Inv(reg) && R.CanStep(reg, ra, t) && R.Registered(R.Next(reg, ra, t), l) && UsesListener(reg, ra, l)
    ensures R.Next(reg, ra, t).store[l].lastUsed == t
  {
  }

  lemma OthersAreNot(reg: R.State, ra: R.Action, t: Time, l: Lid)
    requires R.Inv(reg) && R.CanStep(reg, ra, t) && R.Registered(R.Next(reg, ra, t), l) && !UsesListener(reg, ra, l)
    ensures R.Registered(reg, l) && R.Next(reg, ra, t).store[l].lastUsed == reg.store[l].lastUsed
  {
    OthersWereThere(reg, ra, t, l);
  }

  lemma OthersWereThere(reg: R.State, ra: R.Action, t: Time, l: Lid)
    requires R.Inv(reg) && R.CanStep(reg, ra, t) && R.Registered(R.Next(reg, ra, t), l) && !UsesListener(reg, ra, l)
    ensures R.Registered(reg, l)
  {
  }

  lemma SameUse(s: System, e: Event, l: Lid)
    requires CanStep(s, e.a, e.t) && RegistryPart(e.a).Some?
    ensures Uses(s, e, l) <==> UsesListener(s.reg, RegistryPart(e.a).value, l)
  {
  }

  /** What a step does to the time a registered listener was last used. */
  lemma UseStep(s: System, e: Event, l: Lid)
    requires R.Inv(s.reg) && CanStep(s, e.a, e.t) && R.Registered(Next(s, e.a, e.t).reg, l)
    ensures Uses(s, e, l) ==> Next(s, e.a, e.t).reg.store[l].lastUsed == e.t
    ensures !Uses(s, e, l) ==>
              R.Registered(s.reg, l) && Next(s, e.a, e.t).reg.store[l].lastUsed == s.reg.store[l].lastUsed
  {
    if RegistryPart(e.a).Some? {
      var ra := RegistryPart(e.a).value;
      SameUse(s, e, l);
      if UsesListener(s.reg, ra, l) { UseIsRecorded(s.reg, ra, e.t, l); } else { OthersAreNot(s.reg, ra, e.t, l); }
    }
  }

  lemma ClockStep(s: System, e: Event)
    requires CanStep(s, e.a, e.t)
    ensures s.reg.now <= e.t == Next(s, e.a, e.t).reg.now
  {
  }

  lemma {:induction false} ClockAlong(ss: seq<System>, es: seq<Event>, j: nat, k: nat)
    requires Trace(ss, es) && j < k <= |es|
    ensures es[j].t <= ss[k].reg.now
  {
    assert Steps(ss[k - 1], es[k - 1], ss[k]);
    ClockStep(ss[k - 1], es[k - 1]);
    if j < k - 1 { ClockAlong(ss, es, j, k - 1); }
  }

  /** `u` is the clock reading of the last use of `l` before step `k`. */
  ghost predicate LastUse(ss: seq<System>, es: seq<Event>, l: Lid, k: nat, u: Time)
    requires |ss| == |es| + 1 && k <= |es|
  {
    && (forall j {:trigger es[j]} :: 0 <= j < k && Uses(ss[j], es[j], l) ==> es[j].t <= u)
    && exists j {:trigger es[j]} :: 0 <= j < k && Uses(ss[j], es[j], l) && es[j].t == u
  }

  lemma ClockAt(ss: seq<System>, es: seq<Event>, j: nat, k: nat)
    requires Trace(ss, es) && j <= k < |es|
    ensures es[j].t <= es[k].t
  {
    assert Steps(ss[k], es[k], ss[k + 1]);
    ClockStep(ss[k], es[k]);
    if j < k { ClockAlong(ss, es, j, k); }
  }

  ghost predicate LatestAt(es: seq<Event>, k: nat)
    requires k < |es|
  {
    forall j {:trigger es[j]} :: 0 <= j <= k ==> es[j].t <= es[k].t
  }

  lemma LatestNow(ss: seq<System>, es: seq<Event>, k: nat)
    requires Trace(ss, es) && k < |es|
    ensures LatestAt(es, k)
  {
    forall j {:trigger es[j]} | 0 <= j <= k ensures es[j].t <= es[k].t {
      ClockAt(ss, es, j, k);
    }
  }

  lemma LastUseNow(ss: seq<System>, es: seq<Event>, l: Lid, k: nat, u: Time)
    requires |ss| == |es| + 1 && 0 < k <= |es| && LatestAt(es, k - 1) && Uses(ss[k - 1], es[k - 1], l) && u == es[k - 1].t
    ensures LastUse(ss, es, l, k, u)
  {
  }

  lemma LastUseKept(ss: seq<System>, es: seq<Event>, l: Lid, k: nat, u: Time)
    requires |ss| == |es| + 1 && 0 < k <= |es| && LastUse(ss, es, l, k - 1, u) && !Uses(ss[k - 1], es[k - 1], l)
    ensures LastUse(ss, es, l, k, u)
  {
  }

  /** What step `k` did to the record. */
  predicate Recorded(ss: seq<System>, es: seq<Event>, l: Lid, k: nat)
    requires |ss| == |es| + 1 && k < |es|
  {
    R.Registered(ss[k + 1].reg, l) ==>
      if Uses(ss[k], es[k], l) then ss[k + 1].reg.store[l].lastUsed == es[k].t
      else R.Registered(ss[k].reg, l) && ss[k + 1].reg.store[l].lastUsed == ss[k].reg.store[l].lastUsed
  }

  lemma UseAt(ss: seq<System>, es: seq<Event>, l: Lid, k: nat)
    requires Trace(ss, es) && k < |es| && R.Inv(ss[k].reg)
    ensures Recorded(ss, es, l, k)
  {
    assert Steps(ss[k], es[k], ss[k + 1]);
    if R.Registered(ss[k + 1].reg, l) { UseStep(ss[k], es[k], l); }
  }

  ghost predicate UseKnown(ss: seq<System>, es: seq<Event>, l: Lid, k: nat)
    requires |ss| == |es| + 1 && k <= |es|
  {
    R.Registered(ss[k].reg, l) ==> LastUse(ss, es, l, k, ss[k].reg.store[l].lastUsed)
  }

  lemma UseKnownStep(ss: seq<System>, es: seq<Event>, l: Lid, k: nat)
    requires |ss| == |es| + 1 && 0 < k <= |es| && LatestAt(es, k - 1) && UseKnown(ss, es, l, k - 1)
    requires Recorded(ss, es, l, k - 1)
    ensures UseKnown(ss, es, l, k)
  {
    if R.Registered(ss[k].reg, l) {
      if Uses(ss[k - 1], es[k - 1], l) {
        LastUseNow(ss, es, l, k, ss[k].reg.store[l].lastUsed);
      } else {
        LastUseKept(ss, es, l, k, ss[k].reg.store[l].lastUsed);
      }
    }
  }

  lemma UseKnownStart(ss: seq<System>, es: seq<Event>, l: Lid)
    requires |ss| == |es| + 1 && ss[0].reg.store == map[]
    ensures UseKnown(ss, es, l, 0)
  {
  }

  lemma {:induction false} UseKnownAlong(ss: seq<System>, es: seq<Event>, l: Lid, k: nat)
    requires |ss| == |es| + 1 && k <= |es| && UseKnown(ss, es, l, 0)
    requires forall i :: 0 <= i < |es| && UseKnown(ss, es, l, i) ==> UseKnown(ss, es, l, i + 1)
    ensures UseKnown(ss, es, l, k)
  {
    if k > 0 { UseKnownAlong(ss, es, l, k - 1); }
  }

  /** The registry's record of the last use is the last use. */
  lemma LastUsedIs(ss: seq<System>, es: seq<Event>, l: Lid, k: nat)
    requires Trace(ss, es) && Inv(ss[0]) && ss[0].reg.store == map[] && k <= |es|
    ensures UseKnown(ss, es, l, k)
  {
    forall i | 0 <= i < |es| && UseKnown(ss, es, l, i)
      ensures UseKnown(ss, es, l, i + 1)
    {
      TraceKeepsInv(ss, es, i);
      LatestNow(ss, es, i);
      UseAt(ss, es, l, i);
      UseKnownStep(ss, es, l, i + 1);
    }
    UseKnownStart(ss, es, l);
    UseKnownAlong(ss, es, l, k);
  }

  lemma ReapsStale(s: System, stale: seq<Lid>, at: Time, t: Time, l: Lid)
    requires CanStep(s, RegistryOnly(R.Reap(stale, at)), t)
    ensures l in stale <==>
              R.Registered(s.reg, l) && s.reg.store[l].active <= 0 && s.reg.idleTimeout <= at - s.reg.store[l].lastUsed
  {
    assert l in stale <==> R.Stale(s.reg.(now := t).(now := at), l);
  }

  lemma IdleMeansNotBusy(s: System, l: Lid)
    requires Inv(s) && R.Registered(s.reg, l)
    ensures l in s.qs && (s.reg.store[l].active <= 0 <==> Busy(s.qs[l]) == {})
  {
    BusyIsInFlight(s, l);
  }

  lemma IdleForIs(ss: seq<System>, es: seq<Event>, l: Lid, k: nat, u: Time, limit: Time)
    requires |ss| == |es| + 1 && k <= |es| && LastUse(ss, es, l, k, u)
    ensures u <= limit <==> forall j {:trigger es[j]} :: 0 <= j < k && Uses(ss[j], es[j], l) ==> es[j].t <= limit
  {
  }

  /** At every tick of the reaper in every run: it removes exactly the registered
      listeners with no connection running whose every creation, join, touch, and
      beginning or end of a connection happened no later than the idle timeout
      before the clock it read. */
  lemma ReaperExact(idleTimeout: Time, t0: Time, ss: seq<System>, es: seq<Event>, k: nat, stale: seq<Lid>, at: Time, l: Lid)
    requires Trace(ss, es) && ss[0] == Initial(idleTimeout, t0)
    requires k < |es| && es[k].a == RegistryOnly(R.Reap(stale, at))
    ensures l in stale <==>
              && R.Registered(ss[k].reg, l) && l in ss[k].qs && Busy(ss[k].qs[l]) == {}
              && forall j {:trigger es[j]} :: 0 <= j < k && Uses(ss[j], es[j], l) ==> es[j].t <= at - idleTimeout
  {
    InitialInv(idleTimeout, t0);
    TraceKeepsInv(ss, es, k);
    TimeoutIsFixed(ss, es, k);
    assert Steps(ss[k], es[k], ss[k + 1]);
    ReapsStale(ss[k], stale, at, es[k].t, l);
    if R.Registered(ss[k].reg, l) {
      IdleMeansNotBusy(ss[k], l);
      LastUsedIs(ss, es, l, k);
      IdleForIs(ss, es, l, k, ss[k].reg.store[l].lastUsed, at - idleTimeout);
    }
  }

  lemma TimeoutStep(s: System, e: Event)
    requires CanStep(s, e.a, e.t)
    ensures Next(s, e.a, e.t).reg.idleTimeout == s.reg.idleTimeout
  {
  }

  lemma {:induction false} TimeoutIsFixed(ss: seq<System>, es: seq<Event>, k: nat)
    requires Trace(ss, es) && k <= |es|
    ensures ss[k].reg.idleTimeout == ss[0].reg.idleTimeout
  {
    if k > 0 {
      TimeoutIsFixed(ss, es, k - 1);
      assert Steps(ss[k - 1], es[k - 1], ss[k]);
      TimeoutStep(ss[k - 1], es[k - 1]);
    }
  }
}
