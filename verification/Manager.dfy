/** The manager's methods on its registry: each critical section of `m.mu`
    performs the registry step of the same name. */
module Managers {
  import opened Sequences
  import R = Registry

  type Lid = R.Lid
  type Time = R.Time

  class ReverseTunnelManager {
    var listeners: map<string, Lid>
    var store: map<Lid, R.Listener>  // the tunnelListener structs by identity
    const idleTimeout: Time

    constructor (idleTimeout: Time)
      ensures listeners == map[] && store == map[] && this.idleTimeout == idleTimeout
    {
      this.idleTimeout := idleTimeout;
      listeners, store := map[], map[];
    }

    /** The registry at clock reading `now`, without the goroutines around it. */
    ghost function At(now: Time): (s: R.State)
      reads this
    {
      R.State(idleTimeout, listeners, store, map[], map[], now)
    }

    ghost predicate Valid()
      reads this
    {
      forall a :: a in listeners ==> listeners[a] in store && store[listeners[a]].addr == a
    }

    /** getOrCreateListener once the bind address is known; `created` is the new
        listener, `listenOk` whether the socket could be opened. */
    method GetOrCreate(addr: string, protocol: R.Protocol, now: Time, created: Lid, listenOk: bool)
      returns (ok: bool, l: Lid)
      requires Valid() && created !in store
      modifies this
      ensures Valid()
      ensures ok <==> addr in old(listeners) || listenOk
      ensures ok ==>
        && R.Enabled(old(At(now)), R.GetOrCreate(addr, protocol, created))
        && At(now) == R.Do(old(At(now)), R.GetOrCreate(addr, protocol, created))
        && addr in listeners && l == listeners[addr]
      ensures !ok ==> At(now) == old(At(now))
    {
      if addr in listeners {
        l := listeners[addr];
      } else {
        if !listenOk {
          return false, 0;
        }
        l := created;
        store := store[l := R.Listener(addr, protocol, now, 0, false, R.Accepting)];
        listeners := listeners[addr := l];
      }
      store := store[l := store[l].(lastUsed := now)];
      ok := true;
    }

    method Touch(l: Lid, now: Time)
      requires Valid() && l in store
      modifies this
      ensures Valid() && At(now) == R.Do(old(At(now)), R.Touch(l))
    {
      if store[l].addr in listeners && listeners[store[l].addr] == l {
        store := store[l := store[l].(lastUsed := now)];
      }
    }

    /** beginIncoming with delta 1, updateActivePipes with delta -1. */
    method UpdateActive(l: Lid, delta: int, now: Time)
      requires Valid() && l in store
      modifies this
      ensures Valid() && At(now) == R.Counted(old(At(now)), l, delta)
    {
      if store[l].addr in listeners && listeners[store[l].addr] == l {
        var tl := store[l];
        store := store[l := tl.(active := tl.active + delta, lastUsed := now)];
      }
    }

    /** The locked part of reapIdleListenersOnce: one scan of the map, deleting
        stale entries on the way. */
    method ReapIdle(now: Time) returns (stale: seq<Lid>)
      requires Valid()
      modifies this
      ensures Valid() && store == old(store)
      ensures NoDup(stale) && (forall l :: l in stale <==> R.Stale(old(At(now)), l))
      ensures listeners == R.Without(old(listeners), stale)
    {
      ghost var was := At(now);
      stale := [];
      var todo := listeners.Keys;
      while todo != {}
        invariant Valid() && store == was.store && todo <= listeners.Keys <= was.listeners.Keys
        invariant forall a :: a in listeners ==> listeners[a] == was.listeners[a]
        invariant NoDup(stale)
        invariant forall l :: l in stale <==> R.Stale(was, l) && was.store[l].addr !in todo
        invariant forall a :: a in was.listeners && a !in todo ==> (a in listeners <==> was.listeners[a] !in stale)
        decreases todo
      {
        var addr :| addr in todo;
        todo := todo - {addr};
        var l := listeners[addr];
        var tl := store[l];
        if !(tl.active > 0 || now - tl.lastUsed < idleTimeout) {
          listeners := listeners - {addr};
          stale := stale + [l];
        }
      }
      assert listeners == R.Without(was.listeners, stale);
    }

    /** The locked part of Close: every entry is moved to the returned list. */
    method TakeAll() returns (all: seq<Lid>)
      requires Valid()
      modifies this
      ensures Valid() && store == old(store) && listeners == map[]
      ensures NoDup(all) && (forall l :: l in all <==> R.Registered(old(At(0)), l))
    {
      ghost var was := At(0);
      all := [];
      while listeners != map[]
        invariant Valid() && store == was.store && listeners.Keys <= was.listeners.Keys
        invariant forall a :: a in listeners ==> listeners[a] == was.listeners[a]
        invariant NoDup(all)
        invariant forall l :: l in all <==> R.Registered(was, l) && was.store[l].addr !in listeners
        decreases listeners.Keys
      {
        var addr :| addr in listeners;
        all := all + [listeners[addr]];
        listeners := listeners - {addr};
      }
    }

    /** The loop after the lock in Close and in the reaper: shut down each in turn. */
    method ShutDown(ls: seq<Lid>)
      requires Valid() && forall l :: l in ls ==> l in store
      modifies this
      ensures Valid() && listeners == old(listeners) && store.Keys == old(store).Keys
      ensures forall l :: l in store ==>
        store[l] == if l in ls then old(store)[l].(quit := true) else old(store)[l]
    {
      for i := 0 to |ls|
        invariant Valid() && listeners == old(listeners) && store.Keys == old(store).Keys
        invariant forall l :: l in store ==>
          store[l] == if l in ls[..i] then old(store)[l].(quit := true) else old(store)[l]
      {
        assert ls[..i + 1] == ls[..i] + [ls[i]] && ls[i] in ls;
        store := store[ls[i] := store[ls[i]].(quit := true)];
      }
      assert ls[..|ls|] == ls;
    }

    /** reapIdleListenersOnce: exactly the stale listeners leave the registry, shut down. */
    method ReapIdleListenersOnce(now: Time) returns (stale: seq<Lid>)
      requires Valid()
      modifies this
      ensures Valid() && store.Keys == old(store).Keys
      ensures forall l :: R.Registered(At(now), l) <==> R.Registered(old(At(now)), l) && !R.Stale(old(At(now)), l)
      ensures forall l :: l in store ==>
        store[l] == if R.Stale(old(At(now)), l) then old(store)[l].(quit := true) else old(store)[l]
    {
      stale := ReapIdle(now);
      ShutDown(stale);
    }

    /** Close: nothing stays registered and whatever was registered is shut down. */
    method Close()
      requires Valid()
      modifies this
      ensures Valid() && listeners == map[] && store.Keys == old(store).Keys
      ensures forall l :: l in store ==>
        store[l] == if R.Registered(old(At(0)), l) then old(store)[l].(quit := true) else old(store)[l]
    {
      var all := TakeAll();
      ShutDown(all);
    }

    /** The end of a failed accept loop: only the listener's own entry goes. */
    method Unregister(l: Lid)
      requires Valid() && l in store
      modifies this`listeners
      ensures Valid() && forall x :: R.Registered(At(0), x) <==> R.Registered(old(At(0)), x) && x != l
    {
      if store[l].addr in listeners && listeners[store[l].addr] == l {
        listeners := listeners - {store[l].addr};
      }
    }
  }
}
