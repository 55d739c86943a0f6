/** The pool's own loops: filling, getting and draining, each run without interference. */
module ConnectionPools {
  import opened Wrappers
  import opened Pool

  /** What one turn of the fill loop meets: a cancelled context before
      dialling, a failed dial, or a dialled connection; `stop` when the
      context's branch of the following select is the one taken. */
  datatype Turn = SawCancel | Failed(stop: bool) | Connected(c: Conn, stop: bool)

  predicate Stops(t: Turn) { t.SawCancel? || t.stop }

  /** The connections a sequence of turns pools. */
  function Added(ts: seq<Turn>): seq<Conn> {
    if ts == [] then []
    else
      var t := ts[|ts| - 1];
      Added(ts[..|ts| - 1]) + if t.Connected? && !t.stop then [t.c] else []
  }

  /** The connections a sequence of turns closes. */
  function Dropped(ts: seq<Turn>): seq<Conn> {
    if ts == [] then []
    else
      var t := ts[|ts| - 1];
      Dropped(ts[..|ts| - 1]) + if t.Connected? && t.stop then [t.c] else []
  }

  /** The connections a sequence of turns dials. */
  function DialledBy(ts: seq<Turn>): seq<Conn> {
    if ts == [] then []
    else
      var t := ts[|ts| - 1];
      DialledBy(ts[..|ts| - 1]) + if t.Connected? then [t.c] else []
  }

  /** Every connection dialled is pooled or closed, once for each time it is
      dialled: nothing is lost, doubled or both. */
  lemma {:induction false} TurnsConserve(ts: seq<Turn>)
    ensures multiset(Added(ts)) + multiset(Dropped(ts)) == multiset(DialledBy(ts))
  {
    if ts != [] { TurnsConserve(ts[..|ts| - 1]); }
  }

  class ConnectionPool {
    const minIdle: nat
    var conns: seq<Conn>
    var closed: bool
    var cancelled: bool
    var shut: seq<Conn>   // the connections closed so far

    predicate Valid()
      reads this
    {
      |conns| <= minIdle
    }

    constructor (minIdle: nat)
      ensures Valid() && this.minIdle == minIdle && conns == [] && shut == [] && !closed && !cancelled
    {
      this.minIdle := minIdle;
      conns, shut, closed, cancelled := [], [], false, false;
    }

    /** One tick of the maintainer, given what each turn meets.  Without
        interference it stops only on cancellation, or with exactly `minIdle`
        pooled, or because `turns` ends; the discard branch is dead. */
    method Fill(turns: seq<Turn>) returns (exited: bool, used: nat)
      requires Valid()
      modifies this`conns, this`shut
      ensures Valid() && used <= |turns|
      ensures conns == old(conns) + Added(turns[..used])
      ensures shut == old(shut) + Dropped(turns[..used])
      ensures exited <==> used > 0 && Stops(turns[used - 1])
      ensures forall i :: 0 <= i < used - 1 ==> !Stops(turns[i])
      ensures exited || used == |turns| || |conns| == minIdle
    {
      exited, used := false, 0;
      while |conns| < minIdle && used < |turns|
        invariant Valid() && used <= |turns|
        invariant conns == old(conns) + Added(turns[..used])
        invariant shut == old(shut) + Dropped(turns[..used])
        invariant forall i :: 0 <= i < used ==> !Stops(turns[i])
      {
        var turn := turns[used];
        used := used + 1;
        assert turns[..used][..used - 1] == turns[..used - 1];
        if turn.SawCancel? {
          return true, used;
        }
        if turn.Failed? {
          if turn.stop { return true, used; }
        } else if turn.stop {
          shut := shut + [turn.c];
          return true, used;
        } else if |conns| < minIdle {
          conns := conns + [turn.c];
        } else {
          assert false;   // the pool cannot be full here
        }
      }
    }

    /** Look number `k` at `closed`, when another goroutine stores it just before
        look number `stored` of this call. */
    method Look(k: nat, stored: nat) returns (seen: bool)
      modifies this`closed
      ensures seen == closed == (old(closed) || stored <= k)
    {
      if stored <= k {
        closed := true;
      }
      seen := closed;
    }

    /** A pooled connection first, in the order they were pooled; dialling only
        when there is none.  Each path looks at `closed` last of all, and what it
        then has in hand is closed if the look sees it stored. */
    method Get(dial: Option<Conn>, stored: nat) returns (r: Option<Conn>)
      requires Valid()
      modifies this`conns, this`closed, this`shut
      ensures Valid()
      ensures
        var entered, pooled := !old(closed) && stored > 0, old(conns) != [];
        var dials := entered && !pooled && stored > 1;
        var got := if entered && pooled then Some(old(conns)[0]) else if dials then dial else None;
        var late := if pooled then stored <= 1 else stored <= 2;
        && conns == (if entered && pooled then old(conns)[1..] else old(conns))
        && r == (if late then None else got)
        && shut == old(shut) + if late && got.Some? then [got.value] else []
      ensures r.Some? ==> !closed
    {
      var seen := Look(0, stored);
      if seen {
        return None;
      }
      if |conns| > 0 {
        var c := conns[0];
        conns := conns[1..];
        seen := Look(1, stored);
        if seen {
          shut := shut + [c];
          return None;
        }
        return Some(c);
      }
      seen := Look(1, stored);
      if seen || dial.None? {
        return None;
      }
      seen := Look(2, stored);
      if seen {
        shut := shut + [dial.value];
        return None;
      }
      return dial;
    }

    /** Closing empties the pool and closes everything that was in it, once each. */
    method Close()
      requires Valid()
      modifies this
      ensures Valid() && closed && cancelled && conns == [] && shut == old(shut) + old(conns)
    {
      closed := true;
      cancelled := true;
      while |conns| > 0
        invariant shut + conns == old(shut) + old(conns) && closed && cancelled && Valid()
        decreases |conns|
      {
        var c := conns[0];
        assert conns == [c] + conns[1..];
        conns := conns[1..];
        shut := shut + [c];
      }
      assert conns == [];
    }
  }
}
