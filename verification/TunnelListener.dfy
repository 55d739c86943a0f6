/** The queue of one listener as the manager's methods work on it: a slice of a
    shared backing array, compacted in place. */
module TunnelListeners {
  import opened Sequences
  import opened QueueSections

  class WaitingConn {
    var acquired: bool

    constructor ()
      ensures !acquired
    {
      acquired := false;
    }
  }

  /** What a purge drops, entry by entry: nil entries, and entries whose `done`
      channel the test found closed. */
  function Gone(waiting: seq<WaitingConn?>, closed: seq<bool>): (gone: seq<bool>)
    requires |closed| == |waiting|
    ensures |gone| == |waiting|
    ensures forall i :: 0 <= i < |gone| ==> gone[i] == (waiting[i] == null || closed[i])
  {
    seq(|waiting|, i requires 0 <= i < |waiting| => waiting[i] == null || closed[i])
  }

  lemma FirstSurvivor(waiting: seq<WaitingConn?>, closed: seq<bool>)
    requires |closed| == |waiting|
    ensures var kept := Kept(waiting, Gone(waiting, closed)); kept != [] ==> kept[0] != null && kept[0] in waiting
  {
    if Kept(waiting, Gone(waiting, closed)) != [] {
      var i := KeptFrom(waiting, Gone(waiting, closed), 0);
    }
  }

  /** The scan of a purge: survivors are written over the front of the very slice
      being scanned.  `closed[i]` is what the test of entry `i`'s `done` channel
      answered. */
  method Compact(a: array<WaitingConn?>, off: nat, len: nat, closed: seq<bool>) returns (kept: nat, removed: bool)
    requires off + len <= a.Length && |closed| == len
    modifies a
    ensures kept <= len
    ensures a[off..off + kept] == Kept(old(a[off..off + len]), Gone(old(a[off..off + len]), closed))
    ensures removed == (true in Gone(old(a[off..off + len]), closed))
    ensures forall k :: 0 <= k < a.Length && !(off <= k < off + len) ==> a[k] == old(a[k])
  {
    ghost var was := a[off..off + len];
    ghost var gone := Gone(was, closed);
    kept, removed := 0, false;
    for i := 0 to len
      invariant kept <= i
      invariant a[off..off + kept] == Kept(was[..i], gone[..i])
      invariant forall k :: i <= k < len ==> a[off + k] == was[k]
      invariant forall k :: 0 <= k < a.Length && !(off <= k < off + len) ==> a[k] == old(a[k])
      invariant removed == (true in gone[..i])
    {
      var wait := a[off + i];
      KeptPrefix(was, gone, i);
      if wait == null || closed[i] {
        removed := true;
      } else {
        ghost var front := a[off..off + kept];
        a[off + kept] := wait;
        assert a[off..off + kept] == front;
        kept := kept + 1;
        assert a[off..off + kept] == front + [wait];
      }
    }
    assert was[..len] == was && gone[..len] == gone;
  }

  class TunnelListener {
    var buf: array<WaitingConn?>  // backing array of the slice
    var off: nat                  // where the slice starts
    var len: nat
    const waitCap: nat
    var quit: bool
    var broadcasts: nat           // how often queueCond was broadcast

    ghost predicate Valid()
      reads this
    {
      off + len <= buf.Length
    }

    ghost function Waiting(): (s: seq<WaitingConn?>)
      requires Valid()
      reads this, buf
    {
      buf[off..off + len]
    }

    constructor (waitCap: nat)
      ensures Valid() && Waiting() == [] && this.waitCap == waitCap && !quit && broadcasts == 0 && fresh(buf)
    {
      buf := new WaitingConn?[0];
      off, len, quit, broadcasts := 0, 0, false, 0;
      this.waitCap := waitCap;
    }

    /** purgeDoneWaitersLocked, and its resetting of an empty slice to nil. */
    method PurgeDoneWaiters(closed: seq<bool>)
      requires Valid() && |closed| == len
      modifies this, buf
      ensures Valid() && quit == old(quit) && (buf == old(buf) || fresh(buf))
      ensures Waiting() == Kept(old(Waiting()), Gone(old(Waiting()), closed))
      ensures broadcasts == old(broadcasts) + if true in Gone(old(Waiting()), closed) then 1 else 0
    {
      ghost var survivors := Kept(Waiting(), Gone(Waiting(), closed));
      var kept, removed := Compact(buf, off, len, closed);
      assert buf[off..off + kept] == survivors;
      len := kept;
      if kept == 0 {
        buf, off := new WaitingConn?[0], 0;
      }
      assert Waiting() == survivors;
      if removed {
        broadcasts := broadcasts + 1;
      }
    }

    /** append: in place while the backing array has room, else into a new one. */
    method Append(wait: WaitingConn)
      requires Valid()
      modifies this, buf
      ensures Valid() && quit == old(quit) && broadcasts == old(broadcasts) && (buf == old(buf) || fresh(buf))
      ensures Waiting() == old(Waiting()) + [wait]
    {
      if off + len == buf.Length {
        var grown := new WaitingConn?[2 * len + 1];
        for i := 0 to len
          invariant Valid() && off == old(off) && len == old(len) && buf == old(buf) && Waiting() == old(Waiting())
          invariant forall k :: 0 <= k < i ==> grown[k] == buf[off + k]
          invariant quit == old(quit) && broadcasts == old(broadcasts) && fresh(grown)
        {
          grown[i] := buf[off + i];
        }
        buf, off := grown, 0;
      }
      buf[off + len] := wait;
      len := len + 1;
    }

    /** One turn of the loop of enqueueWaitingConn, up to the call of Wait. */
    method EnqueueOnce(wait: WaitingConn, closed: seq<bool>) returns (outcome: EnqueueOutcome)
      requires Valid() && |closed| == len
      modifies this, buf
      ensures Valid() && quit == old(quit) && (buf == old(buf) || fresh(buf))
      ensures var r := EnqueueSection<WaitingConn?>(old(Waiting()), waitCap, old(quit), Gone(old(Waiting()), closed), wait);
        Waiting() == r.waiting && outcome == r.outcome && (broadcasts > old(broadcasts) <==> r.wake)
    {
      PurgeDoneWaiters(closed);
      if quit {
        return Refused;
      }
      if len < waitCap {
        Append(wait);
        broadcasts := broadcasts + 1;
        return Added;
      }
      return EnqueueWaits;
    }

    /** waiting[0] and waiting[1:], with an empty slice reset to nil. */
    method PopFront() returns (wait: WaitingConn?)
      requires Valid() && len > 0
      modifies this
      ensures Valid() && quit == old(quit) && broadcasts == old(broadcasts) && (buf == old(buf) || fresh(buf))
      ensures wait == old(Waiting())[0] && Waiting() == old(Waiting())[1..]
    {
      wait := buf[off];
      off, len := off + 1, len - 1;
      if len == 0 {
        buf, off := new WaitingConn?[0], 0;
      }
    }

    /** One turn of the loop of acquireWaitingConn, up to the call of Wait, but for
        the marking.  The purge leaves no nil entry, so the turn never skips one. */
    method TakeOnce(expired: bool, closed: seq<bool>) returns (outcome: AcquireOutcome<WaitingConn?>)
      requires Valid() && |closed| == len
      modifies this, buf
      ensures Valid() && quit == old(quit) && (buf == old(buf) || fresh(buf))
      ensures var r := AcquireSection<WaitingConn?>(old(Waiting()), old(quit), expired, Gone(old(Waiting()), closed));
        Waiting() == r.waiting && outcome == r.outcome && (broadcasts > old(broadcasts) <==> r.wake)
      ensures outcome.Taken? ==> outcome.conn != null && outcome.conn in old(Waiting())
    {
      ghost var kept := Kept(Waiting(), Gone(Waiting(), closed));
      FirstSurvivor(Waiting(), closed);
      PurgeDoneWaiters(closed);
      assert Waiting() == kept && |kept| == len;
      if len > 0 {
        var wait := PopFront();
        broadcasts := broadcasts + 1;
        assert wait == kept[0] && Waiting() == kept[1..];
        return Taken(wait);
      }
      if expired || quit {
        return NoneAvailable;
      }
      return AcquireWaits;
    }

    /** The whole turn: the client taken is marked acquired, no other one is touched. */
    method AcquireOnce(expired: bool, closed: seq<bool>) returns (outcome: AcquireOutcome<WaitingConn?>)
      requires Valid() && |closed| == len
      modifies this, buf, Waiting()
      ensures Valid() && quit == old(quit) && (buf == old(buf) || fresh(buf))
      ensures var r := AcquireSection<WaitingConn?>(old(Waiting()), old(quit), expired, Gone(old(Waiting()), closed));
        Waiting() == r.waiting && outcome == r.outcome && (broadcasts > old(broadcasts) <==> r.wake)
      ensures outcome.Taken? ==> outcome.conn != null && outcome.conn in old(Waiting()) && outcome.conn.acquired
      ensures forall w :: w in old(Waiting()) && w != null && !(outcome.Taken? && outcome.conn == w) ==>
        w.acquired == old(w.acquired)
    {
      outcome := TakeOnce(expired, closed);
      if outcome.Taken? {
        outcome.conn.acquired := true;
      }
    }

    /** The critical section of closeTunnelListener. */
    method Quit()
      requires Valid()
      modifies this
      ensures Valid() && quit && buf == old(buf) && Waiting() == old(Waiting()) && broadcasts == old(broadcasts) + 1
    {
      quit := true;
      broadcasts := broadcasts + 1;
    }
  }
}
