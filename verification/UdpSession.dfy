/** A reverse UDP session: a bounded queue of datagrams between the listener
    that pushes them and the tunnel that reads them. */
module UdpSessions {
  import opened Bytes

  const CAPACITY: nat := 128

  type Packet = seq<byte>

  datatype Session = Session(ch: seq<Packet>, closed: bool)
  datatype Reply = Blocked | Eof | Data(bytes: Packet)

  /** Each call takes effect in one step: pushing and closing hold the
      session's mutex, reading is one channel receive. */
  datatype Call = Push(data: Packet) | Read(room: nat) | Close

  const EMPTY: Session := Session([], false)

  function Cut(p: Packet, room: nat): Packet { if |p| <= room then p else p[..room] }

  predicate Accepts(s: Session) { !s.closed && |s.ch| < CAPACITY }

  function ReplyTo(s: Session, room: nat): Reply {
    if s.ch != [] then Data(Cut(s.ch[0], room)) else if s.closed then Eof else Blocked
  }

  function Step(s: Session, c: Call): Session {
    match c
    case Push(data) => if Accepts(s) then s.(ch := s.ch + [data]) else s
    case Read(_) => if s.ch == [] then s else s.(ch := s.ch[1..])
    case Close => s.(closed := true)
  }

  // ----------------------------------------------------------------- runs

  function After(calls: seq<Call>): Session {
    if calls == [] then EMPTY else Step(After(calls[..|calls| - 1]), calls[|calls| - 1])
  }

  /** The indices of the pushes that entered the queue. */
  function Accepted(calls: seq<Call>): seq<nat> {
    if calls == [] then []
    else
      var n := |calls| - 1;
      Accepted(calls[..n]) + if calls[n].Push? && Accepts(After(calls[..n])) then [n] else []
  }

  /** The indices of the reads that returned a packet. */
  function Returned(calls: seq<Call>): seq<nat> {
    if calls == [] then []
    else
      var n := |calls| - 1;
      Returned(calls[..n]) + if calls[n].Read? && After(calls[..n]).ch != [] then [n] else []
  }

  predicate Increasing(s: seq<nat>, bound: nat) {
    (forall i :: 0 <= i < |s| ==> s[i] < bound) && forall i, j :: 0 <= i < j < |s| ==> s[i] < s[j]
  }

  /** The queue holds the accepted packets not yet returned, in order. */
  ghost predicate Holds(calls: seq<Call>, acc: seq<nat>, done: nat, ch: seq<Packet>) {
    && Increasing(acc, |calls|) && |acc| == done + |ch|
    && (forall k :: 0 <= k < |acc| ==> calls[acc[k]].Push?)
    && forall k :: 0 <= k < |ch| ==> ch[k] == calls[acc[done + k]].data
  }

  lemma HoldsNext(calls: seq<Call>, acc: seq<nat>, done: nat, s: Session)
    requires calls != []
    requires var n := |calls| - 1; Holds(calls[..n], acc, done, s.ch)
    ensures
      var n := |calls| - 1;
      var push := calls[n].Push? && Accepts(s);
      var read := calls[n].Read? && s.ch != [];
      Holds(calls, acc + if push then [n] else [], done + if read then 1 else 0, Step(s, calls[n]).ch)
  {
  }

  lemma {:induction false} QueueHolds(calls: seq<Call>)
    ensures Holds(calls, Accepted(calls), |Returned(calls)|, After(calls).ch)
    ensures Increasing(Returned(calls), |calls|)
    ensures |After(calls).ch| <= CAPACITY
    ensures After(calls).closed <==> Close in calls
  {
    if calls != [] {
      var n := |calls| - 1;
      QueueHolds(calls[..n]);
      HoldsNext(calls, Accepted(calls[..n]), |Returned(calls[..n])|, After(calls[..n]));
      assert calls == calls[..n] + [calls[n]];
    }
  }

  /** A push is lost exactly if the session was closed before, or of the pushes
      accepted before all but 128 had been returned by reads. */
  lemma {:induction false} LostOnlyWhenFullOrClosed(calls: seq<Call>, i: nat)
    requires i < |calls| && calls[i].Push?
    ensures i !in Accepted(calls) <==>
              Close in calls[..i] || |Accepted(calls[..i])| - |Returned(calls[..i])| == 128
  {
    var n := |calls| - 1;
    QueueHolds(calls[..i]);
    QueueHolds(calls[..n]);
    if i < n {
      assert calls[..n][..i] == calls[..i];
      LostOnlyWhenFullOrClosed(calls[..n], i);
    }
  }

  /** Reads return the accepted packets in order, each once, its first bytes as
      far as the reader's buffer goes; the `k`th packet returned is the `k`th accepted, pushed earlier. */
  lemma {:induction false} ReadsAreFifo(calls: seq<Call>, k: nat)
    requires k < |Returned(calls)|
    ensures k < |Accepted(calls)| && Accepted(calls)[k] < Returned(calls)[k] < |calls|
    ensures
      var (a, r) := (Accepted(calls)[k], Returned(calls)[k]);
      && calls[a].Push? && calls[r].Read?
      && var (data, room, reply) := (calls[a].data, calls[r].room, ReplyTo(After(calls[..r]), calls[r].room));
         && reply.Data? && reply.bytes <= data
         && |reply.bytes| == if |data| <= room then |data| else room
  {
    var n := |calls| - 1;
    QueueHolds(calls[..n]);
    if k < |Returned(calls[..n])| {
      ReadsAreFifo(calls[..n], k);
      var r := Returned(calls[..n])[k];
      assert calls[..n][..r] == calls[..r];
    } else {
      assert Returned(calls)[k] == n;
      assert After(calls[..n]).ch[0] == calls[..n][Accepted(calls[..n])[k]].data;
    }
  }

  /** End of file is seen exactly when the session is closed and every packet
      accepted before has been returned. */
  lemma EofAfterEverything(calls: seq<Call>, room: nat)
    ensures ReplyTo(After(calls), room) == Eof <==>
              Close in calls && |Returned(calls)| == |Accepted(calls)|
  {
    QueueHolds(calls);
  }

  // ------------------------------------------------------------ the object

  /** What the queued arrays hold. */
  ghost function Contents(ch: seq<array<byte>>): (r: seq<Packet>)
    reads ch
    ensures |r| == |ch| && forall i :: 0 <= i < |ch| ==> r[i] == ch[i][..]
  {
    if ch == [] then [] else [ch[0][..]] + Contents(ch[1..])
  }

  /** The listener's pushes for one peer. */
  function PushAll(s: Session, ds: seq<Packet>): Session {
    if ds == [] then s else Step(PushAll(s, ds[..|ds| - 1]), Push(ds[|ds| - 1]))
  }

  method CopyOf(data: array<byte>, n: nat) returns (cp: array<byte>)
    requires n <= data.Length
    ensures fresh(cp) && cp[..] == data[..n]
  {
    cp := new byte[n];
    forall i | 0 <= i < n { cp[i] := data[i]; }
  }

  /** One datagram lands in the receive buffer, over what was there. */
  method Arrive(buf: array<byte>, d: Packet)
    requires |d| <= buf.Length
    modifies buf
    ensures buf[..|d|] == d && buf[|d|..] == old(buf[|d|..])
  {
    forall i | 0 <= i < |d| { buf[i] := d[i]; }
  }

  class UdpSessionConn {
    var ch: seq<array<byte>>   // the channel's buffer
    var chClosed: bool         // the channel itself is closed
    var closed: bool

    ghost predicate Valid()
      reads this
    {
      |ch| <= CAPACITY && (chClosed <==> closed)
    }

    ghost function State(): Session
      reads this, ch
    {
      Session(Contents(ch), closed)
    }

    constructor ()
      ensures Valid() && State() == EMPTY
    {
      ch, chClosed, closed := [], false, false;
    }

    /** A non-blocking send; sending on a closed channel panics. */
    method TrySend(p: array<byte>)
      requires Valid() && !chClosed
      modifies this`ch
      ensures Valid() && ch == if |old(ch)| < CAPACITY then old(ch) + [p] else old(ch)
    {
      if |ch| < CAPACITY {
        ch := ch + [p];
      }
    }

    /** Queues a private copy of `data[..n]`, so the caller may reuse `data`. */
    method Push(data: array<byte>, n: nat)
      requires Valid() && n <= data.Length
      modifies this`ch
      ensures Valid() && State() == Step(old(State()), Call.Push(data[..n]))
      ensures forall i :: 0 <= i < |ch| ==> ch[i] in old(ch) || fresh(ch[i])
    {
      if closed {
        return;
      }
      var cp := CopyOf(data, n);
      assert Contents(ch) == old(Contents(ch));
      TrySend(cp);
      assert |old(ch)| < CAPACITY ==> Contents(ch) == old(Contents(ch)) + [data[..n]];
    }

    /** The oldest queued packet, cut to the buffer; end of file once closed and empty. */
    method Read(b: array<byte>) returns (r: Reply, n: nat)
      requires Valid() && b !in ch
      modifies this`ch, b
      ensures Valid() && State() == Step(old(State()), Call.Read(b.Length))
      ensures r == ReplyTo(old(State()), b.Length)
      ensures n <= b.Length && b[n..] == old(b[n..])
      ensures r.Data? ==> b[..n] == r.bytes
      ensures !r.Data? ==> n == 0
      ensures forall i :: 0 <= i < |ch| ==> ch[i] in old(ch)
    {
      if |ch| == 0 {
        n := 0;
        r := if chClosed then Eof else Blocked;
        return;
      }
      var data := ch[0];
      ch := ch[1..];
      n := if data.Length <= b.Length then data.Length else b.Length;
      forall i | 0 <= i < n { b[i] := data[i]; }
      r := Data(b[..n]);
      assert b[..n] == Cut(old(data[..]), b.Length);
      assert Contents(ch) == old(Contents(ch))[1..];
    }

    /** Closes once; `first` tells whether this call is the one that runs the callback. */
    method Close() returns (first: bool)
      requires Valid()
      modifies this`closed, this`chClosed
      ensures Valid() && State() == Step(old(State()), Call.Close) && first == !old(closed)
    {
      if closed {
        return false;
      }
      closed := true;
      chClosed := true;
      return true;
    }

    /** The listener's loop for one peer, with one receive buffer for every
        datagram: what is queued is what arrived, although the buffer is overwritten. */
    method ReceiveAll(buf: array<byte>, datagrams: seq<Packet>)
      requires Valid() && buf !in ch
      requires forall i :: 0 <= i < |datagrams| ==> |datagrams[i]| <= buf.Length
      modifies this`ch, buf
      ensures Valid() && State() == PushAll(old(State()), datagrams)
    {
      var k := 0;
      while k < |datagrams|
        invariant 0 <= k <= |datagrams| && Valid() && buf !in ch
        invariant forall i :: 0 <= i < |ch| ==> ch[i] in old(ch) || fresh(ch[i])
        invariant State() == PushAll(old(State()), datagrams[..k])
      {
        var d := datagrams[k];
        ghost var held := Contents(ch);
        Arrive(buf, d);
        assert Contents(ch) == held;
        Push(buf, |d|);
        assert datagrams[..k + 1][..k] == datagrams[..k];
        k := k + 1;
      }
      assert datagrams[..k] == datagrams;
    }
  }
}
