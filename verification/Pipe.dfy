/** One direction of `Pipe`: bytes read from the near TCP connection are chunked
    into frames, interleaved with other writers' control frames, and written out
    by the far `Pipe`. */
module Pipes {
  import opened Bytes
  import opened Sequences
  import opened Frames
  import opened FrameStreams
  import opened RawFrames
  import opened Connections

  const CHUNK: nat := 32 * 1024

  /** Close status 1000 with no reason. */
  const CLOSE_PAYLOAD: seq<byte> := [3, 232]

  /** What the far Pipe writes to its TCP connection. */
  function DataOf(msgs: seq<Msg>): seq<byte> {
    if msgs == [] then []
    else DataOf(msgs[..|msgs| - 1]) + CopiedBytes(msgs[|msgs| - 1])
  }

  function CopiedBytes(m: Msg): seq<byte> { if m.op == BINARY || m.op == TEXT then m.data else [] }

  lemma {:induction false} DataOfPrefix(a: seq<Msg>, b: seq<Msg>)
    requires a <= b
    ensures DataOf(a) <= DataOf(b)
    decreases |b|
  {
    if a != b {
      assert a <= b[..|b| - 1];
      DataOfPrefix(a, b[..|b| - 1]);
    }
  }

  lemma DataOfSnoc(a: seq<Msg>, m: Msg)
    ensures DataOf(a + [m]) == DataOf(a) + CopiedBytes(m)
  {
    assert (a + [m])[..|a|] == a;
  }

  // ------------------------------------------------------------ the two loops

  function Framed(masking: bool, op: byte, data: seq<byte>): Sent {
    Sent(FirstByte(op), ShortestForm(|data|), if masking then ZERO_KEY else [], data)
  }

  /** The frames the near loop writes for the reads it makes, and its closing one. */
  function UpFrames(masking: bool, chunks: seq<seq<byte>>): seq<Sent> {
    if chunks == [] then [Framed(masking, CLOSE, CLOSE_PAYLOAD)]
    else [Framed(masking, BINARY, chunks[0])] + UpFrames(masking, chunks[1..])
  }

  predicate AreReads(chunks: seq<seq<byte>>) {
    forall i :: 0 <= i < |chunks| ==> 1 <= |chunks[i]| <= CHUNK
  }

  lemma {:induction false} UpFramesValid(masking: bool, chunks: seq<seq<byte>>)
    requires AreReads(chunks)
    ensures Valid(UpFrames(masking, chunks))
  {
    if chunks != [] { UpFramesValid(masking, chunks[1..]); }
  }

  /** The bytes of those frames. */
  function UpWire(masking: bool, chunks: seq<seq<byte>>): seq<byte>
    requires AreReads(chunks)
  {
    UpFramesValid(masking, chunks);
    Wire(UpFrames(masking, chunks))
  }

  lemma WireOfOne(f: Sent)
    requires ValidFrame(f)
    ensures Valid([f]) && Wire([f]) == Encode(f.b0, f.form, f.key, f.data)
  {
    assert Wire([f]) == Encode(f.b0, f.form, f.key, f.data) + Wire([f][1..]);
  }

  lemma UpWireStep(masking: bool, chunks: seq<seq<byte>>)
    requires AreReads(chunks)
    ensures chunks == [] ==> UpWire(masking, chunks) == Frame(masking, CLOSE, CLOSE_PAYLOAD)
    ensures chunks != [] ==> UpWire(masking, chunks) == Frame(masking, BINARY, chunks[0]) + UpWire(masking, chunks[1..])
  {
    if chunks == [] {
      UpFramesValid(masking, chunks);
      WireOfOne(Framed(masking, CLOSE, CLOSE_PAYLOAD));
    } else {
      assert UpFrames(masking, chunks)[1..] == UpFrames(masking, chunks[1..]);
      UpFramesValid(masking, chunks[1..]);
    }
  }

  /** `wire` has everything of the output: what was there, the frames sent, and
      `left` still to come. */
  ghost predicate Ahead(masking: bool, all: seq<byte>, wire: seq<byte>, left: seq<seq<byte>>) {
    AreReads(left) && all == wire + UpWire(masking, left)
  }

  lemma AheadMoves(masking: bool, all: seq<byte>, wire: seq<byte>, left: seq<seq<byte>>)
    requires Ahead(masking, all, wire, left) && left != []
    ensures Ahead(masking, all, wire + Frame(masking, BINARY, left[0]), left[1..])
  {
    UpWireStep(masking, left);
    ConcatAssoc(wire, Frame(masking, BINARY, left[0]), UpWire(masking, left[1..]));
  }

  lemma AheadEnds(masking: bool, all: seq<byte>, wire: seq<byte>)
    requires Ahead(masking, all, wire, [])
    ensures all == wire + Frame(masking, CLOSE, CLOSE_PAYLOAD)
  {
    UpWireStep(masking, []);
  }

  /** What one message does to a writer. */
  lemma MessageEffect(w: Writer, op: byte, data: seq<byte>)
    requires |data| < TWO63
    ensures
      var w', out := Messaged(w, op, data), w.wire + w.bufw + Frame(w.masking, op, data);
      && (w.broken ==> w' == w)
      && (!w.broken && w.writes > 0 ==> w' == w.(wire := out, bufw := [], writes := w.writes - 1))
      && (!w.broken && w.writes == 0 ==> w'.broken && w.wire <= w'.wire <= out)
  {
    ConcatAssoc(w.wire, w.bufw, Frame(w.masking, op, data));
  }

  /** One Read into the buffer and the message made of it. */
  method SendChunk(conn: Conn, buf: array<byte>, chunk: seq<byte>) returns (ok: bool)
    requires |chunk| <= buf.Length <= CHUNK
    modifies conn`wire, conn`bufw, conn`writes, conn`broken, buf
    ensures conn.Out() == Messaged(old(conn.Out()), BINARY, chunk) && ok == !conn.broken
  {
    forall k | 0 <= k < |chunk| { buf[k] := chunk[k]; }
    assert buf[..|chunk|] == chunk;
    ok := conn.WriteMessage(BINARY, buf[..|chunk|]);
  }

  /** The copy loop from TCP to WebSocket, with its deferred close frame.  Each
      element of `chunks` is what one Read put into the reused buffer; then the
      connection ends.  A failed write ends the loop, and then nothing more gets
      out: the wire has a prefix of the output, all of it exactly when the
      transport accepted every frame. */
  method CopyUp(conn: Conn, chunks: seq<seq<byte>>)
    requires AreReads(chunks)
    modifies conn`wire, conn`bufw, conn`writes, conn`broken
    ensures old(conn.broken) ==> conn.wire == old(conn.wire)
    ensures !old(conn.broken) ==>
      && old(conn.wire) <= conn.wire <= old(conn.wire + conn.bufw) + UpWire(conn.masking, chunks)
      && (conn.broken <==> |chunks| >= old(conn.writes))
      && (!conn.broken ==> conn.wire == old(conn.wire + conn.bufw) + UpWire(conn.masking, chunks))
  {
    ghost var all := conn.wire + conn.bufw + UpWire(conn.masking, chunks);
    var buf := new byte[CHUNK];
    var left := chunks;
    while left != []
      invariant AreReads(left) && old(conn.wire) <= conn.wire && conn.broken == old(conn.broken)
      invariant conn.broken ==> conn.wire == old(conn.wire)
      invariant !conn.broken ==> Ahead(conn.masking, all, conn.wire + conn.bufw, left)
      invariant !conn.broken ==> conn.writes - |left| == old(conn.writes) - |chunks|
      decreases |left|
    {
      MessageEffect(conn.Out(), BINARY, left[0]);
      if !conn.broken {
        AheadMoves(conn.masking, all, conn.wire + conn.bufw, left);
      }
      ghost var was := conn.Out();
      var ok := SendChunk(conn, buf, left[0]);
      if !ok {
        MessageEffect(conn.Out(), CLOSE, CLOSE_PAYLOAD);
        var closed := conn.WriteMessage(CLOSE, CLOSE_PAYLOAD);
        return;
      }
      assert conn.wire + conn.bufw == was.wire + was.bufw + Frame(conn.masking, BINARY, left[0]);
      left := left[1..];
    }
    if !conn.broken {
      AheadEnds(conn.masking, all, conn.wire + conn.bufw);
    }
    MessageEffect(conn.Out(), CLOSE, CLOSE_PAYLOAD);
    var closed := conn.WriteMessage(CLOSE, CLOSE_PAYLOAD);
  }

  // ------------------------------------------------------- the other direction

  /** What repeated calls of ReadMessage deliver on a connection with writer `w`. */
  datatype Delivery = Delivery(msgs: seq<Msg>, end: Outcome)

  function ReadAllOn(s: seq<byte>, w: Writer): Delivery
    decreases |s|
  {
    var r := ReadMessageOn(s, w);
    if r.out.outcome.Message? then
      var d := ReadAllOn(r.out.rest, r.writer);
      d.(msgs := [r.out.outcome.msg] + d.msgs)
    else Delivery([], r.out.outcome)
  }

  lemma DeliveryStep(s: seq<byte>, w: Writer)
    ensures
      var r := ReadMessageOn(s, w);
      if r.out.outcome.Message?
      then ReadAllOn(s, w) == Delivery([r.out.outcome.msg] + ReadAllOn(r.out.rest, r.writer).msgs, ReadAllOn(r.out.rest, r.writer).end)
      else ReadAllOn(s, w) == Delivery([], r.out.outcome)
  {
  }

  /** While the transport accepts every pong, that is the whole session. */
  lemma {:induction false} ReliableDelivery(s: seq<byte>, w: Writer)
    requires !w.broken && |ReadAll(s).pings| <= w.writes
    ensures ReadAllOn(s, w) == Delivery(ReadAll(s).msgs, ReadAll(s).end)
    decreases |s|
  {
    var r := ReadMessage(s);
    ReadAllByMessages(s);
    assert Answered(r) <= w.writes;
    ReliableExactly(s, w);
    if r.outcome.Message? {
      PongsWritten(s, w);
      ReliableDelivery(r.rest, ReadMessageOn(s, w).writer);
    }
  }

  function Upto(s: seq<byte>, n: nat): seq<byte> { if |s| <= n then s else s[..n] }

  /** Of `all`, the messages `msgs` are copied to `out` and `rest` is to come. */
  ghost predicate Copied(all: Delivery, msgs: seq<Msg>, out: seq<byte>, rest: Delivery) {
    out == DataOf(msgs) && all.msgs == msgs + rest.msgs && all.end == rest.end
  }

  lemma CopiedNext(all: Delivery, msgs: seq<Msg>, out: seq<byte>, m: Msg, rest: Delivery)
    requires Copied(all, msgs, out, rest.(msgs := [m] + rest.msgs))
    ensures Copied(all, msgs + [m], out + CopiedBytes(m), rest)
  {
    DataOfSnoc(msgs, m);
    ConcatAssoc(msgs, [m], rest.msgs);
  }

  lemma CopiedPart(all: Delivery, msgs: seq<Msg>, out: seq<byte>, data: seq<byte>, rest: Delivery, room: nat)
    requires Copied(all, msgs, out + data, rest) && |out| <= room < |out| + |data|
    ensures Upto(DataOf(all.msgs), room) == out + data[..room - |out|] && |DataOf(all.msgs)| > room
  {
    DataOfPrefix(msgs, all.msgs);
    assert (out + data)[..room] == out + data[..room - |out|];
  }

  lemma CopiedAll(all: Delivery, msgs: seq<Msg>, out: seq<byte>, end: Outcome)
    requires Copied(all, msgs, out, Delivery([], end))
    ensures out == DataOf(all.msgs) && end == all.end
  {
    assert msgs + [] == msgs;
  }

  datatype CopyEnd = ReadEnded(outcome: Outcome) | TcpFailed

  /** The copy loop from WebSocket to TCP, where TCP accepts `room` bytes: it
      writes exactly that much of the data of the messages delivered. */
  method CopyDown(conn: Conn, room: nat) returns (out: seq<byte>, end: CopyEnd)
    modifies conn
    ensures var d := ReadAllOn(old(conn.input), old(conn.Out()));
      && out == Upto(DataOf(d.msgs), room)
      && end == if |DataOf(d.msgs)| <= room then ReadEnded(d.end) else TcpFailed
  {
    out := [];
    ghost var all := ReadAllOn(conn.input, conn.Out());
    ghost var msgs: seq<Msg>, rest := [], all;
    while true
      invariant rest == ReadAllOn(conn.input, conn.Out()) && Copied(all, msgs, out, rest) && |out| <= room
      decreases |conn.input|
    {
      DeliveryStep(conn.input, conn.Out());
      var outcome := conn.Receive();
      if !outcome.Message? {
        CopiedAll(all, msgs, out, outcome);
        return out, ReadEnded(outcome);
      }
      rest := ReadAllOn(conn.input, conn.Out());
      CopiedNext(all, msgs, out, outcome.msg, rest);
      msgs := msgs + [outcome.msg];
      var data := if outcome.msg.op == BINARY || outcome.msg.op == TEXT then outcome.msg.data else [];
      if |out| + |data| > room {
        CopiedPart(all, msgs, out, data, rest, room);
        return out + data[..room - |out|], TcpFailed;
      }
      out := out + data;
    }
  }

  // --------------------------------------------------- told by the frames sent

  /** The data of the text and binary frames before the first close frame; a ping
      too long to answer ends the connection too. */
  function Carried(fs: seq<Sent>): seq<byte> {
    if fs == [] then []
    else
      var op := fs[0].b0 % 16;
      if op == 8 || (op == 9 && |fs[0].data| > 125) then []
      else (if op == 1 || op == 2 then fs[0].data else []) + Carried(fs[1..])
  }

  function PingCount(fs: seq<Sent>): nat {
    if fs == [] then 0 else (if fs[0].b0 % 16 == 9 then 1 else 0) + PingCount(fs[1..])
  }

  lemma {:induction false} DataOfCons(m: Msg, msgs: seq<Msg>)
    ensures DataOf([m] + msgs) == CopiedBytes(m) + DataOf(msgs)
  {
    if msgs == [] {
      assert ([m] + msgs)[..0] == [];
    } else {
      var n := |msgs| - 1;
      DataOfCons(m, msgs[..n]);
      assert ([m] + msgs)[..n + 1] == [m] + msgs[..n];
      ConcatAssoc(CopiedBytes(m), DataOf(msgs[..n]), CopiedBytes(msgs[n]));
    }
  }

  lemma {:induction false} PlayedIsCarried(fs: seq<Sent>)
    ensures DataOf(Play(fs).msgs) == Carried(fs) && |Play(fs).pings| <= PingCount(fs)
  {
    if fs != [] {
      PlayedIsCarried(fs[1..]);
      DataOfCons(Msg(fs[0].b0 % 16, fs[0].data), Play(fs[1..]).msgs);
    }
  }

  /** From any peer's frames, in whatever length forms and under whatever keys,
      the copy loop writes the text and binary data before the first close, in
      order, and nothing for any other opcode. */
  method CopyFrames(conn: Conn, fs: seq<Sent>, room: nat) returns (out: seq<byte>, end: CopyEnd)
    requires Valid(fs) && conn.input == Wire(fs)
    requires !conn.broken && PingCount(fs) <= conn.writes && |Carried(fs)| <= room
    modifies conn
    ensures out == Carried(fs) && end == ReadEnded(Play(fs).end)
  {
    StreamInverse(fs);
    PlayedIsCarried(fs);
    ReliableDelivery(conn.input, conn.Out());
    out, end := CopyDown(conn, room);
  }

  /** And the near side's bytes, one by one: a close frame with status 1000 at the
      end ... */
  lemma CloseRaw(masking: bool)
    ensures UpWire(masking, []) == [136, (if masking then 128 else 0) + 2] + (ZeroKey(masking) + [3, 232])
  {
    UpWireStep(masking, []);
    WritesRaw(masking, 8, CLOSE_PAYLOAD);
  }

  /** ... and before it every read behind a binary header. */
  lemma ChunkRaw(masking: bool, chunks: seq<seq<byte>>, c: seq<byte>)
    requires AreReads(chunks) && chunks != [] && c == chunks[0]
    ensures |c| <= 32768 && UpWire(masking, chunks) == Frame(masking, 2, c) + UpWire(masking, chunks[1..])
    ensures |c| <= 125 ==> Frame(masking, 2, c) == [130, (if masking then 128 else 0) + |c|] + (ZeroKey(masking) + c)
    ensures |c| > 125 ==>
              Frame(masking, 2, c) == [130, (if masking then 128 else 0) + 126, |c| / 256, |c| % 256] + (ZeroKey(masking) + c)
  {
    UpWireStep(masking, chunks);
    WritesRaw(masking, 2, c);
  }
}
