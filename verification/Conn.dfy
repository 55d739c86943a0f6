/** The framed connection itself: a buffered writer over a transport that may
    fail, and a buffered reader. */
module Connections {
  import opened Bytes
  import opened Sequences
  import opened Frames
  import opened FrameStreams
  import RawFrames

  // ------------------------------------------------------------ the writer

  /** The writing side.  `wire`: bytes the transport took.  `bufw`: bytes still in
      the write buffer.  `writes`: how many more flushes the transport accepts;
      the one after that takes only `spill` bytes and fails.  `closedError`: it
      fails with one of the two errors that mean a closed connection.  `broken`:
      the buffer's error, which stays. */
  datatype Writer = Writer(
    masking: bool, wire: seq<byte>, bufw: seq<byte>, writes: nat, spill: nat, closedError: bool, broken: bool)

  datatype WriteResult = WriteOk | TooLong | Failed

  function Flushed(w: Writer): Writer {
    if w.broken then w
    else if w.writes == 0 then
      w.(wire := w.wire + (if w.spill < |w.bufw| then w.bufw[..w.spill] else w.bufw), broken := true)
    else w.(wire := w.wire + w.bufw, bufw := [], writes := w.writes - 1)
  }

  function Messaged(w: Writer, op: byte, data: seq<byte>): Writer
    requires |data| < TWO63
  {
    if w.broken then w else Flushed(w.(bufw := w.bufw + Frame(w.masking, op, data)))
  }

  /** A control frame of at most 125 bytes is sent like a message; a longer one is
      refused only after its first byte is in the buffer. */
  function Controlled(w: Writer, op: byte, data: seq<byte>): (WriteResult, Writer) {
    if w.broken then (Failed, w)
    else if |data| > MAX_CONTROL then (TooLong, w.(bufw := w.bufw + [FirstByte(op)]))
    else
      var w' := Messaged(w, op, data);
      (if w'.broken then Failed else WriteOk, w')
  }

  // ------------------------------------------------------------ the reader

  datatype ReadOn = ReadOn(out: ReadOut, writer: Writer)

  /** One call of ReadMessage on a connection whose writer is `w`.  A ping is
      answered through the writer: one too long to answer ends the call, and so
      does an answer that fails, unless with a closed-connection error. */
  function ReadMessageOn(s: seq<byte>, w: Writer): (r: ReadOn)
    ensures |r.out.rest| <= |s| && (r.out.outcome.Message? ==> |r.out.rest| < |s|)
    decreases |s|
  {
    match ReadFrame(s)
    case Truncated => ReadOn(ReadOut(StreamEnded, [], [], []), w)
    case OutOfBounds => ReadOn(ReadOut(TooLarge, s[ReadHeader(s).size..], [], []), w)
    case Read(op, payload, rest) =>
      if op == PING then
        var (wr, w') := Controlled(w, PONG, payload);
        if wr.TooLong? then ReadOn(ReadOut(PingRefused(payload), rest, [payload], []), w')
        else if wr.Failed? && !w.closedError then ReadOn(ReadOut(PongFailed(payload), rest, [payload], []), w')
        else WithPing(payload, ReadMessageOn(rest, w'))
      else if op == PONG then WithPong(payload, ReadMessageOn(rest, w))
      else if op == CLOSE then ReadOn(ReadOut(ClosedByPeer, rest, [], []), w)
      else ReadOn(ReadOut(Message(Msg(op, payload)), rest, [], []), w)
  }

  function WithPing(payload: seq<byte>, r: ReadOn): ReadOn { r.(out := r.out.(pings := [payload] + r.out.pings)) }
  function WithPong(payload: seq<byte>, r: ReadOn): ReadOn { r.(out := r.out.(pongs := [payload] + r.out.pongs)) }

  /** The pings of a call that are answered: all but one refused. */
  function Answered(r: ReadOut): int { if r.outcome.PingRefused? then |r.pings| - 1 else |r.pings| }

  /** The pong frames that answer `pings`. */
  function Pongs(masking: bool, pings: seq<seq<byte>>): seq<byte> {
    if pings == [] then []
    else (if |pings[0]| <= MAX_CONTROL then Frame(masking, PONG, pings[0]) else [FirstByte(PONG)]) + Pongs(masking, pings[1..])
  }

  lemma AnsweredOnce(w: Writer, payload: seq<byte>)
    requires !w.broken && w.writes > 0 && |payload| <= MAX_CONTROL
    ensures
      var w' := w.(wire := w.wire + (w.bufw + Frame(w.masking, PONG, payload)), bufw := [], writes := w.writes - 1);
      Controlled(w, PONG, payload) == (WriteOk, w')
  {
  }

  lemma {:induction false} AnsweredBound(s: seq<byte>)
    ensures Answered(ReadMessage(s)) >= 0
    decreases |s|
  {
    var f := ReadFrame(s);
    if f.Read? && ((f.op == PING && |f.payload| <= MAX_CONTROL) || f.op == PONG) { AnsweredBound(f.rest); }
  }

  /** A ping of `p` is answered with a frame of opcode 10 and the same bytes. */
  lemma PongRaw(masking: bool, p: seq<byte>)
    requires |p| <= 125
    ensures Pongs(masking, [p]) == [138, (if masking then 128 else 0) + |p|] + (RawFrames.ZeroKey(masking) + p)
  {
    assert [p][1..] == [] && Pongs(masking, []) == [];
    RawFrames.WritesRaw(masking, 10, p);
  }

  /** While the transport accepts every pong, a call delivers exactly what
      ReadMessage describes; if a failed pong is reported, then exactly then. */
  lemma {:induction false} ReliableExactly(s: seq<byte>, w: Writer)
    requires !w.broken
    ensures Answered(ReadMessage(s)) <= w.writes ==>
              ReadMessageOn(s, w).out == ReadMessage(s) && !ReadMessageOn(s, w).writer.broken
    ensures !w.closedError && Answered(ReadMessage(s)) > w.writes ==> ReadMessageOn(s, w).out.outcome.PongFailed?
    decreases |s|
  {
    var f := ReadFrame(s);
    if f.Read? {
      if f.op == PING && |f.payload| <= MAX_CONTROL {
        AnsweredBound(f.rest);
        if w.writes > 0 {
          AnsweredOnce(w, f.payload);
          ReliableExactly(f.rest, Controlled(w, PONG, f.payload).1);
        }
      } else if f.op == PONG {
        ReliableExactly(f.rest, w);
      }
    }
  }

  /** And what it writes is the pongs, behind what the buffer held. */
  lemma {:induction false} PongsWritten(s: seq<byte>, w: Writer)
    requires !w.broken && Answered(ReadMessage(s)) <= w.writes
    ensures
      var w' := ReadMessageOn(s, w).writer;
      && w'.wire + w'.bufw == w.wire + w.bufw + Pongs(w.masking, ReadMessage(s).pings)
      && w'.writes == w.writes - Answered(ReadMessage(s))
    decreases |s|
  {
    var f := ReadFrame(s);
    if f.Read? {
      if f.op == PING && |f.payload| <= MAX_CONTROL {
        AnsweredBound(f.rest);
        AnsweredOnce(w, f.payload);
        PongsWritten(f.rest, Controlled(w, PONG, f.payload).1);
        PongsStep(w, f.payload, ReadMessage(f.rest).pings);
      } else if f.op == PONG {
        PongsWritten(f.rest, w);
      } else if f.op == PING {
        assert [f.payload][1..] == [];
        assert w.wire + (w.bufw + [FirstByte(PONG)]) == w.wire + w.bufw + [FirstByte(PONG)];
      }
    }
  }

  lemma PongsStep(w: Writer, payload: seq<byte>, pings: seq<seq<byte>>)
    requires |payload| <= MAX_CONTROL
    ensures w.wire + (w.bufw + Frame(w.masking, PONG, payload)) + [] + Pongs(w.masking, pings)
         == w.wire + w.bufw + Pongs(w.masking, [payload] + pings)
  {
    assert ([payload] + pings)[1..] == pings;
    assert Pongs(w.masking, [payload] + pings) == Frame(w.masking, PONG, payload) + Pongs(w.masking, pings);
  }

  /** The reader's payload[i] ^= maskKey[i%4], in place. */
  method Unmask(payload: array<byte>, key: seq<byte>)
    requires |key| == 4
    modifies payload
    ensures payload[..] == Mask(old(payload[..]), key)
  {
    for i := 0 to payload.Length
      invariant forall k :: 0 <= k < i ==> payload[k] == XorByte(old(payload[k]), key[k % 4])
      invariant forall k :: i <= k < payload.Length ==> payload[k] == old(payload[k])
    {
      payload[i] := XorByte(payload[i], key[i % 4]);
    }
  }

  lemma FrameParts(masking: bool, op: byte, data: seq<byte>)
    requires |data| < TWO63
    ensures Frame(masking, op, data) ==
      ([FirstByte(op)] + LengthField(ShortestForm(|data|), masking, |data|))
      + if masking then ZERO_KEY + Mask(data, ZERO_KEY) else data
  {
  }

  /** Head and body buffered one after the other are the frame. */
  lemma FrameBuffered(was: seq<byte>, masking: bool, op: byte, data: seq<byte>)
    requires |data| < TWO63
    ensures was + ([FirstByte(op)] + LengthField(ShortestForm(|data|), masking, |data|))
            + (if masking then ZERO_KEY + Mask(data, ZERO_KEY) else data) == was + Frame(masking, op, data)
  {
    FrameParts(masking, op, data);
    ConcatAssoc(was, [FirstByte(op)] + LengthField(ShortestForm(|data|), masking, |data|),
                if masking then ZERO_KEY + Mask(data, ZERO_KEY) else data);
  }

  /** The payload as the reader returns it. */
  method Payload(body: seq<byte>, key: seq<byte>) returns (p: seq<byte>)
    ensures p == Unmasked(body, key)
  {
    var payload := new byte[|body|](i requires 0 <= i < |body| => body[i]);
    assert payload[..] == body;
    if |key| == 4 {
      Unmask(payload, key);
    }
    p := payload[..];
  }

  /** Inside a call of ReadMessage on `s` with writer `w`: the control frames in
      `ping` and `pong` are handled, `input` is still to be read with writer `now`. */
  ghost predicate Handled(s: seq<byte>, w: Writer, input: seq<byte>, now: Writer, ping: seq<seq<byte>>, pong: seq<seq<byte>>) {
    var r, rest := ReadMessageOn(s, w), ReadMessageOn(input, now);
    && r.out.outcome == rest.out.outcome && r.out.rest == rest.out.rest && r.writer == rest.writer
    && r.out.pings == ping + rest.out.pings && r.out.pongs == pong + rest.out.pongs
  }

  /** Another ping or pong is handled, and `rest` is still to be read with writer `next`. */
  lemma HandledControl(s: seq<byte>, w: Writer, input: seq<byte>, now: Writer, ping: seq<seq<byte>>, pong: seq<seq<byte>>,
                       payload: seq<byte>, rest: seq<byte>, next: Writer)
    requires Handled(s, w, input, now, ping, pong)
    ensures ReadMessageOn(input, now) == WithPing(payload, ReadMessageOn(rest, next)) ==>
              Handled(s, w, rest, next, ping + [payload], pong)
    ensures ReadMessageOn(input, now) == WithPong(payload, ReadMessageOn(rest, next)) ==>
              Handled(s, w, rest, next, ping, pong + [payload])
  {
    ConcatAssoc(ping, [payload], ReadMessageOn(rest, next).out.pings);
    ConcatAssoc(pong, [payload], ReadMessageOn(rest, next).out.pongs);
  }

  class Conn {
    const masking: bool
    const spill: nat
    const closedError: bool
    var wire: seq<byte>       // bytes handed to the transport
    var bufw: seq<byte>       // bytes still in the write buffer
    var writes: nat           // flushes the transport still accepts
    var broken: bool          // the write buffer's error
    var input: seq<byte>      // bytes the transport still has to deliver
    var pings: seq<seq<byte>> // payloads given to the ping handler
    var pongs: seq<seq<byte>> // payloads given to the pong handler

    constructor (masking: bool, input: seq<byte>, writes: nat, spill: nat, closedError: bool)
      ensures Out() == Writer(masking, [], [], writes, spill, closedError, false)
      ensures this.input == input && pings == [] && pongs == []
    {
      this.masking, this.input, this.writes, this.spill, this.closedError := masking, input, writes, spill, closedError;
      wire, bufw, pings, pongs, broken := [], [], [], [], false;
    }

    ghost function Out(): Writer
      reads this
    {
      Writer(masking, wire, bufw, writes, spill, closedError, broken)
    }

    method Flush() returns (ok: bool)
      modifies this`wire, this`bufw, this`writes, this`broken
      ensures Out() == Flushed(old(Out())) && ok == !broken
    {
      if broken {
        return false;
      }
      if writes == 0 {
        wire := wire + if spill < |bufw| then bufw[..spill] else bufw;
        broken := true;
        return false;
      }
      wire, bufw, writes := wire + bufw, [], writes - 1;
      return true;
    }

    /** First byte and length in the shortest form. */
    method BufferHead(op: byte, n: nat)
      requires n < TWO63
      modifies this`bufw
      ensures bufw == old(bufw) + ([FirstByte(op)] + LengthField(ShortestForm(n), masking, n))
    {
      bufw := bufw + [FirstByte(op)];
      var bit := if masking then 128 else 0;
      if n <= 125 {
        bufw := bufw + [bit + n];
      } else if n <= 65535 {
        bufw := bufw + [bit + 126];
        bufw := bufw + BigEndian(n, 2);
      } else {
        bufw := bufw + [bit + 127];
        bufw := bufw + BigEndian(n, 8);
      }
    }

    /** The zero key when masking, then the data as it is. */
    method BufferBody(data: seq<byte>)
      modifies this`bufw
      ensures bufw == old(bufw) + if masking then ZERO_KEY + Mask(data, ZERO_KEY) else data
    {
      if masking {
        ZeroMask(data);
        bufw := bufw + ZERO_KEY;
      }
      bufw := bufw + data;
    }

    /** The frame goes out behind whatever the buffer held; a broken buffer
        refuses its first byte. */
    method WriteMessage(op: byte, data: seq<byte>) returns (ok: bool)
      requires |data| < TWO63
      modifies this`wire, this`bufw, this`writes, this`broken
      ensures Out() == Messaged(old(Out()), op, data) && ok == !broken
    {
      if broken {
        return false;
      }
      ghost var was := bufw;
      BufferHead(op, |data|);
      BufferBody(data);
      FrameBuffered(was, masking, op, data);
      ok := Flush();
    }

    method WriteControl(op: byte, data: seq<byte>) returns (r: WriteResult)
      modifies this`wire, this`bufw, this`writes, this`broken
      ensures (r, Out()) == Controlled(old(Out()), op, data)
    {
      if broken {
        return Failed;
      }
      ghost var was := bufw;
      bufw := bufw + [FirstByte(op)];
      if |data| > MAX_CONTROL {
        return TooLong;
      }
      bufw := bufw + [(if masking then 128 else 0) + |data|];
      assert bufw == was + ([FirstByte(op)] + LengthField(ShortestForm(|data|), masking, |data|));
      BufferBody(data);
      FrameBuffered(was, masking, op, data);
      var ok := Flush();
      r := if ok then WriteOk else Failed;
    }

    /** io.ReadFull of `n` bytes; a short input is consumed. */
    method ReadFull(n: nat) returns (ok: bool, bytes: seq<byte>)
      modifies this`input
      ensures ok <==> n <= |old(input)|
      ensures ok ==> bytes == old(input)[..n] && input == old(input)[n..]
      ensures !ok ==> input == []
    {
      if n <= |input| {
        ok, bytes, input := true, input[..n], input[n..];
      } else {
        ok, bytes, input := false, [], [];
      }
    }

    /** The two header bytes, the extended length and the masking key. */
    method ReadHead() returns (h: HeaderResult)
      modifies this`input
      ensures h == ReadHeader(old(input))
      ensures h.Head? ==> h.size <= |old(input)| && input == old(input)[h.size..]
      ensures h.NoHead? ==> input == []
    {
      ghost var s := input;
      var ok, b := ReadFull(1);
      if !ok { return NoHead; }
      var b0 := b[0];
      ok, b := ReadFull(1);
      if !ok { return NoHead; }
      var b1 := b[0];
      var ext := ExtSize(b1);
      var field: seq<byte> := [];
      if ext > 0 {
        ok, field := ReadFull(ext);
        if !ok { return NoHead; }
      }
      assert field == s[2..2 + ext] && input == s[2 + ext..];
      var key: seq<byte> := [];
      if b1 >= 128 {
        ok, key := ReadFull(4);
        if !ok { return NoHead; }
      }
      assert key == s[2 + ext..2 + ext + KeySize(b1)];
      h := Head(b0 % 16, ReadLength(b1, field), key, 2 + ext + KeySize(b1));
    }

    /** One frame, its payload unmasked in place. */
    method ReadOneFrame() returns (f: FrameResult)
      modifies this`input
      ensures match ReadFrame(old(input))
        case Read(op, payload, rest) => f == Read(op, payload, []) && input == rest
        case Truncated => f == Truncated && input == []
        case OutOfBounds => f == OutOfBounds && input == old(input)[ReadHeader(old(input)).size..]
    {
      ghost var s := input;
      var h := ReadHead();
      if h.NoHead? { return Truncated; }
      if h.length < 0 || h.length > MAX_PAYLOAD { return OutOfBounds; }
      var ok, body := ReadFull(h.length);
      if !ok { return Truncated; }
      assert body == s[h.size..h.size + h.length] && input == s[h.size + h.length..];
      var payload := Payload(body, h.key);
      f := Read(h.op, payload, []);
    }

    /** The default ping handler: a closed connection is no error. */
    method HandlePing(payload: seq<byte>) returns (ok: bool, r: WriteResult)
      modifies this`wire, this`bufw, this`writes, this`broken, this`pings
      ensures pings == old(pings) + [payload] && (r, Out()) == Controlled(old(Out()), PONG, payload)
      ensures ok <==> r.WriteOk? || (r.Failed? && closedError)
    {
      pings := pings + [payload];
      r := WriteControl(PONG, payload);
      if r.Failed? && closedError {
        return true, r;
      }
      ok := r.WriteOk?;
    }

    /** One turn of the loop of ReadMessage: a control frame is handled, anything
        else ends the call. */
    method Turn() returns (done: bool, outcome: Outcome, ghost payload: seq<byte>)
      modifies this
      ensures done ==>
        var r := ReadMessageOn(old(input), old(Out()));
        && outcome == r.out.outcome && input == r.out.rest && Out() == r.writer
        && pings == old(pings) + r.out.pings && pongs == old(pongs) + r.out.pongs
      ensures !done ==> |input| < |old(input)|
      ensures !done && pings != old(pings) ==>
        && pings == old(pings) + [payload] && pongs == old(pongs)
        && ReadMessageOn(old(input), old(Out())) == WithPing(payload, ReadMessageOn(input, Out()))
      ensures !done && pings == old(pings) ==>
        && pongs == old(pongs) + [payload]
        && ReadMessageOn(old(input), old(Out())) == WithPong(payload, ReadMessageOn(input, Out()))
    {
      var f := ReadOneFrame();
      payload := [];
      if f.Truncated? { return true, StreamEnded, []; }
      if f.OutOfBounds? { return true, TooLarge, []; }
      payload := f.payload;
      if f.op == PING {
        var ok, r := HandlePing(f.payload);
        assert pings[|pings| - 1] == payload && |pings| == |old(pings)| + 1;
        return !ok, if r.TooLong? then PingRefused(f.payload) else PongFailed(f.payload), payload;
      }
      if f.op == PONG {
        pongs := pongs + [f.payload];
        return false, StreamEnded, payload;
      }
      if f.op == CLOSE { return true, ClosedByPeer, payload; }
      return true, Message(Msg(f.op, f.payload)), payload;
    }

    /** ReadMessage with the default handlers: the ping handler answers through
        WriteControl, the pong handler does nothing. */
    method Receive() returns (outcome: Outcome)
      modifies this
      ensures var r := ReadMessageOn(old(input), old(Out()));
        && outcome == r.out.outcome && input == r.out.rest && Out() == r.writer
        && pings == old(pings) + r.out.pings && pongs == old(pongs) + r.out.pongs
    {
      ghost var s, w := input, Out();
      ghost var ping, pong: seq<seq<byte>> := [], [];
      while true
        invariant |input| <= |s|
        invariant Handled(s, w, input, Out(), ping, pong)
        invariant pings == old(pings) + ping && pongs == old(pongs) + pong
        decreases |input|
      {
        ghost var before, was, heard := input, Out(), pings;
        var done; ghost var payload;
        done, outcome, payload := Turn();
        if done {
          ConcatAssoc(old(pings), ping, ReadMessageOn(before, was).out.pings);
          ConcatAssoc(old(pongs), pong, ReadMessageOn(before, was).out.pongs);
          return;
        }
        HandledControl(s, w, before, was, ping, pong, payload, input, Out());
        if pings != heard {
          ping := ping + [payload];
        } else {
          pong := pong + [payload];
        }
      }
    }
  }

  // ------------------------------------------------------------ sequences of writes

  datatype Call = MessageCall(op: byte, data: seq<byte>) | ControlCall(op: byte, data: seq<byte>)

  predicate Refused(c: Call) { c.ControlCall? && |c.data| > MAX_CONTROL }

  predicate Sendable(calls: seq<Call>) { forall i :: 0 <= i < |calls| ==> |calls[i].data| < TWO63 }

  function CallBytes(masking: bool, c: Call): seq<byte>
    requires |c.data| < TWO63
  {
    if Refused(c) then [FirstByte(c.op)] else Frame(masking, c.op, c.data)
  }

  /** Everything `calls` write while the transport accepts it. */
  function Output(masking: bool, calls: seq<Call>): seq<byte>
    requires Sendable(calls)
  {
    if calls == [] then [] else CallBytes(masking, calls[0]) + Output(masking, calls[1..])
  }

  lemma {:induction false} OutputSnoc(masking: bool, calls: seq<Call>, c: Call)
    requires Sendable(calls) && |c.data| < TWO63
    ensures Sendable(calls + [c]) && Output(masking, calls + [c]) == Output(masking, calls) + CallBytes(masking, c)
  {
    if calls == [] {
      assert (calls + [c])[1..] == [] && Output(masking, []) == [];
    } else {
      assert (calls + [c])[1..] == calls[1..] + [c];
      OutputSnoc(masking, calls[1..], c);
      ConcatAssoc(CallBytes(masking, calls[0]), Output(masking, calls[1..]), CallBytes(masking, c));
    }
  }

  /** What the calls do to the writer, one at a time. */
  function Called(w: Writer, c: Call): Writer
    requires |c.data| < TWO63
  {
    if c.MessageCall? then Messaged(w, c.op, c.data) else Controlled(w, c.op, c.data).1
  }

  lemma CallEffect(w: Writer, c: Call)
    requires |c.data| < TWO63
    ensures
      var w', out := Called(w, c), w.wire + w.bufw + CallBytes(w.masking, c);
      && (w.broken ==> w' == w)
      && (!w.broken && Refused(c) ==> w' == w.(bufw := w.bufw + [FirstByte(c.op)]))
      && (!w.broken && !Refused(c) && w.writes > 0 ==> w' == w.(wire := out, bufw := [], writes := w.writes - 1))
      && (!w.broken && !Refused(c) && w.writes == 0 ==> w'.broken && w.wire <= w'.wire <= out)
  {
    ConcatAssoc(w.wire, w.bufw, CallBytes(w.masking, c));
  }

  function Refusals(calls: seq<Call>): nat {
    if calls == [] then 0 else (if Refused(calls[0]) then 1 else 0) + Refusals(calls[1..])
  }

  lemma {:induction false} RefusalsSnoc(calls: seq<Call>, c: Call)
    ensures Refusals(calls + [c]) == Refusals(calls) + if Refused(c) then 1 else 0
  {
    if calls == [] {
      assert (calls + [c])[1..] == [];
    } else {
      assert (calls + [c])[1..] == calls[1..] + [c];
      RefusalsSnoc(calls[1..], c);
    }
  }

  /** How many of the calls there are up to the last one that is not refused. */
  function LastSent(calls: seq<Call>): (n: nat)
    ensures n <= |calls| && (n > 0 ==> !Refused(calls[n - 1]))
    ensures forall i :: n <= i < |calls| ==> Refused(calls[i])
  {
    if calls == [] then 0
    else if !Refused(calls[|calls| - 1]) then |calls|
    else LastSent(calls[..|calls| - 1])
  }

  /** What the calls put on the wire, the rest staying in the buffer. */
  function WireBytes(masking: bool, held: seq<byte>, calls: seq<Call>): seq<byte>
    requires Sendable(calls)
  {
    var n := LastSent(calls);
    if n == 0 then [] else held + Output(masking, calls[..n])
  }

  lemma LastSentSnoc(calls: seq<Call>, c: Call)
    ensures LastSent(calls + [c]) == if Refused(c) then LastSent(calls) else |calls| + 1
  {
    assert (calls + [c])[..|calls|] == calls;
  }

  lemma WireBytesRefused(masking: bool, held: seq<byte>, calls: seq<Call>, c: Call)
    requires Sendable(calls) && Sendable(calls + [c]) && Refused(c)
    ensures WireBytes(masking, held, calls + [c]) == WireBytes(masking, held, calls)
  {
    LastSentSnoc(calls, c);
    var n := LastSent(calls);
    assert (calls + [c])[..n] == calls[..n];
  }

  lemma WireBytesFlushed(masking: bool, held: seq<byte>, calls: seq<Call>, c: Call)
    requires Sendable(calls + [c]) && !Refused(c)
    ensures WireBytes(masking, held, calls + [c]) == held + Output(masking, calls + [c])
  {
    LastSentSnoc(calls, c);
    assert (calls + [c])[..|calls| + 1] == calls + [c];
  }

  /** Where a writer `w0` is after `flushes` flushes of output `out`, of which
      `sent` should be on the wire. */
  ghost predicate Progressed(w0: Writer, w: Writer, flushes: int, sent: seq<byte>, out: seq<byte>) {
    && w.masking == w0.masking
    && (w.broken <==> flushes > w0.writes)
    && (w.broken ==> w0.wire <= w.wire <= w0.wire + w0.bufw + out)
    && (!w.broken ==> w.writes == w0.writes - flushes && w.wire == w0.wire + sent
                      && w.wire + w.bufw == w0.wire + w0.bufw + out)
  }

  lemma ProgressRefused(w0: Writer, w: Writer, w': Writer, flushes: int, sent: seq<byte>, out: seq<byte>, stray: seq<byte>)
    requires Progressed(w0, w, flushes, sent, out) && w' == if w.broken then w else w.(bufw := w.bufw + stray)
    ensures Progressed(w0, w', flushes, sent, out + stray)
  {
    ConcatAssoc(w0.wire + w0.bufw, out, stray);
    ConcatAssoc(w.wire, w.bufw, stray);
  }

  lemma ProgressSent(w0: Writer, w: Writer, w': Writer, flushes: int, sent: seq<byte>, out: seq<byte>, frame: seq<byte>)
    requires Progressed(w0, w, flushes, sent, out) && w'.masking == w.masking
    requires w.broken ==> w' == w
    requires !w.broken && w.writes > 0 ==>
               !w'.broken && w'.writes == w.writes - 1 && w'.bufw == [] && w'.wire == w.wire + w.bufw + frame
    requires !w.broken && w.writes == 0 ==> w'.broken && w.wire <= w'.wire <= w.wire + w.bufw + frame
    ensures Progressed(w0, w', flushes + 1, w0.bufw + (out + frame), out + frame)
  {
    ConcatAssoc(w0.wire + w0.bufw, out, frame);
    ConcatAssoc(w0.wire, w0.bufw, out + frame);
  }

  /** Where the writer is after `calls`. */
  ghost predicate CalledAll(w0: Writer, w: Writer, calls: seq<Call>)
    requires Sendable(calls)
  {
    Progressed(w0, w, |calls| - Refusals(calls), WireBytes(w0.masking, w0.bufw, calls), Output(w0.masking, calls))
  }

  lemma CalledNext(w0: Writer, w: Writer, calls: seq<Call>, c: Call)
    requires Sendable(calls) && CalledAll(w0, w, calls) && |c.data| < TWO63
    ensures Sendable(calls + [c]) && CalledAll(w0, Called(w, c), calls + [c])
  {
    var k, sent, out := |calls| - Refusals(calls), WireBytes(w0.masking, w0.bufw, calls), Output(w0.masking, calls);
    CallEffect(w, c);
    RefusalsSnoc(calls, c);
    OutputSnoc(w0.masking, calls, c);
    if Refused(c) {
      WireBytesRefused(w0.masking, w0.bufw, calls, c);
      ProgressRefused(w0, w, Called(w, c), k, sent, out, [FirstByte(c.op)]);
    } else {
      WireBytesFlushed(w0.masking, w0.bufw, calls, c);
      ProgressSent(w0, w, Called(w, c), k, sent, out, CallBytes(w0.masking, c));
    }
  }

  lemma CalledNone(w: Writer)
    requires !w.broken
    ensures CalledAll(w, w, [])
  {
    assert w.wire + [] == w.wire && w.wire + w.bufw + [] == w.wire + w.bufw;
  }

  ghost predicate CalledSoFar(w0: Writer, w: Writer, calls: seq<Call>, i: nat)
    requires Sendable(calls) && i <= |calls|
  {
    if w0.broken then w == w0 else CalledAll(w0, w, calls[..i])
  }

  lemma CalledMore(w0: Writer, w: Writer, calls: seq<Call>, i: nat)
    requires Sendable(calls) && i < |calls| && CalledSoFar(w0, w, calls, i)
    ensures CalledSoFar(w0, Called(w, calls[i]), calls, i + 1)
  {
    if w0.broken {
      CallEffect(w, calls[i]);
    } else {
      CalledNext(w0, w, calls[..i], calls[i]);
      assert calls[..i + 1] == calls[..i] + [calls[i]];
    }
  }

  /** Any sequence of calls on a connection.  While the transport accepts their
      flushes, everything up to the last call not refused is on the wire and the
      rest in the buffer; once it does not, a prefix of the output is. */
  method MakeCalls(conn: Conn, calls: seq<Call>)
    requires Sendable(calls)
    modifies conn
    ensures old(conn.broken) ==> conn.wire == old(conn.wire)
    ensures !old(conn.broken) ==> CalledAll(old(conn.Out()), conn.Out(), calls)
  {
    ghost var w0 := conn.Out();
    if !w0.broken { CalledNone(w0); }
    for i := 0 to |calls|
      invariant CalledSoFar(w0, conn.Out(), calls, i)
    {
      CalledMore(w0, conn.Out(), calls, i);
      MakeCall(conn, calls[i]);
    }
    assert calls[..|calls|] == calls;
  }

  method MakeCall(conn: Conn, c: Call)
    requires |c.data| < TWO63
    modifies conn
    ensures conn.Out() == Called(old(conn.Out()), c)
  {
    if c.MessageCall? {
      var ok := conn.WriteMessage(c.op, c.data);
    } else {
      var r := conn.WriteControl(c.op, c.data);
    }
  }

  /** The frames of the calls that were not refused. */
  function WholeFrames(masking: bool, calls: seq<Call>): seq<byte>
    requires Sendable(calls)
  {
    if calls == [] then []
    else (if Refused(calls[0]) then [] else CallBytes(masking, calls[0])) + WholeFrames(masking, calls[1..])
  }

  lemma {:induction false} StrayBytes(masking: bool, calls: seq<Call>)
    requires Sendable(calls)
    ensures |Output(masking, calls)| == |WholeFrames(masking, calls)| + Refusals(calls)
    ensures Refusals(calls) == 0 ==> Output(masking, calls) == WholeFrames(masking, calls)
    ensures Refusals(calls) == 0 <==> forall i :: 0 <= i < |calls| ==> !Refused(calls[i])
  {
    if calls != [] { StrayBytes(masking, calls[1..]); }
  }

  lemma {:induction false} NothingWhole(masking: bool, calls: seq<Call>)
    requires Sendable(calls) && forall i :: 0 <= i < |calls| ==> Refused(calls[i])
    ensures WholeFrames(masking, calls) == []
  {
    if calls != [] { NothingWhole(masking, calls[1..]); }
  }

  lemma {:induction false} WholeFramesConcat(masking: bool, a: seq<Call>, b: seq<Call>)
    requires Sendable(a) && Sendable(b) && Sendable(a + b)
    ensures WholeFrames(masking, a + b) == WholeFrames(masking, a) + WholeFrames(masking, b)
  {
    if a == [] {
      assert a + b == b;
    } else {
      assert (a + b)[1..] == a[1..] + b;
      WholeFramesConcat(masking, a[1..], b);
      ConcatAssoc(if Refused(a[0]) then [] else CallBytes(masking, a[0]), WholeFrames(masking, a[1..]), WholeFrames(masking, b));
    }
  }

  lemma WholeFramesPrefix(masking: bool, calls: seq<Call>, n: nat)
    requires Sendable(calls) && n <= |calls| && forall i :: n <= i < |calls| ==> Refused(calls[i])
    ensures Sendable(calls[..n]) && WholeFrames(masking, calls) == WholeFrames(masking, calls[..n])
  {
    assert calls == calls[..n] + calls[n..];
    WholeFramesConcat(masking, calls[..n], calls[n..]);
    NothingWhole(masking, calls[n..]);
  }

  /** No refused call is followed by one that is not. */
  predicate RefusedAtEnd(calls: seq<Call>) {
    forall i, j :: 0 <= i < j < |calls| && Refused(calls[i]) ==> Refused(calls[j])
  }

  lemma RefusedAtEndExactly(calls: seq<Call>)
    ensures RefusedAtEnd(calls) <==> forall i :: 0 <= i < LastSent(calls) ==> !Refused(calls[i])
  {
    var n := LastSent(calls);
    if k :| 0 <= k < n && Refused(calls[k]) {
      assert k < n - 1 && !Refused(calls[n - 1]);
    }
  }

  lemma SentWhole(masking: bool, sent: seq<Call>)
    requires Sendable(sent)
    ensures Output(masking, sent) == WholeFrames(masking, sent) <==> forall i :: 0 <= i < |sent| ==> !Refused(sent[i])
  {
    StrayBytes(masking, sent);
  }

  lemma WireBytesAre(masking: bool, calls: seq<Call>, sent: seq<Call>)
    requires Sendable(calls) && sent == calls[..LastSent(calls)]
    ensures Sendable(sent) && WireBytes(masking, [], calls) == Output(masking, sent)
    ensures WholeFrames(masking, calls) == WholeFrames(masking, sent)
  {
    WholeFramesPrefix(masking, calls, LastSent(calls));
    assert [] + Output(masking, sent) == Output(masking, sent);
  }

  /** What is on the wire is whole frames, while the transport accepts them,
      exactly when no refused control call is followed by a call that is not
      refused: that one flushes the stray byte. */
  lemma WholeFramesExact(masking: bool, calls: seq<Call>)
    requires Sendable(calls)
    ensures WireBytes(masking, [], calls) == WholeFrames(masking, calls) <==> RefusedAtEnd(calls)
  {
    var sent := calls[..LastSent(calls)];
    WireBytesAre(masking, calls, sent);
    SentWhole(masking, sent);
    RefusedAtEndExactly(calls);
    assert forall i :: 0 <= i < |sent| ==> sent[i] == calls[i];
  }

  lemma StrayHeader(s: seq<byte>)
    requires |s| >= 2 && s[0] == 137 && s[1] == 130
    ensures ReadHeader(s) == if |s| < 6 then NoHead else Head(PING, 2, s[2..6], 6)
  {
    assert s[2..2] == [];
  }

  lemma StrayFrame(s: seq<byte>)
    requires |s| >= 2 && s[0] == 137 && s[1] == 130
    ensures |s| < 8 ==> ReadFrame(s).Truncated?
    ensures |s| >= 8 ==> ReadFrame(s).Read? && ReadFrame(s).op == PING && |ReadFrame(s).payload| == 2 && ReadFrame(s).rest == s[8..]
  {
    StrayHeader(s);
  }

  lemma PastPing(s: seq<byte>, f: FrameResult)
    requires f == ReadFrame(s)
    ensures f.Truncated? ==> ReadAll(s).msgs == []
    ensures f.Read? && f.op == PING && |f.payload| <= MAX_CONTROL ==> ReadAll(s).msgs == ReadAll(f.rest).msgs
  {
  }

  /** A stray ping byte turns the frame behind it into the header of a masked
      two-byte ping: six more bytes are lost, whatever they were. */
  lemma StrayByteEats(tail: seq<byte>)
    ensures ReadAll([137, 130] + tail).msgs == if |tail| < 6 then [] else ReadAll(tail[6..]).msgs
  {
    var s := [137, 130] + tail;
    StrayFrame(s);
    PastPing(s, ReadFrame(s));
    if |tail| >= 6 { assert s[8..] == tail[6..]; }
  }

  lemma CallsAfterRefusal(big: seq<byte>, data: seq<byte>)
    requires MAX_CONTROL < |big| < TWO63 && |data| < TWO63
    ensures
      var calls := [ControlCall(PING, big), MessageCall(BINARY, data)];
      Sendable(calls) && Output(false, calls) == [137] + Frame(false, BINARY, data)
  {
    var calls := [ControlCall(PING, big), MessageCall(BINARY, data)];
    assert calls[1..] == [calls[1]] && [calls[1]][1..] == [];
    assert Output(false, calls[1..]) == Frame(false, BINARY, data) + Output(false, []);
  }

  /** So after one refused ping the next message is lost, whatever its data and
      whatever is written after it: the reader goes on six bytes past the
      message's first one. */
  lemma StrayByteSwallowsMessage(big: seq<byte>, data: seq<byte>, more: seq<byte>)
    requires MAX_CONTROL < |big| < TWO63 && |data| < TWO63
    ensures
      var calls := [ControlCall(PING, big), MessageCall(BINARY, data)];
      var tail := Frame(false, BINARY, data)[1..] + more;
      && Sendable(calls)
      && ReadAll(Output(false, calls) + more).msgs == if |tail| < 6 then [] else ReadAll(tail[6..]).msgs
  {
    var frame := Frame(false, BINARY, data);
    CallsAfterRefusal(big, data);
    BinaryHead(data);
    AfterStray(frame, more);
    StrayByteEats(frame[1..] + more);
  }

  lemma BinaryHead(data: seq<byte>)
    requires |data| < TWO63
    ensures Frame(false, BINARY, data) != [] && Frame(false, BINARY, data)[0] == 130
  {
  }

  lemma AfterStray(frame: seq<byte>, more: seq<byte>)
    requires frame != [] && frame[0] == 130
    ensures [137] + frame + more == [137, 130] + (frame[1..] + more)
  {
  }
}
