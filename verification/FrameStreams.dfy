/** Whole streams of frames: what a reader delivers, and what writers put there. */
module FrameStreams {
  import opened Bytes
  import opened Sequences
  import opened Frames

  datatype Msg = Msg(op: byte, data: seq<byte>)

  /** How a call of ReadMessage ends. */
  datatype Outcome =
    | Message(msg: Msg)
    | ClosedByPeer
    | StreamEnded
    | TooLarge
    | PingRefused(payload: seq<byte>)  // the pong would exceed a control frame
    | PongFailed(payload: seq<byte>)   // the pong could not be written

  datatype ReadOut = ReadOut(outcome: Outcome, rest: seq<byte>, pings: seq<seq<byte>>, pongs: seq<seq<byte>>)

  /** One call of ReadMessage with the default handlers, while pongs can be
      written: control frames are given to their handlers until a frame ends the
      call. */
  function ReadMessage(s: seq<byte>): (r: ReadOut)
    ensures |r.rest| <= |s|
    decreases |s|
  {
    match ReadFrame(s)
    case Truncated => ReadOut(StreamEnded, [], [], [])
    case OutOfBounds => ReadOut(TooLarge, s[ReadHeader(s).size..], [], [])
    case Read(op, payload, rest) =>
      if op == PING then
        if |payload| > MAX_CONTROL then ReadOut(PingRefused(payload), rest, [payload], [])
        else var r := ReadMessage(rest); r.(pings := [payload] + r.pings)
      else if op == PONG then var r := ReadMessage(rest); r.(pongs := [payload] + r.pongs)
      else if op == CLOSE then ReadOut(ClosedByPeer, rest, [], [])
      else ReadOut(Message(Msg(op, payload)), rest, [], [])
  }

  lemma DataFrame(s: seq<byte>, op: byte, data: seq<byte>, more: seq<byte>)
    requires (op == TEXT || op == BINARY) && ReadFrame(s) == Read(op, data, more)
    ensures ReadMessage(s) == ReadOut(Message(Msg(op, data)), more, [], [])
  {
  }

  /** A data message written whole is what the next call delivers. */
  lemma MessageInverse(masking: bool, op: byte, data: seq<byte>, more: seq<byte>)
    requires (op == TEXT || op == BINARY) && |data| <= MAX_PAYLOAD
    ensures ReadMessage(Frame(masking, op, data) + more) == ReadOut(Message(Msg(op, data)), more, [], [])
  {
    var key := if masking then ZERO_KEY else [];
    FrameInverse(FirstByte(op), ShortestForm(|data|), key, data, more);
    DataFrame(Frame(masking, op, data) + more, op, data, more);
  }

  /** Everything a reader gets by calling ReadMessage until it stops delivering. */
  datatype Session = Session(msgs: seq<Msg>, pings: seq<seq<byte>>, pongs: seq<seq<byte>>, end: Outcome)

  function ReadAll(s: seq<byte>): Session
    decreases |s|
  {
    match ReadFrame(s)
    case Truncated => Session([], [], [], StreamEnded)
    case OutOfBounds => Session([], [], [], TooLarge)
    case Read(op, payload, rest) =>
      if op == PING && |payload| > MAX_CONTROL then Session([], [payload], [], PingRefused(payload))
      else if op == CLOSE then Session([], [], [], ClosedByPeer)
      else Prepend(Msg(op, payload), ReadAll(rest))
  }

  function Prepend(m: Msg, r: Session): Session {
    if m.op == PING then r.(pings := [m.data] + r.pings)
    else if m.op == PONG then r.(pongs := [m.data] + r.pongs)
    else r.(msgs := [m] + r.msgs)
  }

  /** `all` is what call `r` delivered, followed by `next` if it delivered a message. */
  predicate Chained(all: Session, r: ReadOut, next: Session) {
    all == if r.outcome.Message?
           then Session([r.outcome.msg] + next.msgs, r.pings + next.pings, r.pongs + next.pongs, next.end)
           else Session([], r.pings, r.pongs, r.outcome)
  }

  lemma ChainedAfter(all: Session, r: ReadOut, next: Session, p: seq<byte>)
    requires Chained(all, r, next)
    ensures Chained(all.(pings := [p] + all.pings), r.(pings := [p] + r.pings), next)
    ensures Chained(all.(pongs := [p] + all.pongs), r.(pongs := [p] + r.pongs), next)
  {
    ConcatAssoc([p], r.pings, next.pings);
    ConcatAssoc([p], r.pongs, next.pongs);
  }

  /** ReadAll is ReadMessage called again and again. */
  lemma {:induction false} ReadAllByMessages(s: seq<byte>)
    ensures ReadMessage(s).outcome.Message? ==> |ReadMessage(s).rest| < |s|
    ensures Chained(ReadAll(s), ReadMessage(s), ReadAll(ReadMessage(s).rest))
    decreases |s|
  {
    var f := ReadFrame(s);
    if f.Read? && ((f.op == PING && |f.payload| <= MAX_CONTROL) || f.op == PONG) {
      ReadAllByMessages(f.rest);
      ChainedAfter(ReadAll(f.rest), ReadMessage(f.rest), ReadAll(ReadMessage(f.rest).rest), f.payload);
    }
  }

  // ------------------------------------------------------------ inversion

  /** A frame some peer sent: any FIN and reserved bits, length form and key. */
  datatype Sent = Sent(b0: byte, form: Form, key: seq<byte>, data: seq<byte>)

  predicate ValidFrame(f: Sent) {
    (f.key == [] || |f.key| == 4) && Fits(f.form, |f.data|) && |f.data| <= MAX_PAYLOAD
  }

  predicate Valid(fs: seq<Sent>) { forall i :: 0 <= i < |fs| ==> ValidFrame(fs[i]) }

  function Wire(fs: seq<Sent>): seq<byte>
    requires Valid(fs)
  {
    if fs == [] then [] else Encode(fs[0].b0, fs[0].form, fs[0].key, fs[0].data) + Wire(fs[1..])
  }

  /** What the reader of those frames should get: the data messages before the
      first close, in order, each control payload once. */
  function Play(fs: seq<Sent>): Session {
    if fs == [] then Session([], [], [], StreamEnded)
    else
      var m := Msg(fs[0].b0 % 16, fs[0].data);
      if m.op == PING && |m.data| > MAX_CONTROL then Session([], [m.data], [], PingRefused(m.data))
      else if m.op == CLOSE then Session([], [], [], ClosedByPeer)
      else Prepend(m, Play(fs[1..]))
  }

  /** Reading undoes writing on whole streams. */
  lemma {:induction false} StreamInverse(fs: seq<Sent>)
    requires Valid(fs)
    ensures ReadAll(Wire(fs)) == Play(fs)
  {
    if fs != [] {
      FrameInverse(fs[0].b0, fs[0].form, fs[0].key, fs[0].data, Wire(fs[1..]));
      StreamInverse(fs[1..]);
    }
  }

  // ------------------------------------------------------------ cut streams

  /** Cutting the byte stream anywhere only cuts what is delivered, never changes it. */
  lemma {:induction false} CutStream(s: seq<byte>, more: seq<byte>)
    ensures var a, b := ReadAll(s), ReadAll(s + more);
      && a.msgs <= b.msgs && a.pings <= b.pings && a.pongs <= b.pongs
      && (!a.end.StreamEnded? ==> a == b)
    decreases |s|
  {
    ReadFrameStable(s, more);
    var f := ReadFrame(s);
    if f.Read? && !(f.op == PING && |f.payload| > MAX_CONTROL) && f.op != CLOSE {
      CutStream(f.rest, more);
    }
  }
}
