/** One direction of two piped connections as a transition system: the near copy
    loop, any number of other writers serialised by the write lock, a transport
    that may break or be cut at any byte, and the far copy loop. */
module PipeRuns {
  import opened Wrappers
  import opened Bytes
  import opened Sequences
  import opened Frames
  import opened FrameStreams
  import opened Pipes

  datatype Far = Reading | Stopped(end: Outcome) | WriteFailed

  /** `near`: bytes the near loop read.  `frames`: every frame a writer started to
      write, in lock order.  `wire`: the bytes that got out.  `cut`: where the far
      side sees the stream end, once it does.  `pos`: bytes the far side consumed.
      `taken` is history: the messages it got. */
  datatype State = State(
    masking: bool, near: seq<byte>, nearFailed: bool, nearDone: bool,
    frames: seq<Sent>, wire: seq<byte>, broken: bool,
    cut: Option<nat>, pos: nat, taken: seq<Msg>, out: seq<byte>, far: Far)

  datatype Action =
    | NearRead(chunk: seq<byte>, sent: nat)            // sent: bytes of the frame that get out
    | NearStop(sent: nat)                              // the deferred close frame
    | Control(op: byte, payload: seq<byte>, sent: nat) // a ping or pong of another writer
    | Cut(at: nat)
    | FarRead(written: nat)                            // written: bytes the far TCP connection accepts
    | FarStop                                          // a pong of the far side could not be written

  function OnWire(f: Sent): seq<byte>
    requires ValidFrame(f)
  {
    Encode(f.b0, f.form, f.key, f.data)
  }

  function FrameFor(s: State, a: Action): Sent
    requires a.NearRead? || a.NearStop? || a.Control?
  {
    match a
    case NearRead(chunk, _) => Framed(s.masking, BINARY, chunk)
    case NearStop(_) => Framed(s.masking, CLOSE, CLOSE_PAYLOAD)
    case Control(op, payload, _) => Framed(s.masking, op, payload)
  }

  function Visible(s: State): seq<byte> {
    if s.cut.Some? && s.cut.value <= |s.wire| then s.wire[..s.cut.value] else s.wire
  }

  function Unread(s: State): seq<byte> {
    if s.pos <= |Visible(s)| then Visible(s)[s.pos..] else []
  }

  predicate Enabled(s: State, a: Action) {
    match a
    case NearRead(chunk, sent) =>
      && !s.nearFailed && !s.nearDone && 1 <= |chunk| <= CHUNK
      && sent <= |OnWire(FrameFor(s, a))|
    case NearStop(sent) => !s.nearDone && sent <= |OnWire(FrameFor(s, a))|
    case Control(op, payload, sent) =>
      (op == PING || op == PONG) && |payload| <= MAX_CONTROL && sent <= |OnWire(FrameFor(s, a))|
    case Cut(at) => s.cut.None? && s.pos <= at <= |s.wire|
    case FarStop => s.far.Reading?
    case FarRead(written) =>
      && s.far.Reading?
      && (ReadMessage(Unread(s)).outcome.StreamEnded? ==> s.cut.Some?)  // else it blocks
      && (ReadMessage(Unread(s)).outcome.Message? ==> written <= |CopiedBytes(ReadMessage(Unread(s)).outcome.msg)|)
  }

  /** A writer holding the lock gets `sent` bytes of its frame out; anything short
      of the frame, or an earlier break, is an error for good. */
  function Write(s: State, f: Sent, sent: nat): State
    requires ValidFrame(f) && sent <= |OnWire(f)|
  {
    s.(frames := s.frames + [f],
       wire := if s.broken then s.wire else s.wire + OnWire(f)[..sent],
       broken := s.broken || sent < |OnWire(f)|)
  }

  /** The far side got `m` from `n` more bytes, and wrote `written` bytes of its data. */
  function Took(s: State, m: Msg, n: nat, written: nat): State
    requires written <= |CopiedBytes(m)|
  {
    s.(pos := s.pos + n, taken := s.taken + [m], out := s.out + CopiedBytes(m)[..written],
       far := if written < |CopiedBytes(m)| then WriteFailed else Reading)
  }

  function Do(s: State, a: Action): State
    requires Enabled(s, a)
  {
    match a
    case NearRead(chunk, sent) =>
      var s' := Write(s, FrameFor(s, a), sent);
      s'.(near := s.near + chunk, nearFailed := s'.broken)
    case NearStop(sent) => Write(s, FrameFor(s, a), sent).(nearDone := true)
    case Control(_, _, sent) => Write(s, FrameFor(s, a), sent)
    case Cut(at) => s.(cut := Some(at))
    case FarStop => s.(far := Stopped(PongFailed([])))
    case FarRead(written) =>
      var r := ReadMessage(Unread(s));
      if r.outcome.Message? then Took(s, r.outcome.msg, |Unread(s)| - |r.rest|, written)
      else s.(far := Stopped(r.outcome))
  }

  function Initial(masking: bool): State {
    State(masking, [], false, false, [], [], false, None, 0, [], [], Reading)
  }

  // ------------------------------------------------------------ framing facts

  /** A frame depends on its own bytes only. */
  lemma FrameExact(s: seq<byte>, x: seq<byte>)
    requires ReadFrame(s).Read?
    ensures var f := ReadFrame(s); |f.rest| < |s| && ReadFrame(s[..|s| - |f.rest|] + x) == f.(rest := x)
  {
    var f, h := ReadFrame(s), ReadHeader(s);
    var c := s[..|s| - |f.rest|];
    assert s == c + f.rest && |c| == h.size + h.length;
    assert c[1] == s[1];
    HeaderStable(c, f.rest);
    HeaderStable(c, x);
    SliceOfExtension(c, x, h.size, |c|);
    SliceOfExtension(c, f.rest, h.size, |c|);
  }

  function Logged(op: byte, payload: seq<byte>, r: ReadOut): ReadOut {
    if op == PING then r.(pings := [payload] + r.pings) else r.(pongs := [payload] + r.pongs)
  }

  lemma PastControl(s: seq<byte>)
    requires ReadFrame(s).Read?
    requires var f := ReadFrame(s); (f.op == PING && |f.payload| <= MAX_CONTROL) || f.op == PONG
    ensures var f := ReadFrame(s); ReadMessage(s) == Logged(f.op, f.payload, ReadMessage(f.rest))
  {
  }

  lemma ControlAgain(s: seq<byte>, f: FrameResult, t: seq<byte>, y: seq<byte>, x: seq<byte>)
    requires f.Read? && ReadFrame(s) == f && ReadFrame(t) == f.(rest := y)
    requires (f.op == PING && |f.payload| <= MAX_CONTROL) || f.op == PONG
    requires ReadMessage(y) == ReadMessage(f.rest).(rest := x)
    ensures ReadMessage(t) == ReadMessage(s).(rest := x)
  {
    PastControl(s);
    PastControl(t);
  }

  /** So does a delivered message: `c` are the bytes it took. */
  lemma {:induction false} MessageExact(c: seq<byte>, rest: seq<byte>, x: seq<byte>)
    requires ReadMessage(c + rest).outcome.Message? && ReadMessage(c + rest).rest == rest
    ensures ReadMessage(c + x) == ReadMessage(c + rest).(rest := x)
    decreases |c|
  {
    var s := c + rest;
    var f := ReadFrame(s);
    var c1 := s[..|s| - |f.rest|];
    RestIsTail(s);
    assert s == c1 + f.rest && |c1| > 0;
    if f.op == PING || f.op == PONG {
      PastControl(s);
      var c2 := f.rest[..|f.rest| - |rest|];
      SameSplit(c, rest, c1, f.rest, c2, x);
      FrameExact(s, c2 + x);
      MessageExact(c2, rest, x);
      ControlAgain(s, f, c + x, c2 + x, x);
    } else {
      assert c1 == c;
      FrameExact(s, x);
    }
  }

  lemma SameSplit(c: seq<byte>, rest: seq<byte>, c1: seq<byte>, r1: seq<byte>, c2: seq<byte>, x: seq<byte>)
    requires c + rest == c1 + r1 && |rest| <= |r1| && c2 == r1[..|r1| - |rest|]
    ensures r1 == c2 + rest && c == c1 + c2 && c + x == c1 + (c2 + x)
  {
    var s := c + rest;
    assert rest == s[|c|..] && r1 == s[|c1|..];
    assert c == s[..|c|] == (c1 + r1)[..|c|];
  }

  lemma RestIsTail(s: seq<byte>)
    requires ReadFrame(s).Read?
    ensures var f := ReadFrame(s); |f.rest| < |s| && s[|s| - |f.rest|..] == f.rest
  {
  }

  /** Whatever follows, the bytes `p` deliver exactly `taken`. */
  ghost predicate Eats(p: seq<byte>, taken: seq<Msg>) {
    forall x :: ReadAll(p + x).msgs == taken + ReadAll(x).msgs && ReadAll(p + x).end == ReadAll(x).end
  }

  lemma OneMessage(c: seq<byte>, rest: seq<byte>, m: Msg, x: seq<byte>)
    requires ReadMessage(c + rest).outcome == Message(m) && ReadMessage(c + rest).rest == rest
    ensures ReadAll(c + x).msgs == [m] + ReadAll(x).msgs && ReadAll(c + x).end == ReadAll(x).end
  {
    MessageExact(c, rest, x);
    ReadAllByMessages(c + x);
  }

  lemma EatsThen(p: seq<byte>, taken: seq<Msg>, c: seq<byte>, rest: seq<byte>, m: Msg)
    requires Eats(p, taken) && ReadMessage(c + rest).outcome == Message(m) && ReadMessage(c + rest).rest == rest
    ensures Eats(p + c, taken + [m])
  {
    forall x ensures ReadAll(p + c + x).msgs == taken + [m] + ReadAll(x).msgs && ReadAll(p + c + x).end == ReadAll(x).end {
      OneMessage(c, rest, m, x);
      ConcatAssoc(p, c, x);
      ConcatAssoc(taken, [m], ReadAll(x).msgs);
    }
  }

  lemma EatsMessage(p: seq<byte>, taken: seq<Msg>, u: seq<byte>)
    requires Eats(p, taken) && ReadMessage(u).outcome.Message?
    ensures var r := ReadMessage(u); Eats(p + u[..|u| - |r.rest|], taken + [r.outcome.msg])
  {
    var r := ReadMessage(u);
    MessageTail(u);
    assert u[..|u| - |r.rest|] + r.rest == u;
    EatsThen(p, taken, u[..|u| - |r.rest|], r.rest, r.outcome.msg);
  }

  predicate TailOf(rest: seq<byte>, u: seq<byte>) { |rest| <= |u| && u[|u| - |rest|..] == rest }

  lemma TailTrans(u: seq<byte>, mid: seq<byte>, rest: seq<byte>)
    requires TailOf(mid, u) && TailOf(rest, mid)
    ensures TailOf(rest, u)
  {
    assert u == u[..|u| - |mid|] + mid;
  }

  lemma {:induction false} MessageTail(u: seq<byte>)
    requires ReadMessage(u).outcome.Message?
    ensures TailOf(ReadMessage(u).rest, u)
    decreases |u|
  {
    var f := ReadFrame(u);
    RestIsTail(u);
    if f.op == PING || f.op == PONG {
      PastControl(u);
      MessageTail(f.rest);
      TailTrans(u, f.rest, ReadMessage(f.rest).rest);
    }
  }

  // ------------------------------------------------------------ the writers' side

  predicate FramesOk(fs: seq<Sent>) {
    Valid(fs) && forall i :: 0 <= i < |fs| && fs[i].b0 % 16 == PING ==> |fs[i].data| <= MAX_CONTROL
  }

  lemma {:induction false} WireSnoc(fs: seq<Sent>, f: Sent)
    requires Valid(fs) && ValidFrame(f)
    ensures Valid(fs + [f]) && Wire(fs + [f]) == Wire(fs) + OnWire(f)
  {
    if fs == [] {
      assert fs + [f] == [f];
      WireOfOne(f);
    } else {
      assert (fs + [f])[1..] == fs[1..] + [f];
      WireSnoc(fs[1..], f);
      ConcatAssoc(OnWire(fs[0]), Wire(fs[1..]), OnWire(f));
    }
  }

  function Delivered(r: Session, f: Sent): Session {
    var m := Msg(f.b0 % 16, f.data);
    if m.op == CLOSE then r.(end := ClosedByPeer)
    else if m.op == PING then r.(pings := r.pings + [m.data])
    else if m.op == PONG then r.(pongs := r.pongs + [m.data])
    else r.(msgs := r.msgs + [m])
  }

  lemma {:induction false} PlaySnoc(fs: seq<Sent>, f: Sent)
    requires f.b0 % 16 == PING ==> |f.data| <= MAX_CONTROL
    ensures Play(fs + [f]) == if Play(fs).end.StreamEnded? then Delivered(Play(fs), f) else Play(fs)
  {
    if fs == [] {
      assert fs + [f] == [f] && [f][1..] == [];
    } else {
      assert (fs + [f])[1..] == fs[1..] + [f];
      PlaySnoc(fs[1..], f);
    }
  }

  // ------------------------------------------------------------ invariant

  ghost predicate WritersOk(s: State) {
    && FramesOk(s.frames)
    && s.wire <= Wire(s.frames) && (!s.broken ==> s.wire == Wire(s.frames))
    && s.near == DataOf(Play(s.frames).msgs)
    && Play(s.frames).end == (if s.nearDone then ClosedByPeer else StreamEnded)
  }

  ghost predicate ReaderOk(s: State) {
    && (s.cut.Some? ==> s.pos <= s.cut.value <= |s.wire|) && s.pos <= |s.wire|
    && Eats(s.wire[..s.pos], s.taken)
    && s.out <= DataOf(s.taken) && (!s.far.WriteFailed? ==> s.out == DataOf(s.taken))
    && (s.far == Stopped(ClosedByPeer) ==> s.nearDone && s.taken == Play(s.frames).msgs)
  }

  ghost predicate Inv(s: State) { WritersOk(s) && ReaderOk(s) }

  lemma InitialInv(masking: bool)
    ensures Inv(Initial(masking))
  {
    assert forall x: seq<byte> :: [] + x == x;
    forall x: seq<byte> ensures ReadAll([] + x).msgs == [] + ReadAll(x).msgs {}
  }

  /** Frame `f` joins the stream, whole or in part. */
  lemma WriteOk(s: State, f: Sent, sent: nat)
    requires WritersOk(s) && ValidFrame(f) && sent <= |OnWire(f)| && (f.b0 % 16 == PING ==> |f.data| <= MAX_CONTROL)
    ensures var s' := Write(s, f, sent);
      && FramesOk(s'.frames) && s.wire <= s'.wire <= Wire(s'.frames) && (!s'.broken ==> s'.wire == Wire(s'.frames))
      && Play(s'.frames) == if s.nearDone then Play(s.frames) else Delivered(Play(s.frames), f)
  {
    WireSnoc(s.frames, f);
    PlaySnoc(s.frames, f);
  }

  lemma FrameOp(masking: bool, op: byte, data: seq<byte>)
    requires op < 16 && |data| <= MAX_PAYLOAD
    ensures var f := Framed(masking, op, data); ValidFrame(f) && f.b0 % 16 == op && f.data == data
  {
  }

  /** What a frame of each kind adds to the bytes that should arrive. */
  lemma Delivers(r: Session, f: Sent)
    ensures f.b0 % 16 == BINARY ==> DataOf(Delivered(r, f).msgs) == DataOf(r.msgs) + f.data && Delivered(r, f).end == r.end
    ensures f.b0 % 16 in {PING, PONG} ==> Delivered(r, f).msgs == r.msgs && Delivered(r, f).end == r.end
    ensures f.b0 % 16 == CLOSE ==> Delivered(r, f).msgs == r.msgs && Delivered(r, f).end == ClosedByPeer
  {
    DataOfSnoc(r.msgs, Msg(BINARY, f.data));
  }

  lemma WritersFrom(s: State, s': State, f: Sent, sent: nat)
    requires WritersOk(s) && ValidFrame(f) && sent <= |OnWire(f)| && f.b0 % 16 in {BINARY, CLOSE, PING, PONG}
    requires f.b0 % 16 == PING ==> |f.data| <= MAX_CONTROL
    requires var w := Write(s, f, sent); s'.frames == w.frames && s'.wire == w.wire && s'.broken == w.broken
    requires s.nearDone ==> f.b0 % 16 != BINARY
    requires s'.near == if f.b0 % 16 == BINARY then s.near + f.data else s.near
    requires s'.nearDone == (s.nearDone || f.b0 % 16 == CLOSE)
    ensures WritersOk(s') && s.wire <= s'.wire && (s.nearDone ==> Play(s'.frames) == Play(s.frames))
  {
    WriteOk(s, f, sent);
    Delivers(Play(s.frames), f);
  }

  /** More bytes on the wire do not concern what was already read. */
  lemma ReaderKeeps(s: State, s': State)
    requires ReaderOk(s) && s.wire <= s'.wire
    requires s'.cut == s.cut && s'.pos == s.pos && s'.taken == s.taken && s'.out == s.out && s'.far == s.far
    requires s.nearDone ==> s'.nearDone && Play(s'.frames) == Play(s.frames)
    ensures ReaderOk(s')
  {
    assert s'.wire[..s.pos] == s.wire[..s.pos];
  }

  lemma WriteStepInv(s: State, a: Action)
    requires Inv(s) && Enabled(s, a) && (a.NearRead? || a.NearStop? || a.Control?)
    ensures Inv(Do(s, a))
  {
    match a {
      case NearRead(chunk, _) => FrameOp(s.masking, BINARY, chunk);
      case NearStop(_) => FrameOp(s.masking, CLOSE, CLOSE_PAYLOAD);
      case Control(op, payload, _) => FrameOp(s.masking, op, payload);
    }
    WritersFrom(s, Do(s, a), FrameFor(s, a), a.sent);
    ReaderKeeps(s, Do(s, a));
  }

  /** Having come to the end of a session, a reader has everything there is. */
  lemma EndMeansAll(p: seq<byte>, taken: seq<Msg>, u: seq<byte>, more: seq<byte>)
    requires Eats(p, taken) && ReadAll(u).msgs == [] && ReadAll(u).end == ClosedByPeer
    ensures ReadAll(p + u + more).msgs == taken && ReadAll(p + u + more).end == ClosedByPeer
  {
    assert ReadAll(p + u).msgs == taken + ReadAll(u).msgs && taken + [] == taken;
    CutStream(p + u, more);
  }

  lemma CloseEndsSession(u: seq<byte>)
    requires ReadMessage(u).outcome == ClosedByPeer
    ensures ReadAll(u).msgs == [] && ReadAll(u).end == ClosedByPeer
  {
    ReadAllByMessages(u);
  }

  /** So the close frame comes when the near side is done and all is taken. */
  lemma ClosedMeansAll(p: seq<byte>, taken: seq<Msg>, u: seq<byte>, all: seq<byte>)
    requires Eats(p, taken) && ReadAll(u).msgs == [] && ReadAll(u).end == ClosedByPeer && p + u <= all
    ensures ReadAll(all).msgs == taken && ReadAll(all).end == ClosedByPeer
  {
    EndMeansAll(p, taken, u, all[|p + u|..]);
    assert p + u + all[|p + u|..] == all;
  }

  lemma VisibleParts(s: State)
    requires ReaderOk(s)
    ensures s.wire[..s.pos] + Unread(s) == Visible(s) && Visible(s) <= s.wire
  {
  }

  lemma PartOf(w: seq<byte>, v: seq<byte>, pos: nat, n: nat)
    requires v <= w && pos + n <= |v|
    ensures w[..pos] + v[pos..][..n] == w[..pos + n]
  {
  }

  lemma Accepted(taken: seq<Msg>, m: Msg, out: seq<byte>, written: nat)
    requires out == DataOf(taken) && written <= |CopiedBytes(m)|
    ensures out + CopiedBytes(m)[..written] <= DataOf(taken + [m])
    ensures written == |CopiedBytes(m)| ==> out + CopiedBytes(m)[..written] == DataOf(taken + [m])
  {
    DataOfSnoc(taken, m);
  }

  lemma EatsUpTo(w: seq<byte>, p: seq<byte>, taken: seq<Msg>)
    requires Eats(p, taken) && p == w
    ensures Eats(w, taken)
  {
  }

  lemma EatsNext(w: seq<byte>, v: seq<byte>, pos: nat, taken: seq<Msg>, u: seq<byte>, m: Msg, n: nat)
    requires v <= w && pos <= |v| && Eats(w[..pos], taken) && u == v[pos..] && n <= |u|
    requires ReadMessage(u).outcome == Message(m) && n == |u| - |ReadMessage(u).rest|
    ensures Eats(w[..pos + n], taken + [m])
  {
    EatsMessage(w[..pos], taken, u);
    PartOf(w, v, pos, n);
    EatsUpTo(w[..pos + n], w[..pos] + u[..n], taken + [m]);
  }

  lemma TookOk(s: State, m: Msg, n: nat, written: nat)
    requires ReaderOk(s) && s.far.Reading? && written <= |CopiedBytes(m)| && s.pos + n <= |Visible(s)|
    requires Eats(s.wire[..s.pos + n], s.taken + [m])
    ensures ReaderOk(Took(s, m, n, written))
  {
    Accepted(s.taken, m, s.out, written);
  }

  lemma TakeMessage(s: State, u: seq<byte>, m: Msg, n: nat, written: nat)
    requires ReaderOk(s) && s.far.Reading? && written <= |CopiedBytes(m)| && u == Unread(s)
    requires n <= |u| && ReadMessage(u).outcome == Message(m) && n == |u| - |ReadMessage(u).rest|
    ensures ReaderOk(Took(s, m, n, written))
  {
    EatsNext(s.wire, Visible(s), s.pos, s.taken, u, m, n);
    TookOk(s, m, n, written);
  }

  lemma WritersSame(s: State, s': State)
    requires WritersOk(s) && s'.frames == s.frames && s'.wire == s.wire && s'.broken == s.broken
    requires s'.near == s.near && s'.nearDone == s.nearDone
    ensures WritersOk(s')
  {
  }

  /** What a far read does, by what the next call delivers. */
  lemma FarDoes(s: State, written: nat, u: seq<byte>, r: ReadOut)
    requires Enabled(s, FarRead(written)) && u == Unread(s) && r == ReadMessage(u)
    ensures s.far.Reading? && |r.rest| <= |u|
    ensures r.outcome.Message? ==>
              && written <= |CopiedBytes(r.outcome.msg)|
              && Do(s, FarRead(written)) == Took(s, r.outcome.msg, |u| - |r.rest|, written)
    ensures !r.outcome.Message? ==> Do(s, FarRead(written)) == s.(far := Stopped(r.outcome))
  {
  }

  lemma StoppedOk(s: State, end: Outcome)
    requires ReaderOk(s) && s.far.Reading?
    requires end.ClosedByPeer? ==> s.nearDone && s.taken == Play(s.frames).msgs
    ensures ReaderOk(s.(far := Stopped(end)))
  {
  }

  lemma FarStepInv(s: State, written: nat)
    requires Inv(s) && Enabled(s, FarRead(written))
    ensures Inv(Do(s, FarRead(written)))
  {
    var u := Unread(s);
    var r := ReadMessage(u);
    FarDoes(s, written, u, r);
    if r.outcome.Message? {
      TakeMessage(s, u, r.outcome.msg, |u| - |r.rest|, written);
    } else {
      if r.outcome.ClosedByPeer? {
        VisibleParts(s);
        CloseEndsSession(u);
        ClosedMeansAll(s.wire[..s.pos], s.taken, u, Wire(s.frames));
        StreamInverse(s.frames);
      }
      StoppedOk(s, r.outcome);
    }
    WritersSame(s, Do(s, FarRead(written)));
  }

  /** Every step keeps the invariant. */
  lemma StepInv(s: State, a: Action)
    requires Inv(s) && Enabled(s, a)
    ensures Inv(Do(s, a))
  {
    if a.FarRead? { FarStepInv(s, a.written); } else if !a.Cut? && !a.FarStop? { WriteStepInv(s, a); }
  }

  // ------------------------------------------------------------ every run

  ghost predicate Trace(ss: seq<State>, acts: seq<Action>) {
    && |ss| == |acts| + 1 && ss[0] == Initial(ss[0].masking)
    && forall i {:trigger acts[i]} :: 0 <= i < |acts| ==> Enabled(ss[i], acts[i]) && ss[i + 1] == Do(ss[i], acts[i])
  }

  lemma {:induction false} TraceInv(ss: seq<State>, acts: seq<Action>, k: nat)
    requires Trace(ss, acts) && k <= |acts|
    ensures Inv(ss[k])
  {
    if k == 0 {
      InitialInv(ss[0].masking);
    } else {
      TraceInv(ss, acts, k - 1);
      StepInv(ss[k - 1], acts[k - 1]);
    }
  }

  /** End-to-end stream preservation: at every moment of every run, whatever the
      reads, the other writers' control frames, and wherever the transport breaks
      or is cut, the far bytes are a prefix of the near bytes; and they are all of
      them once the far side has consumed the close frame. */
  lemma StreamPreserved(ss: seq<State>, acts: seq<Action>, k: nat)
    requires Trace(ss, acts) && k <= |acts|
    ensures ss[k].out <= ss[k].near
    ensures ss[k].far == Stopped(ClosedByPeer) ==> ss[k].out == ss[k].near
  {
    TraceInv(ss, acts, k);
    var s := ss[k];
    ReadAllOfWire(s);
    DataOfPrefix(s.taken, Play(s.frames).msgs);
  }

  lemma PrefixEaten(p: seq<byte>, taken: seq<Msg>, rest: seq<byte>)
    requires Eats(p, taken)
    ensures taken <= ReadAll(p + rest).msgs
  {
  }

  lemma PartOfAll(p: seq<byte>, taken: seq<Msg>, all: seq<byte>)
    requires Eats(p, taken) && p <= all
    ensures taken <= ReadAll(all).msgs
  {
    PrefixEaten(p, taken, all[|p|..]);
    assert p + all[|p|..] == all;
  }

  lemma ReadAllOfWire(s: State)
    requires Inv(s)
    ensures s.taken <= Play(s.frames).msgs
  {
    PartOfAll(s.wire[..s.pos], s.taken, Wire(s.frames));
    StreamInverse(s.frames);
  }
}
