/** The target frame: one byte of version, one of host length, the host, and a
    big-endian port, sent ahead of the tunnelled bytes of a dynamic reverse tunnel. */
module Targets {
  import opened Wrappers
  import opened Bytes
  import opened Frames
  import opened FrameStreams

  datatype Target = Target(host: seq<byte>, port: nat)

  predicate Encodable(t: Target) { |t.host| <= 255 && t.port < 65536 }

  function TargetFrame(t: Target): (r: seq<byte>)
    requires Encodable(t)
    ensures |r| == 4 + |t.host|
  {
    [1, |t.host|] + t.host + BigEndian(t.port, 2)
  }

  method CopyInto(frame: array<byte>, at: nat, src: seq<byte>)
    requires at + |src| <= frame.Length
    modifies frame
    ensures frame[at..at + |src|] == src
    ensures frame[..at] == old(frame[..at]) && frame[at + |src|..] == old(frame[at + |src|..])
  {
    forall i | 0 <= i < |src| { frame[at + i] := src[i]; }
  }

  /** Fills a fresh array; refuses exactly the hosts over 255 bytes. */
  method EncodeTargetFrame(t: Target) returns (r: Result<seq<byte>>)
    requires t.port < 65536
    ensures r == if |t.host| > 255 then Err else Ok(TargetFrame(t))
  {
    if |t.host| > 255 {
      return Err;
    }
    var frame := new byte[1 + 1 + |t.host| + 2];
    frame[0] := 1;
    frame[1] := |t.host|;
    CopyInto(frame, 2, t.host);
    assert frame[..2] == [1, |t.host|];
    assert frame[..2 + |t.host|] == frame[..2] + frame[2..2 + |t.host|];
    CopyInto(frame, 2 + |t.host|, BigEndian(t.port, 2));
    assert frame[..] == frame[..2 + |t.host|] + frame[2 + |t.host|..frame.Length];
    return Ok(frame[..]);
  }

  /** How long a frame that starts with these bytes says it is. */
  function Announced(p: seq<byte>): nat
    requires |p| >= 2
  {
    2 + p[1] as int + 2
  }

  /** The decoding of a whole message, or of the bytes read off a stream. */
  function Decode(p: seq<byte>): Result<Target> {
    if |p| < 4 then Err
    else if p[0] != 1 then Err
    else if |p| < Announced(p) then Err
    else var n := Announced(p); Ok(Target(p[2..n - 2], FromBigEndian(p[n - 2..n])))
  }

  /** The byte-stream transport: header, then as much as it announces. */
  function ReadFromStream(s: seq<byte>): (Result<Target>, seq<byte>) {
    if |s| < 2 then (Err, [])
    else if s[0] != 1 then (Err, s[2..])
    else if |s| < Announced(s) then (Err, [])
    else (Decode(s[..Announced(s)]), s[Announced(s)..])
  }

  lemma PortBytes(s: seq<byte>)
    requires |s| == 2
    ensures BigEndian(FromBigEndian(s), 2) == s && FromBigEndian(s) < 65536
  {
    FromBigEndianTwo(s);
    var n, a: nat, b: nat := FromBigEndian(s), s[0], s[1];
    BigEndianAt(n, 2, 0);
    BigEndianAt(n, 2, 1);
    assert Pow256(1) == 256 && Pow256(0) == 1;
    assert n / 256 == a && n % 256 == b;
  }

  /** The frame byte by byte: version, host length, host, the port's high and low byte. */
  lemma TargetRaw(t: Target)
    requires Encodable(t)
    ensures TargetFrame(t) == [1, |t.host|] + t.host + [t.port / 256, t.port % 256]
  {
    BigEndianAt(t.port, 2, 0);
    BigEndianAt(t.port, 2, 1);
    assert Pow256(1) == 256 && Pow256(0) == 1;
    assert BigEndian(t.port, 2) == [t.port / 256, t.port % 256];
  }

  /** And read from the same bytes. */
  lemma DecodeRaw(host: seq<byte>, hi: byte, lo: byte, more: seq<byte>)
    requires |host| <= 255
    ensures Decode([1, |host|] + host + [hi, lo] + more) == Ok(Target(host, 256 * hi as nat + lo as nat))
  {
    FrameSlices([1, |host|], host, [hi, lo], more);
    FromBigEndianTwo([hi, lo]);
  }

  lemma FrameSlices(head: seq<byte>, host: seq<byte>, port: seq<byte>, more: seq<byte>)
    requires |head| == 2 && |port| == 2
    ensures
      var (p, n) := (head + host + port + more, 2 + |host|);
      p[0] == head[0] && p[1] == head[1] && p[2..n] == host && p[n..n + 2] == port
  {
  }

  lemma Pieces(p: seq<byte>, n: nat)
    requires 2 <= n && n + 2 <= |p|
    ensures p == [p[0], p[1]] + p[2..n] + p[n..n + 2] + p[n + 2..]
  {
  }

  /** Every frame decodes to its own target, whatever follows it. */
  lemma DecodeFrame(t: Target, more: seq<byte>)
    requires Encodable(t)
    ensures Decode(TargetFrame(t) + more) == Ok(t)
  {
    FrameSlices([1, |t.host|], t.host, BigEndian(t.port, 2), more);
    assert Pow256(2) == 65536;
    BigEndianInverse(t.port, 2);
  }

  /** Nothing but a frame, with whatever follows, decodes. */
  lemma DecodesOnlyFrames(p: seq<byte>, t: Target)
    requires Decode(p) == Ok(t)
    ensures Encodable(t) && TargetFrame(t) <= p
  {
    var n := Announced(p) - 2;
    PortBytes(p[n..n + 2]);
    Pieces(p, n);
    assert p == TargetFrame(t) + p[n + 2..];
  }

  /** Decoding succeeds exactly on the frames and their extensions. */
  lemma DecodeExact(p: seq<byte>, t: Target)
    ensures Decode(p) == Ok(t) <==> Encodable(t) && TargetFrame(t) <= p
  {
    if Decode(p) == Ok(t) {
      DecodesOnlyFrames(p, t);
    } else if Encodable(t) && TargetFrame(t) <= p {
      assert p == TargetFrame(t) + p[|TargetFrame(t)|..];
      DecodeFrame(t, p[|TargetFrame(t)|..]);
    }
  }

  /** The byte-stream path takes exactly the frame and leaves what follows it. */
  lemma StreamRoundTrip(t: Target, more: seq<byte>)
    requires Encodable(t)
    ensures ReadFromStream(TargetFrame(t) + more) == (Ok(t), more)
  {
    var s, n := TargetFrame(t) + more, 4 + |t.host|;
    assert s[..n] == TargetFrame(t) && s[n..] == more;
    assert s[1] == TargetFrame(t)[1] && TargetFrame(t) + [] == TargetFrame(t);
    DecodeFrame(t, []);
  }

  /** The message path: the frame sent as one WebSocket message, masked or not. */
  lemma MessageRoundTrip(masking: bool, t: Target, more: seq<byte>)
    requires Encodable(t)
    ensures
      var r := ReadMessage(Frame(masking, BINARY, TargetFrame(t)) + more);
      r.outcome == Message(Msg(BINARY, TargetFrame(t))) && r.rest == more && Decode(TargetFrame(t)) == Ok(t)
  {
    MessageInverse(masking, BINARY, TargetFrame(t), more);
    DecodeFrame(t, []);
    assert TargetFrame(t) + [] == TargetFrame(t);
  }
}
