/** Frames byte by byte and bit by bit, as sections 5.2, 5.3 and 5.5 of RFC 6455
    lay them out. */
module RawFrames {
  import opened Bytes
  import opened Sequences
  import opened Frames
  import opened FrameStreams

  // ------------------------------------------------------------ reading

  /** The first `e` bytes announce `n` bytes of payload. */
  predicate Announces(s: seq<byte>, e: nat, n: nat) {
    && |s| >= 2
    && var m := s[1] % 128;
       || (m < 126 && e == 2 && n == m)
       || (m == 126 && e == 4 && |s| >= 4 && n == 256 * s[2] as nat + s[3] as nat)
       || (m == 127 && e == 10 && |s| >= 10
           && n == 0x100_0000_0000_0000 * s[2] as nat + 0x1_0000_0000_0000 * s[3] as nat + 0x100_0000_0000 * s[4] as nat
                   + 0x1_0000_0000 * s[5] as nat + 0x100_0000 * s[6] as nat + 0x1_0000 * s[7] as nat
                   + 0x100 * s[8] as nat + s[9] as nat)
  }

  lemma AnnouncedLength(s: seq<byte>, e: nat, n: nat)
    requires Announces(s, e, n)
    ensures e == 2 + ExtSize(s[1]) && |s| >= e
    ensures ReadLength(s[1], s[2..e]) == n || (n >= TWO63 && ReadLength(s[1], s[2..e]) == n - 2 * TWO63)
  {
    if s[1] % 128 == 126 {
      FromBigEndianTwo(s[2..4]);
    } else if s[1] % 128 == 127 {
      FromBigEndianEight(s[2..10]);
    }
  }

  /** A header cut short, before or inside the announcement, is no frame. */
  lemma NoAnnouncement(s: seq<byte>)
    requires |s| < 2 || (s[1] % 128 == 126 && |s| < 4) || (s[1] % 128 == 127 && |s| < 10)
    ensures ReadFrame(s).Truncated?
  {
  }

  /** The bytes of the masking key. */
  function KeyBytes(s: seq<byte>): nat
    requires |s| >= 2
  {
    if s[1] >= 128 then 4 else 0
  }

  lemma HeaderRaw(s: seq<byte>, e: nat, n: nat)
    requires Announces(s, e, n)
    ensures |s| < e + KeyBytes(s) ==> ReadHeader(s) == NoHead
    ensures |s| >= e + KeyBytes(s) ==>
              var h := ReadHeader(s);
              && h.Head? && h.op == s[0] % 16 && h.key == s[e..e + KeyBytes(s)] && h.size == e + KeyBytes(s)
              && (h.length == n || (n >= TWO63 && h.length < 0))
  {
    AnnouncedLength(s, e, n);
    assert n < 2 * TWO63;
  }

  lemma FromHeader(s: seq<byte>, h: HeaderResult, n: nat)
    requires h == ReadHeader(s) && h.Head? && (h.length == n || (n > 10485760 && h.length < 0))
    ensures n > 10485760 ==> ReadFrame(s).OutOfBounds?
    ensures n <= 10485760 && |s| < h.size + n ==> ReadFrame(s).Truncated?
    ensures n <= 10485760 && |s| >= h.size + n ==>
              ReadFrame(s) == Read(h.op, Unmasked(s[h.size..h.size + n], h.key), s[h.size + n..])
  {
  }

  /** What the reader makes of a stream with a complete announcement: an error
      beyond 10 MiB, nothing yet while bytes are missing, and else the opcode in
      the low four bits of the first byte, `n` bytes of payload, and the rest. */
  lemma ReadsRaw(s: seq<byte>, e: nat, n: nat, at: nat)
    requires Announces(s, e, n) && at == e + if s[1] >= 128 then 4 else 0
    ensures |s| < at ==> ReadFrame(s).Truncated?
    ensures |s| >= at && n > 10485760 ==> ReadFrame(s).OutOfBounds?
    ensures |s| >= at && n <= 10485760 && |s| < at + n ==> ReadFrame(s).Truncated?
    ensures |s| >= at + n && n <= 10485760 ==>
              ReadFrame(s) == Read(s[0] % 16, Unmasked(s[at..at + n], s[e..at]), s[at + n..])
  {
    HeaderRaw(s, e, n);
    if |s| >= at { FromHeader(s, ReadHeader(s), n); }
  }

  /** An unmasked payload is the bytes themselves. */
  lemma UnmaskedRaw(s: seq<byte>, e: nat, n: nat)
    requires Announces(s, e, n) && s[1] < 128 && n <= 10485760 && |s| >= e + n
    ensures ReadFrame(s) == Read(s[0] % 16, s[e..e + n], s[e + n..])
  {
    ReadsRaw(s, e, n, e);
  }

  /** Of a masked one, each bit is the parity of the bit sent and the bit of the
      key byte whose turn it is: byte `i` goes with key byte `i` modulo 4. */
  lemma MaskedRaw(s: seq<byte>, e: nat, n: nat, i: nat, j: nat)
    requires Announces(s, e, n) && s[1] >= 128 && n <= 10485760 && |s| >= e + 4 + n && i < n
    ensures
      var f := ReadFrame(s);
      && f.Read? && f.op == s[0] % 16 && |f.payload| == n && f.rest == s[e + 4 + n..]
      && f.payload[i] as nat / Pow2(j) % 2 == (s[e + 4 + i] as nat / Pow2(j) + s[e + i % 4] as nat / Pow2(j)) % 2
  {
    ReadsRaw(s, e, n, e + 4);
    var body, key := s[e + 4..e + 4 + n], s[e..e + 4];
    assert body[i] == s[e + 4 + i] && key[i % 4] == s[e + i % 4];
    XorBit(body[i], key[i % 4], j);
  }

  lemma LetterH(a: byte, b: byte)
    requires a == 127 && b == 55
    ensures XorByte(a, b) == 72
  {
    XorStep(0, 0, 0);
    XorStep(1, 0, 1);
    XorStep(3, 1, 2);
    XorStep(7, 3, 4);
    XorStep(15, 6, 9);
    XorStep(31, 13, 18);
    XorStep(63, 27, 36);
    XorStep(127, 55, 72);
  }

  lemma LetterE(a: byte, b: byte)
    requires a == 159 && b == 250
    ensures XorByte(a, b) == 101
  {
    XorStep(0, 0, 0);
    XorStep(1, 1, 0);
    XorStep(2, 3, 1);
    XorStep(4, 7, 3);
    XorStep(9, 15, 6);
    XorStep(19, 31, 12);
    XorStep(39, 62, 25);
    XorStep(79, 125, 50);
    XorStep(159, 250, 101);
  }

  lemma LetterL(a: byte, b: byte)
    requires a == 77 && b == 33
    ensures XorByte(a, b) == 108
  {
    XorStep(0, 0, 0);
    XorStep(1, 0, 1);
    XorStep(2, 1, 3);
    XorStep(4, 2, 6);
    XorStep(9, 4, 13);
    XorStep(19, 8, 27);
    XorStep(38, 16, 54);
    XorStep(77, 33, 108);
  }

  lemma LetterSecondL(a: byte, b: byte)
    requires a == 81 && b == 61
    ensures XorByte(a, b) == 108
  {
    XorStep(0, 0, 0);
    XorStep(1, 0, 1);
    XorStep(2, 1, 3);
    XorStep(5, 3, 6);
    XorStep(10, 7, 13);
    XorStep(20, 15, 27);
    XorStep(40, 30, 54);
    XorStep(81, 61, 108);
  }

  lemma LetterO(a: byte, b: byte)
    requires a == 88 && b == 55
    ensures XorByte(a, b) == 111
  {
    XorStep(0, 0, 0);
    XorStep(1, 0, 1);
    XorStep(2, 1, 3);
    XorStep(5, 3, 6);
    XorStep(11, 6, 13);
    XorStep(22, 13, 27);
    XorStep(44, 27, 55);
    XorStep(88, 55, 111);
  }

  lemma MaskIs(data: seq<byte>, key: seq<byte>, out: seq<byte>)
    requires |key| == 4 && |out| == |data| && forall i :: 0 <= i < |data| ==> XorByte(data[i], key[i % 4]) == out[i]
    ensures Mask(data, key) == out
  {
  }

  lemma HelloUnmasked(data: seq<byte>, key: seq<byte>)
    requires data == [0x7f, 0x9f, 0x4d, 0x51, 0x58] && key == [0x37, 0xfa, 0x21, 0x3d]
    ensures Mask(data, key) == [0x48, 0x65, 0x6c, 0x6c, 0x6f]
  {
    LetterH(data[0], key[0]);
    LetterE(data[1], key[1]);
    LetterL(data[2], key[2]);
    LetterSecondL(data[3], key[3]);
    LetterO(data[4], key[0]);
    MaskIs(data, key, [0x48, 0x65, 0x6c, 0x6c, 0x6f]);
  }

  lemma ShortMasked(s: seq<byte>, b0: byte, n: nat, key: seq<byte>, body: seq<byte>, payload: seq<byte>)
    requires n <= 125 && |key| == 4 && |body| == n && s == [b0, 128 + n] + key + body && Mask(body, key) == payload
    ensures ReadFrame(s) == Read(b0 % 16, payload, [])
  {
    ReadsRaw(s, 2, n, 6);
    assert s[6..6 + n] == body && s[2..6] == key && s[6 + n..] == [];
  }

  /** The masked "Hello" of section 5.7. */
  lemma Hello()
    ensures ReadFrame([0x81, 0x85] + [0x37, 0xfa, 0x21, 0x3d] + [0x7f, 0x9f, 0x4d, 0x51, 0x58]) ==
            Read(1, [0x48, 0x65, 0x6c, 0x6c, 0x6f], [])
  {
    var key: seq<byte>, body: seq<byte> := [0x37, 0xfa, 0x21, 0x3d], [0x7f, 0x9f, 0x4d, 0x51, 0x58];
    HelloUnmasked(body, key);
    ShortMasked([0x81, 0x85] + key + body, 0x81, 5, key, body, [0x48, 0x65, 0x6c, 0x6c, 0x6f]);
  }

  /** Opcode 8 ends the call, 9 and 10 go to the handlers, 9 only up to 125 bytes,
      and everything else is delivered. */
  lemma OpcodesRaw(s: seq<byte>, f: FrameResult)
    requires f == ReadFrame(s) && f.Read?
    ensures
      var (r, next) := (ReadMessage(s), ReadMessage(f.rest));
      && (f.op == 8 ==> r == ReadOut(ClosedByPeer, f.rest, [], []))
      && (f.op == 9 && |f.payload| > 125 ==> r == ReadOut(PingRefused(f.payload), f.rest, [f.payload], []))
      && (f.op == 9 && |f.payload| <= 125 ==> r == ReadOut(next.outcome, next.rest, [f.payload] + next.pings, next.pongs))
      && (f.op == 10 ==> r == ReadOut(next.outcome, next.rest, next.pings, [f.payload] + next.pongs))
      && (f.op != 8 && f.op != 9 && f.op != 10 ==> r == ReadOut(Message(Msg(f.op, f.payload)), f.rest, [], []))
  {
  }

  // ------------------------------------------------------------ writing

  /** The key the writer sends. */
  function ZeroKey(masking: bool): seq<byte> { if masking then [0, 0, 0, 0] else [] }

  lemma WriterParts(masking: bool, op: byte, data: seq<byte>)
    requires op < 16 && |data| < TWO63
    ensures Frame(masking, op, data) ==
              [128 + op] + LengthField(ShortestForm(|data|), masking, |data|) + (ZeroKey(masking) + data)
  {
    ZeroMask(data);
    ConcatAssoc([128 + op] + LengthField(ShortestForm(|data|), masking, |data|), ZeroKey(masking), data);
  }

  /** What the writer sends, byte by byte: FIN and opcode, the length in one, two
      or eight bytes, most significant first, a zero key if masking, the data. */
  lemma WritesRaw(masking: bool, op: byte, data: seq<byte>)
    requires op < 16 && |data| < TWO63
    ensures
      var (f, bit, n, tail) := (Frame(masking, op, data), if masking then 128 else 0, |data|, ZeroKey(masking) + data);
      && (n <= 125 ==> f == [128 + op, bit + n] + tail)
      && (125 < n <= 65535 ==> f == [128 + op, bit + 126, n / 256, n % 256] + tail)
      && (65535 < n ==>
            && |f| == 10 + |tail| && f[0] == 128 + op && f[1] == bit + 127 && f[10..] == tail
            && forall i :: 2 <= i < 10 ==> f[i] == n / Pow256(9 - i) % 256)
  {
    var n, bit, tail := |data|, if masking then 128 else 0, ZeroKey(masking) + data;
    WriterParts(masking, op, data);
    if n <= 125 {
      assert [128 + op] + [bit + n] == [128 + op, bit + n];
    } else if n <= 65535 {
      MediumField(n);
      assert [128 + op] + ([bit + 126] + [n / 256, n % 256]) == [128 + op, bit + 126, n / 256, n % 256];
    } else {
      LongHead(128 + op, bit + 127, n, tail);
    }
  }

  lemma MediumField(n: nat)
    requires n <= 65535
    ensures BigEndian(n, 2) == [n / 256, n % 256]
  {
    BigEndianAt(n, 2, 0);
    BigEndianAt(n, 2, 1);
    assert Pow256(1) == 256 && Pow256(0) == 1;
  }

  lemma LongHead(b0: byte, b1: byte, n: nat, tail: seq<byte>)
    ensures
      var f := [b0] + ([b1] + BigEndian(n, 8)) + tail;
      && |f| == 10 + |tail| && f[0] == b0 && f[1] == b1 && f[10..] == tail
      && forall i :: 2 <= i < 10 ==> f[i] == n / Pow256(9 - i) % 256
  {
    var f := [b0] + ([b1] + BigEndian(n, 8)) + tail;
    forall i | 2 <= i < 10
      ensures f[i] == n / Pow256(9 - i) % 256
    {
      BigEndianAt(n, 8, i - 2);
    }
  }
}
