/** The WebSocket frame format of section 5.2 of RFC 6455 as the connection
    writes and reads it. */
module Frames {
  import opened Bytes
  import opened Sequences

  const MAX_PAYLOAD: nat := 1024 * 1024 * 10
  const MAX_CONTROL: nat := 125
  const TWO63: nat := 0x8000_0000_0000_0000

  const TEXT: byte := 1
  const BINARY: byte := 2
  const CLOSE: byte := 8
  const PING: byte := 9
  const PONG: byte := 10

  // ------------------------------------------------------------ writing

  /** The three ways to give a payload length. */
  datatype Form = Short | Medium | Long

  predicate Fits(form: Form, n: nat) {
    match form
    case Short => n <= 125
    case Medium => n <= 65535
    case Long => n < TWO63
  }

  /** The form the writer picks. */
  function ShortestForm(n: nat): Form {
    if n <= 125 then Short else if n <= 65535 then Medium else Long
  }

  function LengthField(form: Form, masked: bool, n: nat): (s: seq<byte>)
    requires Fits(form, n)
  {
    var bit := if masked then 128 else 0;
    match form
    case Short => [bit + n]
    case Medium => [bit + 126] + BigEndian(n, 2)
    case Long => [bit + 127] + BigEndian(n, 8)
  }

  /** Section 5.3 of RFC 6455. */
  function Mask(data: seq<byte>, key: seq<byte>): (r: seq<byte>)
    requires |key| == 4
    ensures |r| == |data|
  {
    seq(|data|, i requires 0 <= i < |data| => XorByte(data[i], key[i % 4]))
  }

  /** Any frame with first byte `b0`; an empty key means an unmasked one. */
  function Encode(b0: byte, form: Form, key: seq<byte>, data: seq<byte>): (s: seq<byte>)
    requires (key == [] || |key| == 4) && Fits(form, |data|)
  {
    [b0] + LengthField(form, key != [], |data|) + key + (if key == [] then data else Mask(data, key))
  }

  /** byte(0x80) | byte(messageType) */
  function FirstByte(op: byte): byte { if op >= 128 then op else op + 128 }

  const ZERO_KEY: seq<byte> := [0, 0, 0, 0]

  /** What WriteMessage puts on the wire: FIN set, the shortest length form, and a
      zero key when masking. */
  function Frame(masking: bool, op: byte, data: seq<byte>): seq<byte>
    requires |data| < TWO63
  {
    Encode(FirstByte(op), ShortestForm(|data|), if masking then ZERO_KEY else [], data)
  }

  // ------------------------------------------------------------ reading

  datatype FrameResult = Read(op: byte, payload: seq<byte>, rest: seq<byte>) | Truncated | OutOfBounds

  /** The eight-byte length read into an int64. */
  function Signed64(n: nat): int { if n < TWO63 then n else n - 2 * TWO63 }

  datatype HeaderResult = Head(op: byte, length: int, key: seq<byte>, size: nat) | NoHead

  /** The bytes of the extended length after a second byte `b1`, and of the key. */
  function ExtSize(b1: byte): nat { if b1 % 128 == 126 then 2 else if b1 % 128 == 127 then 8 else 0 }
  function KeySize(b1: byte): nat { if b1 >= 128 then 4 else 0 }

  function ReadLength(b1: byte, field: seq<byte>): int {
    if ExtSize(b1) == 0 then b1 % 128
    else if ExtSize(b1) == 2 then FromBigEndian(field)
    else Signed64(FromBigEndian(field))
  }

  /** Both header bytes, the length and the masking key; an empty key if unmasked. */
  function ReadHeader(s: seq<byte>): (h: HeaderResult)
    ensures h.Head? ==> 2 <= h.size <= |s|
  {
    if |s| < 2 || |s| < 2 + ExtSize(s[1]) + KeySize(s[1]) then NoHead
    else
      var e, k := 2 + ExtSize(s[1]), KeySize(s[1]);
      Head(s[0] % 16, ReadLength(s[1], s[2..e]), s[e..e + k], e + k)
  }

  function Unmasked(body: seq<byte>, key: seq<byte>): seq<byte> {
    if |key| == 4 then Mask(body, key) else body
  }

  function ReadFrame(s: seq<byte>): (r: FrameResult)
    ensures r.Read? ==> |r.rest| < |s|
  {
    match ReadHeader(s)
    case NoHead => Truncated
    case Head(op, length, key, size) =>
      if length < 0 || length > MAX_PAYLOAD then OutOfBounds
      else if |s| < size + length then Truncated
      else Read(op, Unmasked(s[size..size + length], key), s[size + length..])
  }

  // ------------------------------------------------------------ inversion

  lemma MaskUndo(data: seq<byte>, key: seq<byte>)
    requires |key| == 4
    ensures Mask(Mask(data, key), key) == data
  {
    forall i | 0 <= i < |data| ensures Mask(Mask(data, key), key)[i] == data[i] { XorUndo(data[i], key[i % 4]); }
  }

  lemma ZeroMask(data: seq<byte>)
    ensures Mask(data, ZERO_KEY) == data
  {
    forall i | 0 <= i < |data| ensures Mask(data, ZERO_KEY)[i] == data[i] {
      assert ZERO_KEY[i % 4] == 0;
      XorZero(data[i]);
    }
  }

  /** The reader takes the length field back out, whatever form it has. */
  lemma LengthInverse(form: Form, masked: bool, n: nat)
    requires Fits(form, n)
    ensures var f := LengthField(form, masked, n);
      && |f| == (match form case Short => 1 case Medium => 3 case Long => 9)
      && (f[0] >= 128 <==> masked)
      && (match form
          case Short => f[0] % 128 == n
          case Medium => f[0] % 128 == 126 && FromBigEndian(f[1..]) == n
          case Long => f[0] % 128 == 127 && Signed64(FromBigEndian(f[1..])) == n)
  {
    if form == Medium {
      assert Pow256(2) == 65536;
      BigEndianInverse(n, 2);
      assert LengthField(form, masked, n)[1..] == BigEndian(n, 2);
    } else if form == Long {
      assert Pow256(8) == 2 * TWO63;
      BigEndianInverse(n, 8);
      assert LengthField(form, masked, n)[1..] == BigEndian(n, 8);
    }
  }

  lemma HeadSlices(b0: byte, f: seq<byte>, key: seq<byte>, tail: seq<byte>)
    requires |f| >= 1
    ensures
      var s := [b0] + f + key + tail;
      s[0] == b0 && s[1] == f[0] && s[2..1 + |f|] == f[1..] && s[1 + |f|..1 + |f| + |key|] == key
  {
  }

  lemma HeaderInverse(b0: byte, form: Form, key: seq<byte>, n: nat, tail: seq<byte>)
    requires (key == [] || |key| == 4) && Fits(form, n)
    ensures var f := LengthField(form, key != [], n);
      ReadHeader([b0] + f + key + tail) == Head(b0 % 16, n, key, 1 + |f| + |key|)
  {
    var f := LengthField(form, key != [], n);
    LengthInverse(form, key != [], n);
    HeadSlices(b0, f, key, tail);
  }

  lemma MiddleSlices(head: seq<byte>, body: seq<byte>, rest: seq<byte>)
    ensures
      var s := head + (body + rest);
      s[|head|..|head| + |body|] == body && s[|head| + |body|..] == rest
  {
  }

  /** One frame, in any length form and under any masking key, is read back
      exactly, and what follows it is left alone. */
  lemma FrameInverse(b0: byte, form: Form, key: seq<byte>, data: seq<byte>, rest: seq<byte>)
    requires (key == [] || |key| == 4) && Fits(form, |data|) && |data| <= MAX_PAYLOAD
    ensures ReadFrame(Encode(b0, form, key, data) + rest) == Read(b0 % 16, data, rest)
  {
    var head := [b0] + LengthField(form, key != [], |data|) + key;
    var body := if key == [] then data else Mask(data, key);
    ConcatAssoc(head, body, rest);
    HeaderInverse(b0, form, key, |data|, body + rest);
    MiddleSlices(head, body, rest);
    if key != [] { MaskUndo(data, key); }
  }

  /** The writer's frame is never longer than another encoding of the same
      payload with the same masking. */
  lemma WriterIsShortest(masking: bool, op: byte, data: seq<byte>, b0: byte, form: Form, key: seq<byte>)
    requires |data| < TWO63 && Fits(form, |data|) && (if masking then |key| == 4 else key == [])
    ensures |Frame(masking, op, data)| <= |Encode(b0, form, key, data)|
    ensures |Frame(masking, op, data)| == |Encode(b0, form, key, data)| ==> form == ShortestForm(|data|)
  {
    LengthInverse(form, masking, |data|);
    LengthInverse(ShortestForm(|data|), masking, |data|);
  }

  lemma HeaderStable(s: seq<byte>, more: seq<byte>)
    requires ReadHeader(s).Head?
    ensures ReadHeader(s + more) == ReadHeader(s)
  {
    var e, k := 2 + ExtSize(s[1]), KeySize(s[1]);
    SliceOfExtension(s, more, 2, e);
    SliceOfExtension(s, more, e, e + k);
  }

  /** Reading more bytes never changes a frame that was already complete. */
  lemma ReadFrameStable(s: seq<byte>, more: seq<byte>)
    ensures ReadFrame(s).Read? ==> ReadFrame(s + more) == ReadFrame(s).(rest := ReadFrame(s).rest + more)
    ensures ReadFrame(s).OutOfBounds? ==> ReadFrame(s + more).OutOfBounds?
  {
    var h := ReadHeader(s);
    if h.Head? {
      HeaderStable(s, more);
      if ReadFrame(s).Read? {
        SliceOfExtension(s, more, h.size, h.size + h.length);
      }
    }
  }
}
