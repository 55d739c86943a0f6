/** The two SOCKS5 handshakes: the client's, with or without credentials, and
    the server's for reverse tunnels (sections 3 to 6 of RFC 1928, section 2 of
    RFC 1929). */
module Socks5 {
  import opened Wrappers
  import opened Bytes
  import Sequences
  import opened Targets
  import opened Frames
  import opened FrameStreams

  /** An address as sent; IP addresses are turned into text by the library. */
  datatype Host = V4(ip: seq<byte>) | Domain(name: seq<byte>) | V6(ip: seq<byte>)
  datatype Request = Request(host: Host, port: nat)
  datatype Credentials = Credentials(user: seq<byte>, pass: seq<byte>)

  /** What a handshake gives its caller, the bytes it wrote, and the input left unread. */
  datatype Answer = Answer(result: Result<Request>, replies: seq<byte>, rest: seq<byte>)

  const SUCCESS: seq<byte> := [5, 0, 0, 1, 0, 0, 0, 0, 0, 0]

  /** The longest field a one-byte length announces. */
  const FIELD: nat := 255

  function After(said: seq<byte>, a: Answer): Answer { a.(replies := said + a.replies) }

  // ------------------------------------------------------------ the grammar

  predicate Sendable(r: Request) {
    && r.port < 65536
    && match r.host
       case V4(ip) => |ip| == 4
       case Domain(name) => |name| <= 255
       case V6(ip) => |ip| == 16
  }

  function AddressBytes(h: Host): seq<byte>
    requires h.Domain? ==> |h.name| <= 255
  {
    match h
    case V4(ip) => [1] + ip
    case Domain(name) => [3, |name|] + name
    case V6(ip) => [4] + ip
  }

  /** A CONNECT request; the reserved byte is not looked at. */
  function Connect(rsv: byte, r: Request): seq<byte>
    requires Sendable(r)
  {
    [5, 1, rsv] + (AddressBytes(r.host) + BigEndian(r.port, 2))
  }

  predicate Sends(s: seq<byte>, rsv: byte, r: Request, rest: seq<byte>) {
    Sendable(r) && s == Connect(rsv, r) + rest
  }

  /** No continuation of `s` is a CONNECT request. */
  ghost predicate Hopeless(s: seq<byte>) {
    forall more, rsv, r, rest :: !Sends(s + more, rsv, r, rest)
  }

  /** What a parser has to make of a stream, with `w` writes still accepted: it
      takes a request and confirms it, gives up after the four header bytes if
      the stream can never become one, and otherwise reads to the end. */
  ghost predicate RequestIs(s: seq<byte>, w: nat, a: Answer) {
    || (exists rsv, r, rest :: Sends(s, rsv, r, rest) &&
          a == if w == 0 then Answer(Err, [], rest) else Answer(Ok(r), SUCCESS, rest))
    || ((forall rsv, r, rest :: !Sends(s, rsv, r, rest)) &&
          a == Answer(Err, [], if |s| >= 4 && Hopeless(s) then s[4..] else []))
  }

  /** A complete version 5 greeting. */
  predicate Greets(s: seq<byte>) { |s| >= 2 && s[0] == 5 && |s| - 2 >= s[1] }

  function Methods(s: seq<byte>): seq<byte>
    requires Greets(s)
  {
    s[2..][..s[1]]
  }

  function Greeted(s: seq<byte>): seq<byte>
    requires Greets(s)
  {
    s[2..][s[1]..]
  }

  lemma GreetingExact(s: seq<byte>, methods: seq<byte>, rest: seq<byte>)
    ensures |methods| <= FIELD && s == [5, |methods|] + methods + rest <==>
              Greets(s) && Methods(s) == methods && Greeted(s) == rest
  {
    if |methods| <= FIELD && s == [5, |methods|] + methods + rest {
      assert s[2..] == methods + rest;
    }
    if Greets(s) {
      assert s == [5, s[1]] + Methods(s) + Greeted(s);
    }
  }

  /** What either side makes of an input that is not a complete greeting. */
  function NoGreeting(s: seq<byte>): Answer
    requires !Greets(s)
  {
    Answer(Err, [], if |s| < 2 || s[0] == 5 then [] else s[2..])
  }

  /** What the server has to make of a stream: it never looks at the methods offered. */
  ghost predicate ServerIs(s: seq<byte>, w: nat, a: Answer) {
    if !Greets(s) then a == NoGreeting(s)
    else if w == 0 then a == Answer(Err, [], Greeted(s))
    else exists b :: RequestIs(Greeted(s), w - 1, b) && a == After([5, 0], b)
  }

  /** What the client has to make of what follows a greeting. */
  ghost predicate ClientGoesOn(c: Option<Credentials>, methods: seq<byte>, s: seq<byte>, w: nat, a: Answer) {
    if w == 0 then a == Answer(Err, [], s)
    else if (if c.Some? then 2 else 0) !in methods then a == Answer(Err, [5, 255], s)
    else if c.Some? then a == After([5, 2], LoginOf(c.value, s, w - 1))
    else exists b :: RequestIs(s, w - 1, b) && a == After([5, 0], b)
  }

  ghost predicate ClientIs(c: Option<Credentials>, s: seq<byte>, w: nat, a: Answer) {
    if Greets(s) then ClientGoesOn(c, Methods(s), Greeted(s), w, a) else a == NoGreeting(s)
  }

  // ------------------------------------------------------- reading a request

  datatype Parsed = Accepted(r: Request, rest: seq<byte>) | Refused(rest: seq<byte>) | Incomplete

  function PortOf(h: Host, s: seq<byte>): Parsed {
    if |s| < 2 then Incomplete else Accepted(Request(h, FromBigEndian(s[..2])), s[2..])
  }

  function AddressOf(kind: byte, s: seq<byte>): Parsed {
    if kind == 1 then
      if |s| < 4 then Incomplete else PortOf(V4(s[..4]), s[4..])
    else if kind == 3 then
      if |s| < 1 || |s| - 1 < s[0] then Incomplete else PortOf(Domain(s[1..][..s[0]]), s[1..][s[0]..])
    else if kind == 4 then
      if |s| < 16 then Incomplete else PortOf(V6(s[..16]), s[16..])
    else Refused(s)
  }

  function ParseRequest(s: seq<byte>): Parsed {
    if |s| < 4 then Incomplete
    else if s[0] != 5 || s[1] != 1 then Refused(s[4..])
    else AddressOf(s[3], s[4..])
  }

  /** The one answer the grammar allows. */
  function RequestOf(s: seq<byte>, w: nat): Answer {
    match ParseRequest(s)
    case Incomplete => Answer(Err, [], [])
    case Refused(rest) => Answer(Err, [], rest)
    case Accepted(r, rest) => if w == 0 then Answer(Err, [], rest) else Answer(Ok(r), SUCCESS, rest)
  }

  function PasswordOf(c: Credentials, user: seq<byte>, s: seq<byte>, w: nat): Answer {
    if |s| < 1 || |s| - 1 < s[0] then Answer(Err, [], [])
    else
      var pass, rest := s[1..][..s[0]], s[1..][s[0]..];
      if w == 0 then Answer(Err, [], rest)
      else if Same(user, c.user) && Same(pass, c.pass) then After([1, 0], RequestOf(rest, w - 1))
      else Answer(Err, [1, 1], rest)
  }

  function LoginOf(c: Credentials, s: seq<byte>, w: nat): Answer {
    if |s| < 2 then Answer(Err, [], [])
    else if s[0] != 1 then Answer(Err, [], s[2..])
    else if |s| - 2 < s[1] then Answer(Err, [], [])
    else PasswordOf(c, s[2..][..s[1]], s[2..][s[1]..], w)
  }

  lemma PortInverse(h: Host, port: nat, rest: seq<byte>)
    requires port < 65536
    ensures PortOf(h, BigEndian(port, 2) + rest) == Accepted(Request(h, port), rest)
  {
    assert Pow256(2) == 65536;
    BigEndianInverse(port, 2);
    var s := BigEndian(port, 2) + rest;
    assert s[..2] == BigEndian(port, 2) && s[2..] == rest;
  }

  /** A length-prefixed field and what follows it. */
  lemma Prefixed(s: seq<byte>, field: seq<byte>, rest: seq<byte>)
    requires |field| <= FIELD && s == [|field|] + field + rest
    ensures s[0] == |field| && s[1..][..s[0]] == field && s[1..][s[0]..] == rest && |s| - 1 >= s[0]
  {
    assert s[1..] == field + rest;
  }

  lemma AddressInverse(h: Host, port: nat, rest: seq<byte>)
    requires Sendable(Request(h, port))
    ensures
      var b := AddressBytes(h);
      AddressOf(b[0], b[1..] + (BigEndian(port, 2) + rest)) == Accepted(Request(h, port), rest)
  {
    var tail := BigEndian(port, 2) + rest;
    PortInverse(h, port, rest);
    if h.Domain? {
      assert AddressBytes(h)[1..] == [|h.name|] + h.name;
      Prefixed([|h.name|] + h.name + tail, h.name, tail);
    } else {
      assert AddressBytes(h)[1..] == h.ip;
      var s := h.ip + tail;
      assert s[..|h.ip|] == h.ip && s[|h.ip|..] == tail;
    }
  }

  /** Every well-formed CONNECT is read back, and nothing after it is touched. */
  lemma RequestInverse(rsv: byte, r: Request, rest: seq<byte>)
    requires Sendable(r)
    ensures ParseRequest(Connect(rsv, r) + rest) == Accepted(r, rest)
  {
    var s := Connect(rsv, r) + rest;
    var b := AddressBytes(r.host);
    assert s[4..] == b[1..] + (BigEndian(r.port, 2) + rest);
    AddressInverse(r.host, r.port, rest);
  }

  lemma PortOnly(h: Host, s: seq<byte>)
    requires PortOf(h, s).Accepted?
    ensures
      var a := PortOf(h, s);
      a.r.host == h && a.r.port < 65536 && s == BigEndian(a.r.port, 2) + a.rest
  {
    PortBytes(s[..2]);
  }

  lemma Regroup(head: seq<byte>, a: seq<byte>, b: seq<byte>, c: seq<byte>)
    ensures head + (a + (b + c)) == head + a + b + c
  {
  }

  lemma DomainOnly(s: seq<byte>)
    requires |s| >= 1 && |s| - 1 >= s[0] && AddressOf(3, s).Accepted?
    ensures
      var a := AddressOf(3, s);
      Sendable(a.r) && [3] + s == AddressBytes(a.r.host) + BigEndian(a.r.port, 2) + a.rest
  {
    var name, tail := s[1..][..s[0]], s[1..][s[0]..];
    PortOnly(Domain(name), tail);
    assert [3] + s == [3, s[0]] + (name + tail);
    Regroup([3, s[0]], name, BigEndian(PortOf(Domain(name), tail).r.port, 2), PortOf(Domain(name), tail).rest);
  }

  lemma IpOnly(kind: byte, s: seq<byte>, h: Host)
    requires (kind == 1 && |s| >= 4 && h == V4(s[..4])) || (kind == 4 && |s| >= 16 && h == V6(s[..16]))
    requires |s| >= |h.ip| && PortOf(h, s[|h.ip|..]).Accepted?
    ensures
      var a := PortOf(h, s[|h.ip|..]);
      Sendable(a.r) && [kind] + s == AddressBytes(a.r.host) + BigEndian(a.r.port, 2) + a.rest
  {
    var tail := s[|h.ip|..];
    PortOnly(h, tail);
    assert s == h.ip + tail;
    Regroup([kind], h.ip, BigEndian(PortOf(h, tail).r.port, 2), PortOf(h, tail).rest);
  }

  lemma AddressOnly(kind: byte, s: seq<byte>)
    requires AddressOf(kind, s).Accepted?
    ensures
      var a := AddressOf(kind, s);
      Sendable(a.r) && [kind] + s == AddressBytes(a.r.host) + BigEndian(a.r.port, 2) + a.rest
  {
    if kind == 3 {
      DomainOnly(s);
    } else {
      IpOnly(kind, s, if kind == 1 then V4(s[..4]) else V6(s[..16]));
    }
  }

  /** Only a well-formed CONNECT is accepted. */
  lemma RequestOnly(s: seq<byte>)
    requires ParseRequest(s).Accepted?
    ensures Sends(s, s[2], ParseRequest(s).r, ParseRequest(s).rest)
  {
    AddressOnly(s[3], s[4..]);
    HeaderPieces(s);
    SendsBy(s, s[2], ParseRequest(s).r, ParseRequest(s).rest, [s[3]] + s[4..]);
  }

  lemma HeaderPieces(s: seq<byte>)
    requires |s| >= 4
    ensures s == [s[0], s[1], s[2]] + ([s[3]] + s[4..])
  {
  }

  lemma SendsBy(s: seq<byte>, rsv: byte, r: Request, rest: seq<byte>, tail: seq<byte>)
    requires Sendable(r) && tail == AddressBytes(r.host) + BigEndian(r.port, 2) + rest && s == [5, 1, rsv] + tail
    ensures Sends(s, rsv, r, rest)
  {
    Sequences.ConcatAssoc([5, 1, rsv], AddressBytes(r.host) + BigEndian(r.port, 2), rest);
  }

  lemma SendsExactly(s: seq<byte>, rsv: byte, r: Request, rest: seq<byte>)
    ensures Sends(s, rsv, r, rest) <==> ParseRequest(s) == Accepted(r, rest) && rsv == s[2]
  {
    if Sends(s, rsv, r, rest) {
      RequestInverse(rsv, r, rest);
      assert s[2] == Connect(rsv, r)[2];
    } else if ParseRequest(s).Accepted? {
      RequestOnly(s);
    }
  }

  /** A header that is refused is refused whatever follows. */
  lemma RefusedIsHopeless(s: seq<byte>)
    requires ParseRequest(s).Refused?
    ensures |s| >= 4 && ParseRequest(s).rest == s[4..] && Hopeless(s)
  {
    forall more, rsv, r, rest
      ensures !Sends(s + more, rsv, r, rest)
    {
      var t := s + more;
      assert t[0] == s[0] && t[1] == s[1] && t[3] == s[3];
      SendsExactly(t, rsv, r, rest);
    }
  }

  /** One that is not can still become a request: zeros will do. */
  lemma IncompleteHasHope(s: seq<byte>)
    requires ParseRequest(s).Incomplete? && |s| >= 4
    ensures !Hopeless(s)
  {
    var zeros := seq<byte>(300, _ => 0);
    var t := s + zeros;
    assert t[0] == s[0] && t[1] == s[1] && t[3] == s[3];
    LongEnough(t[3], t[4..]);
    RequestOnly(t);
  }

  lemma LongEnough(kind: byte, s: seq<byte>)
    requires |s| >= 300 && (kind == 1 || kind == 3 || kind == 4)
    ensures AddressOf(kind, s).Accepted?
  {
    if kind == 3 { assert |s[1..][s[0]..]| == |s| - 1 - s[0]; }
  }

  /** The grammar allows exactly one answer. */
  lemma RequestIsExactly(s: seq<byte>, w: nat, a: Answer)
    ensures RequestIs(s, w, a) <==> a == RequestOf(s, w)
  {
    match ParseRequest(s)
    case Accepted(r, rest) => OnlyRequest(s, w, a);
    case Refused(_) =>
      RefusedIsHopeless(s);
      NoRequest(s);
    case Incomplete =>
      if |s| >= 4 { IncompleteHasHope(s); }
      NoRequest(s);
  }

  lemma NoRequest(s: seq<byte>)
    requires !ParseRequest(s).Accepted?
    ensures forall rsv, r, rest :: !Sends(s, rsv, r, rest)
  {
    forall rsv, r, rest
      ensures !Sends(s, rsv, r, rest)
    {
      SendsExactly(s, rsv, r, rest);
    }
  }

  lemma OnlyRequest(s: seq<byte>, w: nat, a: Answer)
    requires ParseRequest(s).Accepted?
    ensures RequestIs(s, w, a) <==> a == RequestOf(s, w)
  {
    RequestOnly(s);
    forall rsv, r, rest | Sends(s, rsv, r, rest)
      ensures r == ParseRequest(s).r && rest == ParseRequest(s).rest
    {
      SendsExactly(s, rsv, r, rest);
    }
  }

  /** Two parsers that keep to the grammar agree on result, replies and bytes
      consumed exactly when the server's indifference to the methods does not
      show: the client can write nothing, or the greeting is incomplete, or it
      offers method 0. */
  lemma ParsersAgreeExactly(s: seq<byte>, w: nat, server: Answer, client: Answer)
    requires ServerIs(s, w, server) && ClientIs(None, s, w, client)
    ensures server == client <==> !(w > 0 && Greets(s) && 0 !in Methods(s))
  {
    if w > 0 && Greets(s) {
      var b :| RequestIs(Greeted(s), w - 1, b) && server == After([5, 0], b);
      RequestIsExactly(Greeted(s), w - 1, b);
      assert server.replies[1] == 0;
      if 0 in Methods(s) {
        var b' :| RequestIs(Greeted(s), w - 1, b') && client == After([5, 0], b');
        RequestIsExactly(Greeted(s), w - 1, b');
      }
    }
  }

  // ---------------------------------------------------- comparing credentials

  const TWO32: nat := 0x1_0000_0000

  /** Byte `i`, or zero past the end. */
  function Padded(s: seq<byte>, i: nat): byte { if i < |s| then s[i] else 0 }

  function Longer(a: seq<byte>, b: seq<byte>): nat { if |b| > |a| then |b| else |a| }

  /** What the constant-time comparison decides: the lengths agree in their low
      32 bits and the zero-padded contents are equal. */
  predicate Same(a: seq<byte>, b: seq<byte>) {
    |a| % TWO32 == |b| % TWO32 && forall i :: 0 <= i < Longer(a, b) ==> Padded(a, i) == Padded(b, i)
  }

  lemma {:induction false} XorLowBits(a: nat, b: nat, k: nat)
    ensures Xor(a, b) % Pow2(k) == 0 <==> a % Pow2(k) == b % Pow2(k)
    decreases k
  {
    if k > 0 {
      XorParts(a, b);
      XorLowBits(a / 2, b / 2, k - 1);
      LowBitsStep(Xor(a, b), a, b, Pow2(k - 1));
    }
  }

  lemma LowBitsStep(x: nat, a: nat, b: nat, m: nat)
    requires m > 0 && x % 2 == (a % 2 + b % 2) % 2
    requires x / 2 % m == 0 <==> a / 2 % m == b / 2 % m
    ensures x % (2 * m) == 0 <==> a % (2 * m) == b % (2 * m)
  {
    SplitBit(x, m);
    SplitBit(a, m);
    SplitBit(b, m);
    BitAndRest(x % 2, x / 2 % m, a % 2, a / 2 % m, b % 2, b / 2 % m);
  }

  lemma BitAndRest(x: nat, xh: nat, a: nat, ah: nat, b: nat, bh: nat)
    requires x < 2 && a < 2 && b < 2 && x == (a + b) % 2 && (xh == 0 <==> ah == bh)
    ensures x + 2 * xh == 0 <==> a + 2 * ah == b + 2 * bh
  {
  }

  lemma SplitBit(a: nat, m: nat)
    requires m > 0
    ensures a % (2 * m) == a % 2 + 2 * (a / 2 % m)
  {
    var q, r := a / 2 / m, a / 2 % m;
    assert a / 2 == q * m + r;
    assert a == q * (2 * m) + (2 * r + a % 2);
    Divide(a, 2 * m, q, 2 * r + a % 2);
  }

  /** The difference accumulator, a 32-bit word, over every position of the longer side. */
  method ConstantTimeEqual(actual: seq<byte>, expected: seq<byte>) returns (eq: bool)
    ensures eq <==> Same(actual, expected)
  {
    var maxLen := Longer(actual, expected);
    var diff: nat := Xor(|actual|, |expected|) % TWO32;
    LowBits32(|actual|, |expected|);
    var i := 0;
    while i < maxLen
      invariant 0 <= i <= maxLen
      invariant diff == 0 <==>
                |actual| % TWO32 == |expected| % TWO32 && forall j :: 0 <= j < i ==> Padded(actual, j) == Padded(expected, j)
    {
      var a: byte, b: byte := 0, 0;
      if i < |actual| { a := actual[i]; }
      if i < |expected| { b := expected[i]; }
      assert a == Padded(actual, i) && b == Padded(expected, i);
      OrZeroIff(diff, XorByte(a, b));
      XorZeroIff(a, b);
      diff := Or(diff, XorByte(a, b));
      i := i + 1;
    }
    return diff == 0;
  }

  lemma LowBits32(a: nat, b: nat)
    ensures Xor(a, b) % TWO32 == 0 <==> a % TWO32 == b % TWO32
  {
    assert Pow2(8) == 256;
    assert Pow2(16) == 65536;
    assert Pow2(24) == 16777216;
    assert Pow2(32) == TWO32;
    XorLowBits(a, b, 32);
  }

  /** At any length it is equality of sequences as long as each other. */
  lemma SameExact(a: seq<byte>, b: seq<byte>)
    ensures Same(a, b) && |a| == |b| <==> a == b
  {
    if Same(a, b) && |a| == |b| {
      forall i | 0 <= i < |a|
        ensures a[i] == b[i]
      {
        assert Padded(a, i) == Padded(b, i);
      }
    }
  }

  /** `b` is a field of at most `n` bytes followed by whole 2^32s of zeros. */
  predicate Overlong(b: seq<byte>, n: nat) {
    |b| >= TWO32 && |b| % TWO32 <= n && forall i :: |b| % TWO32 <= i < |b| ==> b[i] == 0
  }

  /** The field that passes for `b`. */
  function Shown(b: seq<byte>): seq<byte> { b[..|b| % TWO32] }

  lemma ShownPasses(b: seq<byte>)
    requires forall i :: |b| % TWO32 <= i < |b| ==> b[i] == 0
    ensures Same(Shown(b), b)
  {
  }

  lemma OnlyShownPasses(a: seq<byte>, b: seq<byte>)
    requires |a| < TWO32 && Same(a, b)
    ensures a == Shown(b) && forall i :: |b| % TWO32 <= i < |b| ==> b[i] == 0
  {
    forall i | 0 <= i < |a|
      ensures a[i] == b[i]
    {
      assert Padded(a, i) == Padded(b, i);
    }
    forall i | |b| % TWO32 <= i < |b|
      ensures b[i] == 0
    {
      assert Padded(a, i) == Padded(b, i);
    }
  }

  /** Against the configured bytes `b`, the comparison is equality for every
      field of at most `n` bytes if and only if `b` is not overlong. */
  lemma ComparisonExact(b: seq<byte>, n: nat)
    requires n < TWO32
    ensures (forall a :: |a| <= n ==> (Same(a, b) <==> a == b)) <==> !Overlong(b, n)
  {
    if Overlong(b, n) {
      ShownPasses(b);
      assert |Shown(b)| <= n && Same(Shown(b), b) && Shown(b) != b;
    } else {
      forall a: seq<byte> | |a| <= n
        ensures Same(a, b) <==> a == b
      {
        if Same(a, b) { OnlyShownPasses(a, b); }
      }
    }
  }

  /** Not always: 2^32 zero bytes pass for none. */
  lemma SameFailsWhenLong()
    ensures
      var zeros := seq<byte>(TWO32, _ => 0);
      Same([], zeros) && zeros != []
  {
    var zeros := seq<byte>(TWO32, _ => 0);
    assert |zeros| % TWO32 == 0;
  }

  // ------------------------------------------------------------------ login

  predicate Short(c: Credentials) { |c.user| <= FIELD && |c.pass| <= FIELD }

  function LoginFields(user: seq<byte>, pass: seq<byte>): seq<byte>
    requires |user| <= FIELD && |pass| <= FIELD
  {
    [1, |user|] + user + ([|pass|] + pass)
  }

  function LoginBytes(c: Credentials): seq<byte>
    requires Short(c)
  {
    LoginFields(c.user, c.pass)
  }

  /** Some field passes for `b`. */
  predicate Typable(b: seq<byte>) { |b| <= FIELD || Overlong(b, FIELD) }

  /** Nothing but the configured credentials can be sent: not both have a field
      that passes for them, or neither is overlong. */
  predicate Tells(c: Credentials) {
    Typable(c.user) && Typable(c.pass) ==> !Overlong(c.user, FIELD) && !Overlong(c.pass, FIELD)
  }

  lemma PrefixedOnly(s: seq<byte>)
    requires |s| >= 1 && |s| - 1 >= s[0]
    ensures s == [s[0]] + s[1..][..s[0]] + s[1..][s[0]..]
  {
  }

  lemma LoginPieces(user: seq<byte>, pass: seq<byte>, rest: seq<byte>)
    requires |user| <= FIELD && |pass| <= FIELD
    ensures LoginFields(user, pass) + rest == [1] + ([|user|] + user + ([|pass|] + pass + rest))
  {
  }

  /** Fields that pass for the configured ones are accepted, if the reply can be written. */
  lemma LoginAccepted(c: Credentials, user: seq<byte>, pass: seq<byte>, rest: seq<byte>, w: nat)
    requires |user| <= FIELD && |pass| <= FIELD && Same(user, c.user) && Same(pass, c.pass) && w > 0
    ensures LoginOf(c, LoginFields(user, pass) + rest, w) == After([1, 0], RequestOf(rest, w - 1))
  {
    var s := LoginFields(user, pass) + rest;
    var tail := [|pass|] + pass + rest;
    LoginPieces(user, pass, rest);
    assert s[1..] == [|user|] + user + tail && s[2..] == s[1..][1..] && s[1] == s[1..][0];
    Prefixed(s[1..], user, tail);
    Prefixed(tail, pass, rest);
  }

  /** And only such. */
  lemma LoginOnly(c: Credentials, s: seq<byte>, w: nat) returns (user: seq<byte>, pass: seq<byte>, rest: seq<byte>)
    requires LoginOf(c, s, w).result.Ok?
    ensures |user| <= FIELD && |pass| <= FIELD && Same(user, c.user) && Same(pass, c.pass)
    ensures s == LoginFields(user, pass) + rest
  {
    assert s[2..] == s[1..][1..] && s[1] == s[1..][0];
    PrefixedOnly(s[1..]);
    var tail := s[2..][s[1]..];
    PrefixedOnly(tail);
    user, pass, rest := s[2..][..s[1]], tail[1..][..tail[0]], tail[1..][tail[0]..];
    assert s == [1] + s[1..];
    LoginPieces(user, pass, rest);
  }

  lemma PassesOnlyItself(c: Credentials, user: seq<byte>, pass: seq<byte>)
    requires Tells(c) && |user| <= FIELD && |pass| <= FIELD && Same(user, c.user) && Same(pass, c.pass)
    ensures user == c.user && pass == c.pass
  {
    OnlyShownPasses(user, c.user);
    OnlyShownPasses(pass, c.pass);
  }

  /** With credentials that tell, a login succeeds only with exactly the configured
      bytes, and with those bytes it goes on to the request after them. */
  lemma LoginExact(c: Credentials, s: seq<byte>, w: nat)
    requires Tells(c)
    ensures LoginOf(c, s, w).result.Ok? ==> Short(c) && LoginBytes(c) <= s && w > 0
    ensures Short(c) && LoginBytes(c) <= s && w > 0 ==>
              LoginOf(c, s, w) == After([1, 0], RequestOf(s[|LoginBytes(c)|..], w - 1))
  {
    if LoginOf(c, s, w).result.Ok? {
      var user, pass, rest := LoginOnly(c, s, w);
      PassesOnlyItself(c, user, pass);
    }
    if Short(c) && LoginBytes(c) <= s && w > 0 {
      var rest := s[|LoginBytes(c)|..];
      assert s == LoginBytes(c) + rest;
      SameExact(c.user, c.user);
      SameExact(c.pass, c.pass);
      LoginAccepted(c, c.user, c.pass, rest, w);
    }
  }

  /** And the condition is exact: other credentials can be passed for. */
  lemma TellsExactly(c: Credentials)
    ensures Tells(c) <==> forall s, w :: LoginOf(c, s, w).result.Ok? ==> Short(c) && LoginBytes(c) <= s
  {
    if Tells(c) {
      forall s, w: nat | LoginOf(c, s, w).result.Ok?
        ensures Short(c) && LoginBytes(c) <= s
      {
        LoginExact(c, s, w);
      }
    } else {
      var r := Request(Domain([]), 0);
      var user := if |c.user| <= FIELD then c.user else Shown(c.user);
      var pass := if |c.pass| <= FIELD then c.pass else Shown(c.pass);
      if |c.user| > FIELD { ShownPasses(c.user); } else { SameExact(user, c.user); }
      if |c.pass| > FIELD { ShownPasses(c.pass); } else { SameExact(pass, c.pass); }
      LoginAccepted(c, user, pass, Connect(0, r) + [], 2);
      RequestInverse(0, r, []);
      assert LoginOf(c, LoginFields(user, pass) + (Connect(0, r) + []), 2).result.Ok?;
    }
  }

  /** The client with credentials that tell accepts exactly: a greeting that
      offers method 2, the configured user name and password, and a well-formed
      CONNECT, on a connection that takes its three replies. */
  lemma ClientAcceptsExactly(c: Credentials, s: seq<byte>, w: nat, a: Answer, r: Request)
    requires Tells(c) && ClientIs(Some(c), s, w, a)
    ensures a.result == Ok(r) <==>
              && Greets(s) && 2 in Methods(s)
              && Short(c) && LoginBytes(c) <= Greeted(s) && w >= 3
              && exists rsv, rest :: Sends(Greeted(s)[|LoginBytes(c)|..], rsv, r, rest)
  {
    if Greets(s) && 2 in Methods(s) && w > 0 {
      LoginExact(c, Greeted(s), w - 1);
      if Short(c) && LoginBytes(c) <= Greeted(s) {
        AcceptedExactly(Greeted(s)[|LoginBytes(c)|..], r);
      }
    }
  }

  lemma AcceptedExactly(s: seq<byte>, r: Request)
    ensures (exists rsv, rest :: Sends(s, rsv, r, rest)) <==> ParseRequest(s).Accepted? && ParseRequest(s).r == r
  {
    if ParseRequest(s).Accepted? {
      RequestOnly(s);
    }
    forall rsv, rest | Sends(s, rsv, r, rest)
      ensures ParseRequest(s) == Accepted(r, rest)
    {
      SendsExactly(s, rsv, r, rest);
    }
  }

  /** A domain CONNECT to a reverse dynamic tunnel, from the SOCKS5 client's bytes
      to the far end: the target frame is never refused and gives back the same
      host and port on a message transport and on a byte stream. */
  lemma DynamicTarget(s: seq<byte>, w: nat, a: Answer, host: seq<byte>, port: nat, masking: bool, more: seq<byte>)
    requires ServerIs(s, w, a) && a.result == Ok(Request(Domain(host), port))
    ensures
      var t := Target(host, port);
      && Encodable(t)
      && ReadFromStream(TargetFrame(t) + more) == (Ok(t), more)
      && ReadMessage(Frame(masking, BINARY, TargetFrame(t)) + more).outcome == Message(Msg(BINARY, TargetFrame(t)))
      && ReadMessage(Frame(masking, BINARY, TargetFrame(t)) + more).rest == more
      && Decode(TargetFrame(t)) == Ok(t)
  {
    var b :| RequestIs(Greeted(s), w - 1, b) && a == After([5, 0], b);
    RequestIsExactly(Greeted(s), w - 1, b);
    RequestOnly(Greeted(s));
    StreamRoundTrip(Target(host, port), more);
    MessageRoundTrip(masking, Target(host, port), more);
  }

  // ------------------------------------------------------------ byte by byte

  /** The addresses and the port as they stand in a request. */
  lemma RequestRaw(rsv: byte, h: Host, hi: byte, lo: byte, rest: seq<byte>)
    requires Sendable(Request(h, 0))
    ensures
      var port := 256 * hi as nat + lo as nat;
      && (h.V4? ==> ParseRequest([5, 1, rsv, 1] + h.ip + [hi, lo] + rest) == Accepted(Request(h, port), rest))
      && (h.Domain? ==>
            ParseRequest([5, 1, rsv, 3, |h.name|] + h.name + [hi, lo] + rest) == Accepted(Request(h, port), rest))
      && (h.V6? ==> ParseRequest([5, 1, rsv, 4] + h.ip + [hi, lo] + rest) == Accepted(Request(h, port), rest))
  {
    PortRaw(hi, lo);
    var r := Request(h, FromBigEndian([hi, lo]));
    RequestInverse(rsv, r, rest);
    ConnectRaw(rsv, r, hi, lo, rest);
  }

  lemma PortRaw(hi: byte, lo: byte)
    ensures FromBigEndian([hi, lo]) == 256 * hi as nat + lo as nat < 65536
    ensures BigEndian(FromBigEndian([hi, lo]), 2) == [hi, lo]
  {
    FromBigEndianTwo([hi, lo]);
    PortBytes([hi, lo]);
  }

  lemma ConnectRaw(rsv: byte, r: Request, hi: byte, lo: byte, rest: seq<byte>)
    requires Sendable(r) && BigEndian(r.port, 2) == [hi, lo]
    ensures r.host.V4? ==> Connect(rsv, r) + rest == [5, 1, rsv, 1] + r.host.ip + [hi, lo] + rest
    ensures r.host.V6? ==> Connect(rsv, r) + rest == [5, 1, rsv, 4] + r.host.ip + [hi, lo] + rest
    ensures r.host.Domain? ==> Connect(rsv, r) + rest == [5, 1, rsv, 3, |r.host.name|] + r.host.name + [hi, lo] + rest
  {
  }

  lemma Replies()
    ensures [5, 0] + SUCCESS == [5, 0, 5, 0, 0, 1, 0, 0, 0, 0, 0, 0]
    ensures [5, 2] + ([1, 0] + SUCCESS) == [5, 2, 1, 0, 5, 0, 0, 1, 0, 0, 0, 0, 0, 0]
  {
  }

  lemma ServerAccepts(s: seq<byte>, asked: seq<byte>, r: Request, rest: seq<byte>, w: nat, a: Answer)
    requires Greets(s) && Greeted(s) == asked && ParseRequest(asked) == Accepted(r, rest) && w >= 2 && ServerIs(s, w, a)
    ensures a == Answer(Ok(r), [5, 0] + SUCCESS, rest)
  {
    var b :| RequestIs(asked, w - 1, b) && a == After([5, 0], b);
    RequestIsExactly(asked, w - 1, b);
  }

  /** The server's whole conversation about a domain name, byte by byte. */
  lemma ServerRaw(s: seq<byte>, methods: seq<byte>, asked: seq<byte>, rsv: byte, name: seq<byte>, hi: byte, lo: byte,
                  rest: seq<byte>, w: nat, a: Answer)
    requires |methods| <= 255 && s == [5, |methods|] + methods + asked
    requires |name| <= 255 && asked == [5, 1, rsv, 3, |name|] + name + [hi, lo] + rest
    requires w >= 2 && ServerIs(s, w, a)
    ensures a == Answer(Ok(Request(Domain(name), 256 * hi as nat + lo as nat)), [5, 0, 5, 0, 0, 1, 0, 0, 0, 0, 0, 0], rest)
  {
    GreetingExact(s, methods, asked);
    RequestRaw(rsv, Domain(name), hi, lo, rest);
    ServerAccepts(s, asked, Request(Domain(name), 256 * hi as nat + lo as nat), rest, w, a);
    Replies();
  }

  lemma ClientAccepts(c: Credentials, s: seq<byte>, asked: seq<byte>, r: Request, rest: seq<byte>, w: nat, a: Answer)
    requires Short(c) && Greets(s) && 2 in Methods(s) && Greeted(s) == LoginBytes(c) + asked
    requires ParseRequest(asked) == Accepted(r, rest) && w >= 3 && ClientIs(Some(c), s, w, a)
    ensures a == Answer(Ok(r), [5, 2] + ([1, 0] + SUCCESS), rest)
  {
    OwnLogin(c, asked, r, rest, w - 1);
  }

  lemma OwnLogin(c: Credentials, asked: seq<byte>, r: Request, rest: seq<byte>, w: nat)
    requires Short(c) && ParseRequest(asked) == Accepted(r, rest) && w >= 2
    ensures LoginOf(c, LoginBytes(c) + asked, w) == Answer(Ok(r), [1, 0] + SUCCESS, rest)
  {
    SameExact(c.user, c.user);
    SameExact(c.pass, c.pass);
    LoginAccepted(c, c.user, c.pass, asked, w);
  }

  /** The client's, with a user name and a password. */
  lemma ClientRaw(c: Credentials, s: seq<byte>, methods: seq<byte>, asked: seq<byte>, rsv: byte, name: seq<byte>, hi: byte,
                  lo: byte, rest: seq<byte>, w: nat, a: Answer)
    requires Short(c) && |methods| <= 255 && 2 in methods
    requires s == [5, |methods|] + methods + ([1, |c.user|] + c.user + ([|c.pass|] + c.pass) + asked)
    requires |name| <= 255 && asked == [5, 1, rsv, 3, |name|] + name + [hi, lo] + rest
    requires w >= 3 && ClientIs(Some(c), s, w, a)
    ensures a == Answer(Ok(Request(Domain(name), 256 * hi as nat + lo as nat)),
                        [5, 2, 1, 0, 5, 0, 0, 1, 0, 0, 0, 0, 0, 0], rest)
  {
    GreetingExact(s, methods, LoginBytes(c) + asked);
    RequestRaw(rsv, Domain(name), hi, lo, rest);
    ClientAccepts(c, s, asked, Request(Domain(name), 256 * hi as nat + lo as nat), rest, w, a);
    Replies();
  }

  /** And what a wrong password gets. */
  lemma RefusedRaw(c: Credentials, methods: seq<byte>, user: seq<byte>, pass: seq<byte>, rest: seq<byte>, w: nat, a: Answer)
    requires Tells(c) && |methods| <= 255 && 2 in methods && |user| <= 255 && |pass| <= 255 && w >= 2
    requires user != c.user || pass != c.pass
    requires ClientIs(Some(c), [5, |methods|] + methods + ([1, |user|] + user + ([|pass|] + pass) + rest), w, a)
    ensures a == Answer(Err, [5, 2, 1, 1], rest)
  {
    var login := LoginFields(user, pass) + rest;
    GreetingExact([5, |methods|] + methods + login, methods, login);
    LoginRefused(c, user, pass, rest, w - 1);
    assert [5, 2] + [1, 1] == [5, 2, 1, 1];
  }

  lemma LoginRefused(c: Credentials, user: seq<byte>, pass: seq<byte>, rest: seq<byte>, w: nat)
    requires Tells(c) && |user| <= FIELD && |pass| <= FIELD && (user != c.user || pass != c.pass) && w > 0
    ensures LoginOf(c, LoginFields(user, pass) + rest, w) == Answer(Err, [1, 1], rest)
  {
    var s := LoginFields(user, pass) + rest;
    var tail := [|pass|] + pass + rest;
    LoginPieces(user, pass, rest);
    assert s[1..] == [|user|] + user + tail && s[2..] == s[1..][1..] && s[1] == s[1..][0];
    Prefixed(s[1..], user, tail);
    Prefixed(tail, pass, rest);
    if Same(user, c.user) && Same(pass, c.pass) { PassesOnlyItself(c, user, pass); }
  }
}
