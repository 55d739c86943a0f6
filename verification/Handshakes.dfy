/** The SOCKS5 handshakes as the program runs them: one 256-byte buffer, reused
    for every part of the conversation.  The server's and the client's code are
    two copies with their own reads and switches, and so they are here. */
module Handshakes {
  import opened Wrappers
  import opened Bytes
  import opened Socks5

  /** The connection being read and answered; it takes `writes` more writes. */
  class Peer {
    var input: seq<byte>
    var output: seq<byte>
    var writes: nat

    constructor (input: seq<byte>, writes: nat)
      ensures this.input == input && output == [] && this.writes == writes
    {
      this.input, this.writes, output := input, writes, [];
    }

    /** Fills `buf[..n]`, or fails having used up a shorter input. */
    method ReadFull(buf: array<byte>, n: nat) returns (ok: bool)
      requires n <= buf.Length
      modifies this`input, buf
      ensures ok <==> n <= |old(input)|
      ensures ok ==> buf[..n] == old(input)[..n] && input == old(input)[n..]
      ensures !ok ==> input == []
    {
      var k := if n <= |input| then n else |input|;
      forall i | 0 <= i < k { buf[i] := input[i]; }
      input := input[k..];
      ok := k == n;
    }

    method Write(bytes: seq<byte>) returns (ok: bool)
      modifies this`output, this`writes
      ensures ok <==> old(writes) > 0
      ensures ok ==> output == old(output) + bytes && writes == old(writes) - 1
      ensures !ok ==> output == old(output) && writes == old(writes)
    {
      if writes == 0 {
        return false;
      }
      output, writes := output + bytes, writes - 1;
      return true;
    }
  }

  /** A handshake that began with `said` already written came to what `a` says. */
  predicate Gives(a: Answer, r: Result<Request>, said: seq<byte>, output: seq<byte>, input: seq<byte>) {
    r == a.result && output == said + a.replies && input == a.rest
  }

  lemma SaidFirst(a: Answer, r: Result<Request>, said: seq<byte>, first: seq<byte>, output: seq<byte>, input: seq<byte>)
    requires Gives(a, r, said + first, output, input)
    ensures Gives(After(first, a), r, said, output, input)
  {
    assert said + first + a.replies == said + (first + a.replies);
  }

  // ------------------------------------------------------------- the server

  /** The server's request part; the host is copied out of the buffer before the
      buffer is used for the port. */
  method ServeRequest(p: Peer, buf: array<byte>) returns (r: Result<Request>)
    requires buf.Length == 256
    modifies p, buf
    ensures Gives(RequestOf(old(p.input), old(p.writes)), r, old(p.output), p.output, p.input)
  {
    var ok := p.ReadFull(buf, 4);
    if !ok { return Err; }
    assert buf[0] == buf[..4][0] && buf[1] == buf[..4][1] && buf[3] == buf[..4][3];
    if buf[0] != 5 || buf[1] != 1 { return Err; }
    var host: Host;
    if buf[3] == 1 {
      ok := p.ReadFull(buf, 4);
      if !ok { return Err; }
      host := V4(buf[..4]);
    } else if buf[3] == 3 {
      ok := p.ReadFull(buf, 1);
      if !ok { return Err; }
      assert buf[0] == buf[..1][0];
      var sz := buf[0];
      ok := p.ReadFull(buf, sz);
      if !ok { return Err; }
      host := Domain(buf[..sz]);
    } else if buf[3] == 4 {
      ok := p.ReadFull(buf, 16);
      if !ok { return Err; }
      host := V6(buf[..16]);
    } else {
      return Err;
    }
    ok := p.ReadFull(buf, 2);
    if !ok { return Err; }
    var port := FromBigEndian(buf[..2]);
    ok := p.Write(SUCCESS);
    if !ok { return Err; }
    return Ok(Request(host, port));
  }

  /** The server's handshake answers as the grammar says. */
  method ServeHandshake(p: Peer) returns (r: Result<Request>, ghost a: Answer)
    modifies p
    ensures ServerIs(old(p.input), old(p.writes), a) && Gives(a, r, old(p.output), p.output, p.input)
  {
    ghost var s, w := p.input, p.writes;
    var buf := new byte[256];
    var ok := p.ReadFull(buf, 2);
    if !ok { return Err, Answer(Err, [], []); }
    assert buf[0] == buf[..2][0] && buf[1] == buf[..2][1];
    if buf[0] != 5 { return Err, Answer(Err, [], s[2..]); }
    var nmethods := buf[1];
    ok := p.ReadFull(buf, nmethods);
    if !ok { return Err, Answer(Err, [], []); }
    ok := p.Write([5, 0]);
    if !ok { return Err, Answer(Err, [], Greeted(s)); }
    r := ServeRequest(p, buf);
    ghost var b := RequestOf(Greeted(s), w - 1);
    RequestIsExactly(Greeted(s), w - 1, b);
    SaidFirst(b, r, old(p.output), [5, 0], p.output, p.input);
    a := After([5, 0], b);
  }

  // ------------------------------------------------------------- the client

  method ContainsMethod(methods: seq<byte>, want: byte) returns (found: bool)
    ensures found <==> want in methods
  {
    for i := 0 to |methods|
      invariant want !in methods[..i]
    {
      if methods[i] == want {
        return true;
      }
    }
    return false;
  }

  /** The client's request part. */
  method ClientRequest(p: Peer, buf: array<byte>) returns (r: Result<Request>)
    requires buf.Length == 256
    modifies p, buf
    ensures Gives(RequestOf(old(p.input), old(p.writes)), r, old(p.output), p.output, p.input)
  {
    var ok := p.ReadFull(buf, 4);
    if !ok { return Err; }
    assert buf[0] == buf[..4][0] && buf[1] == buf[..4][1] && buf[3] == buf[..4][3];
    if buf[0] != 5 || buf[1] != 1 { return Err; }
    var host: Host;
    if buf[3] == 1 {
      ok := p.ReadFull(buf, 4);
      if !ok { return Err; }
      host := V4(buf[..4]);
    } else if buf[3] == 3 {
      ok := p.ReadFull(buf, 1);
      if !ok { return Err; }
      assert buf[0] == buf[..1][0];
      var sz := buf[0];
      ok := p.ReadFull(buf, sz);
      if !ok { return Err; }
      host := Domain(buf[..sz]);
    } else if buf[3] == 4 {
      ok := p.ReadFull(buf, 16);
      if !ok { return Err; }
      host := V6(buf[..16]);
    } else {
      return Err;
    }
    ok := p.ReadFull(buf, 2);
    if !ok { return Err; }
    var port := FromBigEndian(buf[..2]);
    ok := p.Write(SUCCESS);
    if !ok { return Err; }
    return Ok(Request(host, port));
  }

  /** User name and password; the name is copied out before the buffer is used
      for the password, which is compared where it lies. */
  method Login(p: Peer, buf: array<byte>, c: Credentials) returns (r: Result<Request>)
    requires buf.Length == 256
    modifies p, buf
    ensures Gives(LoginOf(c, old(p.input), old(p.writes)), r, old(p.output), p.output, p.input)
  {
    ghost var w := p.writes;
    var ok := p.ReadFull(buf, 2);
    if !ok { return Err; }
    assert buf[0] == buf[..2][0] && buf[1] == buf[..2][1];
    if buf[0] != 1 { return Err; }
    var ulen := buf[1];
    ok := p.ReadFull(buf, ulen);
    if !ok { return Err; }
    var username := buf[..ulen];
    ok := p.ReadFull(buf, 1);
    if !ok { return Err; }
    assert buf[0] == buf[..1][0];
    var plen := buf[0];
    ok := p.ReadFull(buf, plen);
    if !ok { return Err; }
    var sameUser := ConstantTimeEqual(username, c.user);
    var samePass := ConstantTimeEqual(buf[..plen], c.pass);
    var status: byte := if !sameUser || !samePass then 1 else 0;
    ok := p.Write([1, status]);
    if !ok || status != 0 { return Err; }
    ghost var asked := p.input;
    r := ClientRequest(p, buf);
    SaidFirst(RequestOf(asked, w - 1), r, old(p.output), [1, 0], p.output, p.input);
  }

  /** The client's choice of method, and what follows it. */
  method ClientChoice(p: Peer, buf: array<byte>, methods: seq<byte>, c: Option<Credentials>)
    returns (r: Result<Request>, ghost a: Answer)
    requires buf.Length == 256
    modifies p, buf
    ensures ClientGoesOn(c, methods, old(p.input), old(p.writes), a) && Gives(a, r, old(p.output), p.output, p.input)
  {
    ghost var s, w := p.input, p.writes;
    var selected: byte := if c.Some? then 2 else 0;
    var offered := ContainsMethod(methods, selected);
    if !offered {
      var ok := p.Write([5, 255]);
      return Err, Answer(Err, if ok then [5, 255] else [], s);
    }
    var ok := p.Write([5, selected]);
    if !ok { return Err, Answer(Err, [], s); }
    ghost var b := if c.Some? then LoginOf(c.value, s, w - 1) else RequestOf(s, w - 1);
    RequestIsExactly(s, w - 1, b);
    if c.Some? {
      r := Login(p, buf, c.value);
    } else {
      r := ClientRequest(p, buf);
    }
    SaidFirst(b, r, old(p.output), [5, selected], p.output, p.input);
    a := After([5, selected], b);
  }

  /** The client's handshake answers as the grammar says. */
  method HandleSocks5(p: Peer, c: Option<Credentials>) returns (r: Result<Request>, ghost a: Answer)
    modifies p
    ensures ClientIs(c, old(p.input), old(p.writes), a) && Gives(a, r, old(p.output), p.output, p.input)
  {
    ghost var s := p.input;
    var buf := new byte[256];
    var ok := p.ReadFull(buf, 2);
    if !ok { return Err, Answer(Err, [], []); }
    assert buf[0] == buf[..2][0] && buf[1] == buf[..2][1];
    if buf[0] != 5 { return Err, Answer(Err, [], s[2..]); }
    var nmethods := buf[1];
    ok := p.ReadFull(buf, nmethods);
    if !ok { return Err, Answer(Err, [], []); }
    r, a := ClientChoice(p, buf, buf[..nmethods], c);
  }

  /** Both copies run on the same input end alike, in result, replies and bytes
      consumed, exactly when the server's indifference to the methods does not show. */
  method RunBoth(input: seq<byte>, writes: nat)
    returns (server: Result<Request>, client: Result<Request>, p: Peer, q: Peer)
    ensures fresh(p) && fresh(q)
    ensures server == client && p.output == q.output && p.input == q.input <==>
              !(writes > 0 && Greets(input) && 0 !in Methods(input))
  {
    ghost var a, b;
    p := new Peer(input, writes);
    q := new Peer(input, writes);
    server, a := ServeHandshake(p);
    client, b := HandleSocks5(q, None);
    assert [] + a.replies == a.replies && [] + b.replies == b.replies;
    ParsersAgreeExactly(input, writes, a, b);
  }
}
