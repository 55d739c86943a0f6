/** The tunnel argument after its protocol and options: fields separated by
    colons, except inside square brackets. */
module TunnelSpecs {
  import opened Wrappers
  import opened Sequences

  function Inside(c: char, inBrackets: bool): bool {
    if c == '[' then true else if c == ']' then false else inBrackets
  }

  /** The fields of `s`, read from inside or outside brackets. */
  function Fields(s: string, inBrackets: bool): (r: seq<string>)
    ensures |r| >= 1
  {
    if s == [] then [""]
    else
      var b := Inside(s[0], inBrackets);
      var r := Fields(s[1..], b);
      if s[0] == ':' && !b then [""] + r else Glue([s[0]], r)
  }

  /** Text in front of the first field. */
  function Glue(pre: string, fields: seq<string>): (r: seq<string>)
    requires |fields| >= 1
    ensures |r| == |fields|
  {
    [pre + fields[0]] + fields[1..]
  }

  lemma GlueNothing(fields: seq<string>)
    requires |fields| >= 1
    ensures Glue("", fields) == fields
  {
    assert "" + fields[0] == fields[0];
    assert fields == [fields[0]] + fields[1..];
  }

  lemma GlueTwice(a: string, b: string, fields: seq<string>)
    requires |fields| >= 1
    ensures Glue(a, Glue(b, fields)) == Glue(a + b, fields)
  {
    assert a + (b + fields[0]) == a + b + fields[0];
    assert Glue(b, fields)[1..] == fields[1..];
  }

  method Split(info: string) returns (parts: seq<string>)
    ensures parts == Fields(info, false)
  {
    parts := [];
    var curr, inBrackets := "", false;
    assert info[0..] == info;
    GlueNothing(Fields(info, false));
    for i := 0 to |info|
      invariant parts + Glue(curr, Fields(info[i..], inBrackets)) == Fields(info, false)
    {
      var c := info[i];
      ghost var rest, was := info[i..], inBrackets;
      assert rest[0] == c && rest[1..] == info[i + 1..];
      if c == '[' {
        inBrackets := true;
      } else if c == ']' {
        inBrackets := false;
      }
      ghost var tail := Fields(rest[1..], inBrackets);
      if c == ':' && !inBrackets {
        assert Fields(rest, was) == [""] + tail && curr + "" == curr;
        assert Glue(curr, Fields(rest, was)) == [curr] + tail;
        GlueNothing(tail);
        ConcatAssoc(parts, [curr], tail);
        parts := parts + [curr];
        curr := "";
      } else {
        GlueTwice(curr, [c], tail);
        curr := curr + [c];
      }
    }
    assert info[|info|..] == [] && curr + "" == curr;
    assert Glue(curr, [""]) == [curr];
    parts := parts + [curr];
  }

  // --------------------------------------------------------------- inversion

  function Join(fields: seq<string>): string
    requires |fields| >= 1
  {
    if |fields| == 1 then fields[0] else fields[0] + ":" + Join(fields[1..])
  }

  lemma JoinGlue(pre: string, fields: seq<string>)
    requires |fields| >= 1
    ensures Join(Glue(pre, fields)) == pre + Join(fields)
  {
    var g := Glue(pre, fields);
    assert g[1..] == fields[1..] && g[0] == pre + fields[0];
    if |fields| > 1 {
      ConcatAssoc(pre, fields[0], ":");
      ConcatAssoc(pre, fields[0] + ":", Join(fields[1..]));
    }
  }

  /** Splitting loses nothing: the fields joined with colons are the text. */
  lemma {:induction false} JoinUndoesSplit(s: string, b: bool)
    ensures Join(Fields(s, b)) == s
  {
    if s != [] {
      var b' := Inside(s[0], b);
      var r := Fields(s[1..], b');
      JoinUndoesSplit(s[1..], b');
      if s[0] == ':' && !b' {
        assert ([""] + r)[1..] == r;
      } else {
        JoinGlue([s[0]], r);
      }
      assert s == [s[0]] + s[1..];
    }
  }

  /** Whether `f`, read from state `b`, ends inside brackets. */
  function EndsInside(f: string, b: bool): bool {
    if f == [] then b else EndsInside(f[1..], Inside(f[0], b))
  }

  /** `f`, read from state `b`, has a colon outside brackets. */
  predicate BareColon(f: string, b: bool) {
    f != [] && ((f[0] == ':' && !b) || BareColon(f[1..], Inside(f[0], b)))
  }

  /** A field without bare colons stays in one piece. */
  lemma {:induction false} WholeField(f: string, b: bool, rest: string)
    requires !BareColon(f, b)
    ensures Fields(f + rest, b) == Glue(f, Fields(rest, EndsInside(f, b)))
  {
    if f == [] {
      assert f + rest == rest;
      GlueNothing(Fields(rest, b));
    } else {
      var b' := Inside(f[0], b);
      WholeField(f[1..], b', rest);
      assert (f + rest)[1..] == f[1..] + rest;
      assert [f[0]] + f[1..] == f;
      GlueTwice([f[0]], f[1..], Fields(rest, EndsInside(f, b)));
    }
  }

  /** One with a bare colon is cut short. */
  lemma {:induction false} CutField(f: string, b: bool, rest: string)
    requires BareColon(f, b)
    ensures |Fields(f + rest, b)[0]| < |f|
  {
    if !(f[0] == ':' && !b) {
      CutField(f[1..], Inside(f[0], b), rest);
      assert (f + rest)[1..] == f[1..] + rest;
    }
  }

  /** A list of fields that splits back: no bare colons, and brackets closed in
      every field but the last. */
  predicate Separable(fields: seq<string>)
    requires |fields| >= 1
  {
    && !BareColon(fields[0], false)
    && (|fields| > 1 ==> !EndsInside(fields[0], false) && Separable(fields[1..]))
  }

  /** Exactly the separable lists are given back by splitting their join. */
  lemma {:induction false} SplitUndoesJoinExactly(fields: seq<string>)
    requires |fields| >= 1
    ensures Fields(Join(fields), false) == fields <==> Separable(fields)
  {
    var f := fields[0];
    if |fields| == 1 {
      assert f + "" == f;
      if BareColon(f, false) {
        CutField(f, false, "");
      } else {
        WholeField(f, false, "");
        assert f + "" == f;
      }
    } else {
      var rest := ":" + Join(fields[1..]);
      SplitUndoesJoinExactly(fields[1..]);
      assert Join(fields) == f + rest;
      if BareColon(f, false) {
        CutField(f, false, rest);
      } else {
        WholeField(f, false, rest);
        assert rest[1..] == Join(fields[1..]);
        if EndsInside(f, false) {
          assert |Fields(rest, true)[0]| >= 1;
        } else {
          assert Fields(rest, false) == [""] + Fields(Join(fields[1..]), false);
          assert f + "" == f;
          assert fields == [f] + fields[1..];
        }
      }
    }
  }

  // ------------------------------------------------------- field selection

  predicate Bracket(c: char) { c == '[' || c == ']' }

  function TrimLeft(s: string): string { if s != [] && Bracket(s[0]) then TrimLeft(s[1..]) else s }

  function TrimRight(s: string): string {
    if s != [] && Bracket(s[|s| - 1]) then TrimRight(s[..|s| - 1]) else s
  }

  function Trim(s: string): string { TrimRight(TrimLeft(s)) }

  function JoinHostPort(host: string, port: string): string {
    if ':' in host then "[" + host + "]:" + port else host + ":" + port
  }

  predicate Digit(c: char) { '0' <= c <= '9' }

  /** The library's 16-bit decimal parser with its error dropped: 65535 as soon
      as the value is out of range, 0 at the first character that is no digit. */
  function PortFrom(s: string, n: nat): nat {
    if s == [] then n
    else if !Digit(s[0]) then 0
    else
      var n' := 10 * n + (s[0] as int - '0' as int);
      if n' > 65535 then 65535 else PortFrom(s[1..], n')
  }

  function ParsePort(s: string): nat { if s == "" then 0 else PortFrom(s, 0) }

  datatype Spec = Spec(local: string, remote: string, port: nat)

  /** One to four fields: port, bind:port, port:host:port, bind:port:host:port. */
  function ParseInfo(info: string): Result<Spec> {
    var p := Fields(info, false);
    if |p| == 1 then Ok(Spec(JoinHostPort("127.0.0.1", p[0]), "0.0.0.0", 0))
    else if |p| == 2 then Ok(Spec(JoinHostPort(Trim(p[0]), p[1]), "0.0.0.0", 0))
    else if |p| == 3 then Ok(Spec(JoinHostPort("127.0.0.1", p[0]), Trim(p[1]), ParsePort(p[2])))
    else if |p| == 4 then Ok(Spec(JoinHostPort(Trim(p[0]), p[1]), Trim(p[2]), ParsePort(p[3])))
    else Err
  }

  // ---------------------------------------------------------- printed specs

  predicate NoBrackets(s: string) { forall i :: 0 <= i < |s| ==> !Bracket(s[i]) }

  /** A host or bind address as a user writes it. */
  function Written(h: string): string { if ':' in h then "[" + h + "]" else h }

  function Decimal(n: nat): (s: string)
    ensures |s| >= 1
  {
    var d := [('0' as int + n % 10) as char];
    if n < 10 then d else Decimal(n / 10) + d
  }

  /** Brackets closing after `tail` characters: the text between has no say. */
  lemma {:induction false} UnbracketedText(h: string, b: bool, tail: string)
    requires NoBrackets(h)
    ensures EndsInside(h + tail, b) == EndsInside(tail, b)
    ensures BareColon(h + tail, b) <==> (!b && ':' in h) || BareColon(tail, b)
  {
    if h == [] {
      assert h + tail == tail;
    } else {
      UnbracketedText(h[1..], b, tail);
      assert (h + tail)[1..] == h[1..] + tail;
      assert h == [h[0]] + h[1..];
    }
  }

  lemma WrittenIsOneField(h: string)
    requires NoBrackets(h)
    ensures !BareColon(Written(h), false) && !EndsInside(Written(h), false)
  {
    if ':' in h {
      UnbracketedText(h, true, "]");
      assert Written(h)[1..] == h + "]";
      assert "]"[1..] == "";
    } else {
      UnbracketedText(h, false, "");
      assert h + "" == h;
    }
  }

  lemma TrimWritten(h: string)
    requires NoBrackets(h)
    ensures Trim(Written(h)) == h
  {
    if ':' in h {
      assert Written(h)[1..] == h + "]";
      assert (h + "]")[0] == h[0] && TrimLeft(Written(h)) == TrimLeft(h + "]") == h + "]";
      assert (h + "]")[..|h|] == h && TrimRight(h + "]") == TrimRight(h);
    }
  }

  lemma {:induction false} DecimalParses(n: nat, rest: string)
    requires n <= 65535
    ensures PortFrom(Decimal(n) + rest, 0) == PortFrom(rest, n)
  {
    var d := [('0' as int + n % 10) as char];
    assert (d + rest)[1..] == rest;
    if n >= 10 {
      DecimalParses(n / 10, d + rest);
      assert Decimal(n) + rest == Decimal(n / 10) + (d + rest);
    } else {
      assert Decimal(n) + rest == d + rest;
    }
  }

  lemma {:induction false} DecimalIsPlain(n: nat)
    ensures NoBrackets(Decimal(n)) && ':' !in Decimal(n)
  {
    if n >= 10 { DecimalIsPlain(n / 10); }
  }

  predicate PlainPort(s: string) { NoBrackets(s) && ':' !in s }

  lemma PlainPortIsOneField(s: string)
    requires PlainPort(s)
    ensures !BareColon(s, false) && !EndsInside(s, false)
  {
    WrittenIsOneField(s);
  }

  /** The local address is the bind address as written, a colon and the port. */
  lemma JoinedAsWritten(host: string, port: string)
    ensures JoinHostPort(host, port) == Written(host) + ":" + port
  {
    if ':' in host {
      ConcatAssoc("[" + host, "]", ":");
      assert "]" + ":" == "]:";
    }
  }

  lemma LoopbackAsWritten(port: string)
    ensures JoinHostPort("127.0.0.1", port) == "127.0.0.1:" + port
  {
    assert "127.0.0.1" + ":" == "127.0.0.1:";
  }

  /** A printed bind:port:host:port gives back its own parts, whatever the bind
      address and host, IPv6 included. */
  lemma FourFieldsParse(bind: string, port: string, host: string, remotePort: nat)
    requires NoBrackets(bind) && NoBrackets(host) && PlainPort(port) && remotePort <= 65535
    ensures ParseInfo(Join([Written(bind), port, Written(host), Decimal(remotePort)])) ==
            Ok(Spec(Written(bind) + ":" + port, host, remotePort))
  {
    JoinedAsWritten(bind, port);
    var last := [Decimal(remotePort)];
    var three := [Written(host)] + last;
    var two := [port] + three;
    var all := [Written(bind)] + two;
    LastField(remotePort);
    WrittenIsOneField(host);
    PlainPortIsOneField(port);
    WrittenIsOneField(bind);
    assert Separable(three) && Separable(two) && Separable(all);
    SplitUndoesJoinExactly(all);
    assert all == [Written(bind), port, Written(host), Decimal(remotePort)];
    TrimWritten(bind);
    TrimWritten(host);
  }

  lemma LastField(n: nat)
    requires n <= 65535
    ensures Separable([Decimal(n)]) && ParsePort(Decimal(n)) == n
  {
    DecimalIsPlain(n);
    PlainPortIsOneField(Decimal(n));
    DecimalParses(n, "");
    assert Decimal(n) + "" == Decimal(n);
  }

  /** A printed port:host:port likewise, bound to the loopback address. */
  lemma ThreeFieldsParse(port: string, host: string, remotePort: nat)
    requires NoBrackets(host) && PlainPort(port) && remotePort <= 65535
    ensures ParseInfo(Join([port, Written(host), Decimal(remotePort)])) ==
            Ok(Spec("127.0.0.1:" + port, host, remotePort))
  {
    LoopbackAsWritten(port);
    var last := [Decimal(remotePort)];
    var two := [Written(host)] + last;
    var all := [port] + two;
    LastField(remotePort);
    WrittenIsOneField(host);
    PlainPortIsOneField(port);
    assert Separable(two) && Separable(all);
    SplitUndoesJoinExactly(all);
    assert all == [port, Written(host), Decimal(remotePort)];
    TrimWritten(host);
  }

  /** bind:port, with the remote side left to the dynamic protocols. */
  lemma TwoFieldsParse(bind: string, port: string)
    requires NoBrackets(bind) && PlainPort(port)
    ensures ParseInfo(Join([Written(bind), port])) == Ok(Spec(Written(bind) + ":" + port, "0.0.0.0", 0))
  {
    JoinedAsWritten(bind, port);
    var last, all := [port], [Written(bind)] + [port];
    PlainPortIsOneField(port);
    WrittenIsOneField(bind);
    assert Separable(last) && Separable(all);
    SplitUndoesJoinExactly(all);
    assert all == [Written(bind), port];
    TrimWritten(bind);
  }

  /** A port alone, bound to the loopback address. */
  lemma OneFieldParse(port: string)
    requires PlainPort(port)
    ensures ParseInfo(port) == Ok(Spec("127.0.0.1:" + port, "0.0.0.0", 0))
  {
    PlainPortIsOneField(port);
    SplitUndoesJoinExactly([port]);
    LoopbackAsWritten(port);
  }

  /** A list of separable fields is refused exactly when there are more than four. */
  lemma RefusedExactly(fields: seq<string>)
    requires |fields| >= 1 && Separable(fields)
    ensures ParseInfo(Join(fields)).Err? <==> |fields| > 4
  {
    SplitUndoesJoinExactly(fields);
  }

  /** A remote port out of range is not refused: it becomes 65535. */
  lemma {:induction false} LargePortSaturates(n: nat, rest: string)
    requires n > 65535
    ensures PortFrom(Decimal(n) + rest, 0) == 65535
  {
    var d := [('0' as int + n % 10) as char];
    assert (d + rest)[1..] == rest;
    assert Decimal(n) + rest == Decimal(n / 10) + (d + rest);
    if n / 10 > 65535 {
      LargePortSaturates(n / 10, d + rest);
    } else {
      DecimalParses(n / 10, d + rest);
    }
  }
}
