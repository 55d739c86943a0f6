/** Control messages of a received datagram, searched for the original
    destination address. */
module Cmsg {
  import opened Wrappers
  import opened Bytes

  const TWO63: nat := 0x8000_0000_0000_0000
  const TWO64: nat := 0x1_0000_0000_0000_0000
  const TWO32: nat := 0x1_0000_0000

  const LEVEL_IP: nat := 0
  const LEVEL_IPV6: nat := 41
  const IP_ORIGDSTADDR: nat := 20
  const IPV6_ORIGDSTADDR: nat := 80

  /** Level and type as 32-bit words; the four values compared with are not negative. */
  datatype Entry = Entry(level: nat, typ: nat, data: seq<byte>)

  /** The address bytes, whose text the library makes, and the port. */
  datatype Dest = Dest(ip: seq<byte>, port: nat)

  function LittleEndian(n: nat, k: nat): (s: seq<byte>)
    ensures |s| == k
  {
    if k == 0 then [] else [n % 256] + LittleEndian(n / 256, k - 1)
  }

  function FromLittleEndian(s: seq<byte>): nat {
    if s == [] then 0 else s[0] as int + 256 * FromLittleEndian(s[1..])
  }

  lemma {:induction false} LittleEndianInverse(n: nat, k: nat)
    requires n < Pow256(k)
    ensures FromLittleEndian(LittleEndian(n, k)) == n
  {
    if k != 0 {
      LittleEndianInverse(n / 256, k - 1);
      assert LittleEndian(n, k)[1..] == LittleEndian(n / 256, k - 1);
    }
  }

  /** What an entry says the destination was, if it is of the right kind and long enough. */
  function Match(e: Entry): Option<Dest> {
    if e.level == LEVEL_IP && e.typ == IP_ORIGDSTADDR && |e.data| >= 8 then
      Some(Dest(e.data[4..8], FromBigEndian(e.data[2..4])))
    else if e.level == LEVEL_IPV6 && e.typ == IPV6_ORIGDSTADDR && |e.data| >= 24 then
      Some(Dest(e.data[8..24], FromBigEndian(e.data[2..4])))
    else None
  }

  function FirstMatch(es: seq<Entry>): Result<Dest> {
    if es == [] then Err
    else if Match(es[0]).Some? then Ok(Match(es[0]).value)
    else FirstMatch(es[1..])
  }

  /** Rounding up to 8 in a 64-bit word. */
  function Align(n: nat): nat { (n + 7) % TWO64 / 8 * 8 }

  lemma AlignDoesNotWrap(n: nat)
    requires n <= TWO63
    ensures n <= Align(n) < n + 8 && Align(n) % 8 == 0
  {
    assert (n + 7) % TWO64 == n + 7;
  }

  /** The length the entry at the front claims, if it is sound. */
  predicate HasEntry(oob: seq<byte>) {
    |oob| >= 16 && 16 <= FromLittleEndian(oob[..8]) <= |oob|
  }

  function EntryAt(oob: seq<byte>): Entry
    requires HasEntry(oob)
  {
    Entry(FromLittleEndian(oob[8..12]), FromLittleEndian(oob[12..16]), oob[16..FromLittleEndian(oob[..8])])
  }

  /** The entries of a buffer, up to the first unsound one. */
  function Entries(oob: seq<byte>): seq<Entry>
    requires |oob| < TWO63
    decreases |oob|
  {
    if !HasEntry(oob) then []
    else
      var n := FromLittleEndian(oob[..8]);
      AlignDoesNotWrap(n);
      [EntryAt(oob)] + if |oob| < Align(n) then [] else Entries(oob[Align(n)..])
  }

  /** The walk: every access is inside the buffer, each of the `turns` that go on
      gives up at least 16 bytes, and the result is the first entry that matches. */
  method ParseOrigDstAddr(oob: seq<byte>) returns (r: Result<Dest>, ghost turns: nat)
    requires |oob| < TWO63
    ensures r == FirstMatch(Entries(oob))
    ensures 16 * turns <= |oob|
  {
    var rest := oob;
    turns := 0;
    while |rest| >= 16
      invariant |rest| + 16 * turns <= |oob|
      invariant FirstMatch(Entries(oob)) == FirstMatch(Entries(rest))
      decreases |rest|
    {
      var cmsgLen := FromLittleEndian(rest[0..8]);
      if cmsgLen < 16 || |rest| < cmsgLen {
        break;
      }
      var level, typ := FromLittleEndian(rest[8..12]), FromLittleEndian(rest[12..16]);
      var data := rest[16..cmsgLen];
      assert rest[0..8] == rest[..8];
      assert Entries(rest)[0] == Entry(level, typ, data);
      if level == LEVEL_IP && typ == IP_ORIGDSTADDR {
        if |data| >= 8 {
          return Ok(Dest(data[4..8], FromBigEndian(data[2..4]))), turns;
        }
      }
      if level == LEVEL_IPV6 && typ == IPV6_ORIGDSTADDR {
        if |data| >= 24 {
          return Ok(Dest(data[8..24], FromBigEndian(data[2..4]))), turns;
        }
      }
      AlignDoesNotWrap(cmsgLen);
      var next := Align(cmsgLen);
      if |rest| < next {
        assert Entries(rest)[1..] == [];
        return Err, turns;
      }
      assert Entries(rest)[1..] == Entries(rest[next..]);
      rest := rest[next..];
      turns := turns + 1;
    }
    return Err, turns;
  }

  // ------------------------------------------------------ well-formed lists

  /** An entry as the kernel lays it out, with whatever padding bytes. */
  datatype Padded = Padded(e: Entry, pad: seq<byte>)

  predicate Sound(p: Padded) {
    && p.e.level < TWO32 && p.e.typ < TWO32 && 16 + |p.e.data| < TWO63
    && 16 + |p.e.data| + |p.pad| == Align(16 + |p.e.data|)
  }

  function Layout(p: Padded): seq<byte> {
    LittleEndian(16 + |p.e.data|, 8) + LittleEndian(p.e.level, 4) + LittleEndian(p.e.typ, 4) + p.e.data + p.pad
  }

  function Buffer(ps: seq<Padded>): seq<byte> {
    if ps == [] then [] else Layout(ps[0]) + Buffer(ps[1..])
  }

  function Plain(ps: seq<Padded>): (es: seq<Entry>)
    ensures |es| == |ps| && forall i :: 0 <= i < |ps| ==> es[i] == ps[i].e
  {
    if ps == [] then [] else [ps[0].e] + Plain(ps[1..])
  }

  lemma LayoutInverse(p: Padded, rest: seq<byte>)
    requires Sound(p)
    ensures
      var s := Layout(p) + rest;
      HasEntry(s) && FromLittleEndian(s[..8]) == 16 + |p.e.data| && EntryAt(s) == p.e
  {
    var s := Layout(p) + rest;
    var n := 16 + |p.e.data|;
    assert s[..8] == LittleEndian(n, 8);
    assert s[8..12] == LittleEndian(p.e.level, 4);
    assert s[12..16] == LittleEndian(p.e.typ, 4);
    assert s[16..n] == p.e.data;
    assert Pow256(4) == TWO32;
    assert Pow256(8) == TWO64;
    LittleEndianInverse(n, 8);
    LittleEndianInverse(p.e.level, 4);
    LittleEndianInverse(p.e.typ, 4);
  }

  /** Every list of entries, padded with any bytes, is read back entry by entry. */
  lemma {:induction false} EntriesInverse(ps: seq<Padded>)
    requires |Buffer(ps)| < TWO63
    requires forall i :: 0 <= i < |ps| ==> Sound(ps[i])
    ensures Entries(Buffer(ps)) == Plain(ps)
  {
    if ps != [] {
      LayoutInverse(ps[0], Buffer(ps[1..]));
      assert Buffer(ps)[|Layout(ps[0])|..] == Buffer(ps[1..]);
      EntriesInverse(ps[1..]);
    }
  }

  lemma {:induction false} FirstMatchIs(es: seq<Entry>)
    ensures FirstMatch(es).Err? <==> forall i :: 0 <= i < |es| ==> Match(es[i]).None?
    ensures FirstMatch(es).Ok? ==>
              exists k :: 0 <= k < |es| && Match(es[k]) == Some(FirstMatch(es).value)
                          && forall i :: 0 <= i < k ==> Match(es[i]).None?
  {
    if es != [] {
      FirstMatchIs(es[1..]);
      if Match(es[0]).Some? {
        assert Match(es[0]) == Some(FirstMatch(es).value);
      } else if FirstMatch(es).Ok? {
        var k :| 0 <= k < |es[1..]| && Match(es[1..][k]) == Some(FirstMatch(es).value)
                 && forall i :: 0 <= i < k ==> Match(es[1..][i]).None?;
        assert forall i :: 0 <= i < k + 1 ==> i == 0 || es[i] == es[1..][i - 1];
        assert Match(es[k + 1]) == Some(FirstMatch(es).value);
      } else {
        assert forall i :: 0 < i < |es| ==> es[i] == es[1..][i - 1];
      }
    }
  }

  /** So on every well-formed list the walk fails exactly when no entry matches,
      and otherwise answers for entry `k`, the first that does. */
  lemma WalkFindsFirst(ps: seq<Padded>) returns (k: nat)
    requires |Buffer(ps)| < TWO63
    requires forall i :: 0 <= i < |ps| ==> Sound(ps[i])
    ensures k <= |ps| && forall i :: 0 <= i < k ==> Match(ps[i].e).None?
    ensures FirstMatch(Entries(Buffer(ps))) ==
            if k < |ps| && Match(ps[k].e).Some? then Ok(Match(ps[k].e).value) else Err
    ensures FirstMatch(Entries(Buffer(ps))).Err? ==> k == |ps|
  {
    EntriesInverse(ps);
    var es := Plain(ps);
    FirstMatchIs(es);
    if FirstMatch(es).Ok? {
      var j :| 0 <= j < |es| && Match(es[j]) == Some(FirstMatch(es).value) && forall i :: 0 <= i < j ==> Match(es[i]).None?;
      k := j;
    } else {
      k := |ps|;
    }
  }

  // ------------------------------------------------------------ byte by byte

  lemma LittleCons(a: byte, s: seq<byte>)
    ensures FromLittleEndian([a] + s) == a as nat + 256 * FromLittleEndian(s)
  {
    assert ([a] + s)[1..] == s;
  }

  lemma LittleFour(a: byte, b: byte)
    ensures FromLittleEndian([a, b, 0, 0]) == a as nat + 256 * b as nat
  {
    LittleCons(0, []);
    LittleCons(0, [0]);
    LittleCons(b, [0, 0]);
    LittleCons(a, [b, 0, 0]);
    assert [0] + [] == [0] && [0] + [0] == [0, 0] && [b] + [0, 0] == [b, 0, 0] && [a] + [b, 0, 0] == [a, b, 0, 0];
  }

  lemma LittleEight(a: byte, b: byte)
    ensures FromLittleEndian([a, b, 0, 0, 0, 0, 0, 0]) == a as nat + 256 * b as nat
  {
    LittleFour(0, 0);
    LittleCons(0, [0, 0, 0, 0]);
    LittleCons(0, [0, 0, 0, 0, 0]);
    LittleCons(b, [0, 0, 0, 0, 0, 0]);
    LittleCons(a, [b, 0, 0, 0, 0, 0, 0]);
    assert [0] + [0, 0, 0, 0] == [0, 0, 0, 0, 0] && [0] + [0, 0, 0, 0, 0] == [0, 0, 0, 0, 0, 0];
    assert [b] + [0, 0, 0, 0, 0, 0] == [b, 0, 0, 0, 0, 0, 0] && [a] + [b, 0, 0, 0, 0, 0, 0] == [a, b, 0, 0, 0, 0, 0, 0];
  }

  /** The entry at the front announces `a + 256 * b` bytes, a level and a type. */
  lemma FrontEntry(oob: seq<byte>, a: byte, b: byte, level: byte, typ: byte)
    requires 16 <= a as nat + 256 * b as nat <= |oob|
    requires oob[..8] == [a, b, 0, 0, 0, 0, 0, 0] && oob[8..12] == [level, 0, 0, 0] && oob[12..16] == [typ, 0, 0, 0]
    ensures HasEntry(oob) && EntryAt(oob) == Entry(level, typ, oob[16..a as nat + 256 * b as nat])
  {
    LittleEight(a, b);
    LittleFour(level, 0);
    LittleFour(typ, 0);
  }

  lemma FrontMatches(oob: seq<byte>, d: Dest)
    requires |oob| < TWO63 && HasEntry(oob) && Match(EntryAt(oob)) == Some(d)
    ensures FirstMatch(Entries(oob)) == Ok(d)
  {
    assert Entries(oob)[0] == EntryAt(oob);
  }

  lemma MatchRaw(e: Entry, data: seq<byte>)
    requires e.data == data
    ensures e.level == 0 && e.typ == 20 && |data| >= 8 ==>
              Match(e) == Some(Dest(data[4..8], 256 * data[2] as nat + data[3] as nat))
    ensures e.level == 41 && e.typ == 80 && |data| >= 24 ==>
              Match(e) == Some(Dest(data[8..24], 256 * data[2] as nat + data[3] as nat))
  {
    if |data| >= 4 { FromBigEndianTwo(data[2..4]); }
  }

  lemma SliceOfSlice(s: seq<byte>, n: nat, i: nat, j: nat)
    requires 16 <= n <= |s| && i <= j <= n - 16
    ensures s[16..n][i..j] == s[16 + i..16 + j]
  {
    forall k | 0 <= k < j - i ensures s[16..n][i..j][k] == s[16 + i..16 + j][k] {
      assert s[16..n][i..j][k] == s[16..n][i + k];
    }
  }

  lemma DataBytes(oob: seq<byte>, n: nat)
    requires 24 <= n <= |oob|
    ensures var data := oob[16..n]; data[4..8] == oob[20..24] && data[2] == oob[18] && data[3] == oob[19]
    ensures n >= 40 ==> oob[16..n][8..24] == oob[24..40]
  {
    SliceOfSlice(oob, n, 4, 8);
    if n >= 40 { SliceOfSlice(oob, n, 8, 24); }
  }

  lemma FrontIpv4(oob: seq<byte>, n: nat)
    requires |oob| < TWO63 && 24 <= n <= |oob| && HasEntry(oob) && EntryAt(oob) == Entry(0, 20, oob[16..n])
    ensures FirstMatch(Entries(oob)) == Ok(Dest(oob[20..24], 256 * oob[18] as nat + oob[19] as nat))
  {
    MatchRaw(EntryAt(oob), oob[16..n]);
    DataBytes(oob, n);
    FrontMatches(oob, Dest(oob[20..24], 256 * oob[18] as nat + oob[19] as nat));
  }

  lemma FrontIpv6(oob: seq<byte>, n: nat)
    requires |oob| < TWO63 && 40 <= n <= |oob| && HasEntry(oob) && EntryAt(oob) == Entry(41, 80, oob[16..n])
    ensures FirstMatch(Entries(oob)) == Ok(Dest(oob[24..40], 256 * oob[18] as nat + oob[19] as nat))
  {
    MatchRaw(EntryAt(oob), oob[16..n]);
    DataBytes(oob, n);
    FrontMatches(oob, Dest(oob[24..40], 256 * oob[18] as nat + oob[19] as nat));
  }

  /** An IPv4 destination at the front of the buffer: the port is the two bytes at
      18, high byte first, and the address the four at 20. */
  lemma Ipv4Raw(oob: seq<byte>, a: byte, b: byte)
    requires |oob| < TWO63 && 24 <= a as nat + 256 * b as nat <= |oob|
    requires oob[..8] == [a, b, 0, 0, 0, 0, 0, 0] && oob[8..12] == [0, 0, 0, 0] && oob[12..16] == [20, 0, 0, 0]
    ensures FirstMatch(Entries(oob)) == Ok(Dest(oob[20..24], 256 * oob[18] as nat + oob[19] as nat))
  {
    FrontEntry(oob, a, b, 0, 20);
    FrontIpv4(oob, a as nat + 256 * b as nat);
  }

  /** An IPv6 one: the port likewise, the address the sixteen bytes at 24. */
  lemma Ipv6Raw(oob: seq<byte>, a: byte, b: byte)
    requires |oob| < TWO63 && 40 <= a as nat + 256 * b as nat <= |oob|
    requires oob[..8] == [a, b, 0, 0, 0, 0, 0, 0] && oob[8..12] == [41, 0, 0, 0] && oob[12..16] == [80, 0, 0, 0]
    ensures FirstMatch(Entries(oob)) == Ok(Dest(oob[24..40], 256 * oob[18] as nat + oob[19] as nat))
  {
    FrontEntry(oob, a, b, 41, 80);
    FrontIpv6(oob, a as nat + 256 * b as nat);
  }
}
