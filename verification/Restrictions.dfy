/** The server's restriction rules, and their compilation from command-line flags. */
module Restrictions {
  import opened Wrappers
  import TunnelSpecs

  /** A compiled regular expression, and an IP network, as what they match. */
  type Pattern = string -> bool
  type Ip = seq<int>
  type Network = Ip -> bool

  /** The library calls whose results the rules depend on. */
  datatype Library = Library(
    compile: string -> Option<Pattern>,
    splitHostPort: string -> Option<(string, string)>,
    equalFold: (string, string) -> bool,
    parseIp: string -> Option<Ip>)

  datatype Kind =
    | Stdio | Tcp | Udp | Socks5 | TProxyTcp | TProxyUdp | HttpProxy | Unix
    | ReverseTcp | ReverseUdp | ReverseSocks5 | ReverseHttpProxy | ReverseUnix

  /** A claim: the protocol members that are set, which need not be one alone. */
  datatype Claims = Claims(protocol: set<Kind>, unixPath: string, remote: string, port: nat)

  datatype PortRange = PortRange(min: nat, max: nat)

  datatype MatchConfig =
    MatchConfig(any: bool, pathPrefix: Option<Pattern>, authorization: Option<Pattern>, commonName: Option<Pattern>)

  datatype AllowTunnel =
    AllowTunnel(protocol: seq<string>, port: seq<PortRange>, host: Option<Pattern>, cidr: seq<Network>)

  datatype AllowReverse =
    AllowReverse(protocol: seq<string>, port: seq<PortRange>, cidr: seq<Network>, unixPath: Option<Pattern>)

  datatype AllowConfig = AllowConfig(tunnel: Option<AllowTunnel>, reverse: Option<AllowReverse>)

  datatype Restriction = Restriction(matches: seq<MatchConfig>, allow: seq<AllowConfig>)

  function ProtoName(p: set<Kind>): string {
    if Tcp in p then "Tcp"
    else if Udp in p then "Udp"
    else if Socks5 in p then "Socks5"
    else if HttpProxy in p then "Http"
    else if Unix in p then "Unix"
    else if ReverseTcp in p then "ReverseTcp"
    else if ReverseUdp in p then "ReverseUdp"
    else if ReverseSocks5 in p then "ReverseSocks5"
    else if ReverseHttpProxy in p then "ReverseHttp"
    else if ReverseUnix in p then "ReverseUnix"
    else "Unknown"
  }

  predicate IsReverse(c: Claims) {
    || ReverseTcp in c.protocol || ReverseUdp in c.protocol || ReverseSocks5 in c.protocol
    || ReverseHttpProxy in c.protocol || ReverseUnix in c.protocol
  }

  predicate Matching(p: Option<Pattern>, s: string) { p.Some? && p.value(s) }

  // ------------------------------------------------------- what rules mean

  predicate NameListed(lib: Library, names: seq<string>, name: string) {
    exists i :: 0 <= i < |names| && lib.equalFold(names[i], name)
  }

  predicate PortListed(ranges: seq<PortRange>, port: nat) {
    exists i :: 0 <= i < |ranges| && ranges[i].min <= port <= ranges[i].max
  }

  predicate IpListed(nets: seq<Network>, ip: Ip) {
    exists i :: 0 <= i < |nets| && nets[i](ip)
  }

  predicate TunnelAllows(lib: Library, a: AllowTunnel, c: Claims) {
    && (|a.protocol| == 0 || NameListed(lib, a.protocol, ProtoName(c.protocol)))
    && (|a.port| == 0 || PortListed(a.port, c.port))
    && (a.host.None? || a.host.value(c.remote))
    && (|a.cidr| == 0 ||
        var ip := lib.parseIp(c.remote);
        if ip.Some? then IpListed(a.cidr, ip.value) else a.host.Some?)
  }

  predicate ReverseAllows(lib: Library, a: AllowReverse, c: Claims) {
    && (|a.protocol| == 0 || NameListed(lib, a.protocol, ProtoName(c.protocol)))
    && if ReverseUnix in c.protocol then a.unixPath.None? || a.unixPath.value(c.unixPath)
       else
         && (|a.port| == 0 || PortListed(a.port, c.port))
         && (|a.cidr| == 0 ||
             var ip := lib.parseIp(c.remote);
             ip.None? || IpListed(a.cidr, ip.value))
  }

  predicate AllowHit(lib: Library, a: AllowConfig, c: Claims) {
    if IsReverse(c) then a.reverse.Some? && ReverseAllows(lib, a.reverse.value, c)
    else a.tunnel.Some? && TunnelAllows(lib, a.tunnel.value, c)
  }

  predicate MatchHit(m: MatchConfig, path: string, auth: string, cn: string) {
    m.any || Matching(m.pathPrefix, path) || Matching(m.authorization, auth) || Matching(m.commonName, cn)
  }

  predicate SomeMatch(ms: seq<MatchConfig>, path: string, auth: string, cn: string) {
    exists i :: 0 <= i < |ms| && MatchHit(ms[i], path, auth, cn)
  }

  predicate SomeAllow(lib: Library, al: seq<AllowConfig>, c: Claims) {
    exists j :: 0 <= j < |al| && AllowHit(lib, al[j], c)
  }

  predicate Admits(lib: Library, r: Restriction, c: Claims, path: string, auth: string, cn: string) {
    SomeMatch(r.matches, path, auth, cn) && SomeAllow(lib, r.allow, c)
  }

  /** No rules admit everything; otherwise one rule must both match and allow. */
  predicate Valid(lib: Library, rules: seq<Restriction>, c: Claims, path: string, auth: string, cn: string) {
    |rules| == 0 || exists i :: 0 <= i < |rules| && Admits(lib, rules[i], c, path, auth, cn)
  }

  // --------------------------------------------------- the program's loops

  method FindName(lib: Library, names: seq<string>, name: string) returns (found: bool)
    ensures found <==> NameListed(lib, names, name)
  {
    found := false;
    for i := 0 to |names|
      invariant !found
      invariant forall j :: 0 <= j < i ==> !lib.equalFold(names[j], name)
    {
      if lib.equalFold(names[i], name) {
        found := true;
        break;
      }
    }
  }

  method FindPort(ranges: seq<PortRange>, port: nat) returns (found: bool)
    ensures found <==> PortListed(ranges, port)
  {
    found := false;
    for i := 0 to |ranges|
      invariant !found
      invariant forall j :: 0 <= j < i ==> !(ranges[j].min <= port <= ranges[j].max)
    {
      if port >= ranges[i].min && port <= ranges[i].max {
        found := true;
        break;
      }
    }
  }

  method FindIp(nets: seq<Network>, ip: Ip) returns (found: bool)
    ensures found <==> IpListed(nets, ip)
  {
    found := false;
    for i := 0 to |nets|
      invariant !found
      invariant forall j :: 0 <= j < i ==> !nets[j](ip)
    {
      if nets[i](ip) {
        found := true;
        break;
      }
    }
  }

  method AllowsTunnel(lib: Library, a: AllowTunnel, c: Claims) returns (ok: bool)
    ensures ok <==> TunnelAllows(lib, a, c)
  {
    if |a.protocol| > 0 {
      var found := FindName(lib, a.protocol, ProtoName(c.protocol));
      if !found { return false; }
    }
    if |a.port| > 0 {
      var found := FindPort(a.port, c.port);
      if !found { return false; }
    }
    if a.host.Some? && !a.host.value(c.remote) { return false; }
    if |a.cidr| > 0 {
      var ip := lib.parseIp(c.remote);
      if ip.Some? {
        var found := FindIp(a.cidr, ip.value);
        if !found { return false; }
      } else if a.host.None? {
        return false;
      }
    }
    return true;
  }

  method AllowsReverse(lib: Library, a: AllowReverse, c: Claims) returns (ok: bool)
    ensures ok <==> ReverseAllows(lib, a, c)
  {
    if |a.protocol| > 0 {
      var found := FindName(lib, a.protocol, ProtoName(c.protocol));
      if !found { return false; }
    }
    if ReverseUnix in c.protocol {
      if a.unixPath.Some? && !a.unixPath.value(c.unixPath) { return false; }
      return true;
    }
    if |a.port| > 0 {
      var found := FindPort(a.port, c.port);
      if !found { return false; }
    }
    if |a.cidr| > 0 {
      var ip := lib.parseIp(c.remote);
      if ip.Some? {
        var found := FindIp(a.cidr, ip.value);
        if !found { return false; }
      }
    }
    return true;
  }

  method Matches(r: Restriction, path: string, auth: string, cn: string) returns (ok: bool)
    ensures ok <==> SomeMatch(r.matches, path, auth, cn)
  {
    for i := 0 to |r.matches|
      invariant forall j :: 0 <= j < i ==> !MatchHit(r.matches[j], path, auth, cn)
    {
      var m := r.matches[i];
      if m.any { return true; }
      if m.pathPrefix.Some? && m.pathPrefix.value(path) { return true; }
      if m.authorization.Some? && m.authorization.value(auth) { return true; }
      if m.commonName.Some? && m.commonName.value(cn) { return true; }
    }
    return false;
  }

  method Allows(lib: Library, r: Restriction, c: Claims) returns (ok: bool)
    ensures ok <==> SomeAllow(lib, r.allow, c)
  {
    for i := 0 to |r.allow|
      invariant forall j :: 0 <= j < i ==> !AllowHit(lib, r.allow[j], c)
    {
      var a := r.allow[i];
      if IsReverse(c) && a.reverse.Some? {
        var hit := AllowsReverse(lib, a.reverse.value, c);
        if hit { return true; }
      } else if !IsReverse(c) && a.tunnel.Some? {
        var hit := AllowsTunnel(lib, a.tunnel.value, c);
        if hit { return true; }
      }
    }
    return false;
  }

  method Validate(lib: Library, rules: seq<Restriction>, c: Claims, path: string, auth: string, cn: string)
    returns (ok: bool)
    ensures ok <==> Valid(lib, rules, c, path, auth, cn)
  {
    if |rules| == 0 { return true; }
    for i := 0 to |rules|
      invariant forall j :: 0 <= j < i ==> !Admits(lib, rules[j], c, path, auth, cn)
    {
      var matched := Matches(rules[i], path, auth, cn);
      if matched {
        var allowed := Allows(lib, rules[i], c);
        if allowed { return true; }
      }
    }
    return false;
  }

  // -------------------------------------------------- compiling the flags

  function TrimSlash(p: string): string { if |p| > 0 && p[0] == '/' then p[1..] else p }

  function CompilePrefix(lib: Library, p: string): Option<Pattern> { lib.compile("^/" + TrimSlash(p)) }

  /** An entry that does not split is skipped; the port's parse error is dropped. */
  predicate TargetIs(lib: Library, entry: string, remote: string, port: nat) {
    var hp := lib.splitHostPort(entry);
    hp.Some? && hp.value.0 == remote && TunnelSpecs.ParsePort(hp.value.1) == port
  }

  function HostAllow(host: string, port: nat): AllowConfig {
    AllowConfig(Some(AllowTunnel([], [PortRange(port, port)], Some(s => s == host), [])), None)
  }

  const ANY: MatchConfig := MatchConfig(true, None, None, None)
  const ALL: AllowConfig := AllowConfig(Some(AllowTunnel([], [], None, [])), Some(AllowReverse([], [], [], None)))

  function PathMatch(re: Option<Pattern>): MatchConfig { MatchConfig(false, re, None, None) }

  /** A rule's matches: one for each prefix that compiles. */
  function PrefixMatches(lib: Library, prefixes: seq<string>): seq<MatchConfig> {
    if |prefixes| == 0 then []
    else
      var n := |prefixes| - 1;
      var re := CompilePrefix(lib, prefixes[n]);
      PrefixMatches(lib, prefixes[..n]) + if re.Some? then [PathMatch(re)] else []
  }

  /** A rule's allowances: one for each entry that splits. */
  function TargetAllows(lib: Library, targets: seq<string>): seq<AllowConfig> {
    if |targets| == 0 then []
    else
      var n := |targets| - 1;
      var hp := lib.splitHostPort(targets[n]);
      TargetAllows(lib, targets[..n])
      + if hp.Some? then [HostAllow(hp.value.0, TunnelSpecs.ParsePort(hp.value.1))] else []
  }

  function Compiled(lib: Library, prefixes: seq<string>, targets: seq<string>): seq<Restriction> {
    if |prefixes| == 0 && |targets| == 0 then []
    else [Restriction(if |prefixes| > 0 then PrefixMatches(lib, prefixes) else [ANY],
                      if |targets| > 0 then TargetAllows(lib, targets) else [ALL])]
  }

  /** The rules a server uses: those of the file, or else the compiled flags. */
  method NewRules(lib: Library, file: Option<seq<Restriction>>, prefixes: seq<string>, targets: seq<string>)
    returns (rules: seq<Restriction>)
    ensures rules == if file.Some? then file.value else Compiled(lib, prefixes, targets)
  {
    if file.Some? { return file.value; }
    if |prefixes| == 0 && |targets| == 0 { return []; }
    var ms, al := [], [];
    if |prefixes| > 0 {
      for k := 0 to |prefixes|
        invariant ms == PrefixMatches(lib, prefixes[..k])
      {
        assert prefixes[..k + 1][..k] == prefixes[..k];
        var re := CompilePrefix(lib, prefixes[k]);
        if re.Some? {
          ms := ms + [PathMatch(re)];
        }
      }
      assert prefixes[..|prefixes|] == prefixes;
    } else {
      ms := [ANY];
    }
    if |targets| > 0 {
      for k := 0 to |targets|
        invariant al == TargetAllows(lib, targets[..k])
      {
        assert targets[..k + 1][..k] == targets[..k];
        var hp := lib.splitHostPort(targets[k]);
        if hp.Some? {
          al := al + [HostAllow(hp.value.0, TunnelSpecs.ParsePort(hp.value.1))];
        }
      }
      assert targets[..|targets|] == targets;
    } else {
      al := [ALL];
    }
    return [Restriction(ms, al)];
  }

  predicate SomePrefix(lib: Library, prefixes: seq<string>, path: string) {
    exists k :: 0 <= k < |prefixes| && Matching(CompilePrefix(lib, prefixes[k]), path)
  }

  predicate SomeTarget(lib: Library, targets: seq<string>, remote: string, port: nat) {
    exists k :: 0 <= k < |targets| && TargetIs(lib, targets[k], remote, port)
  }

  lemma {:induction false} PrefixMatchesMean(lib: Library, prefixes: seq<string>, path: string, auth: string, cn: string)
    ensures SomeMatch(PrefixMatches(lib, prefixes), path, auth, cn) <==> SomePrefix(lib, prefixes, path)
  {
    if |prefixes| > 0 {
      var n := |prefixes| - 1;
      var before, all := PrefixMatches(lib, prefixes[..n]), PrefixMatches(lib, prefixes);
      PrefixMatchesMean(lib, prefixes[..n], path, auth, cn);
      if SomePrefix(lib, prefixes[..n], path) {
        var i :| 0 <= i < |before| && MatchHit(before[i], path, auth, cn);
        assert MatchHit(all[i], path, auth, cn);
        var k :| 0 <= k < n && Matching(CompilePrefix(lib, prefixes[..n][k]), path);
        assert Matching(CompilePrefix(lib, prefixes[k]), path);
      } else if Matching(CompilePrefix(lib, prefixes[n]), path) {
        assert MatchHit(all[|before|], path, auth, cn);
      } else {
        assert forall i :: 0 <= i < |before| ==> all[i] == before[i];
        assert forall k :: 0 <= k < n ==> prefixes[..n][k] == prefixes[k];
      }
    }
  }

  /** The quoted, anchored host pattern and the one-port range: equality. */
  lemma HostAllowMeans(lib: Library, host: string, port: nat, c: Claims)
    ensures AllowHit(lib, HostAllow(host, port), c) <==> !IsReverse(c) && c.remote == host && c.port == port
  {
    assert [PortRange(port, port)][0] == PortRange(port, port);
  }

  lemma {:induction false} TargetAllowsMean(lib: Library, targets: seq<string>, c: Claims)
    ensures SomeAllow(lib, TargetAllows(lib, targets), c) <==>
              !IsReverse(c) && SomeTarget(lib, targets, c.remote, c.port)
  {
    if |targets| > 0 {
      var n := |targets| - 1;
      var before, all := TargetAllows(lib, targets[..n]), TargetAllows(lib, targets);
      TargetAllowsMean(lib, targets[..n], c);
      var hp := lib.splitHostPort(targets[n]);
      if hp.Some? { HostAllowMeans(lib, hp.value.0, TunnelSpecs.ParsePort(hp.value.1), c); }
      if SomeTarget(lib, targets[..n], c.remote, c.port) {
        var k :| 0 <= k < n && TargetIs(lib, targets[..n][k], c.remote, c.port);
        assert TargetIs(lib, targets[k], c.remote, c.port);
      }
      if SomeAllow(lib, before, c) {
        var i :| 0 <= i < |before| && AllowHit(lib, before[i], c);
        assert AllowHit(lib, all[i], c);
      } else {
        assert forall i :: 0 <= i < |before| ==> all[i] == before[i];
        assert forall k :: 0 <= k < n ==> targets[..n][k] == targets[k];
        if hp.Some? { assert all[|before|] == HostAllow(hp.value.0, TunnelSpecs.ParsePort(hp.value.1)); }
      }
    }
  }

  /** Compiling the flags keeps their meaning, for every claim and path: some
      prefix flag that compiles matches, or there are none; and the claim is a
      forward one to a listed host and port, or none are listed. */
  lemma CompilingKeepsMeaning(lib: Library, prefixes: seq<string>, targets: seq<string>,
                              c: Claims, path: string, auth: string, cn: string)
    ensures Valid(lib, Compiled(lib, prefixes, targets), c, path, auth, cn) <==>
              && (|prefixes| == 0 ||
                  exists k :: 0 <= k < |prefixes|
                    && Matching(lib.compile("^/" + if |prefixes[k]| > 0 && prefixes[k][0] == '/' then prefixes[k][1..] else prefixes[k]), path))
              && (|targets| == 0 || (!IsReverse(c) && SomeTarget(lib, targets, c.remote, c.port)))
  {
    forall k | 0 <= k < |prefixes|
      ensures CompilePrefix(lib, prefixes[k]) ==
              lib.compile("^/" + if |prefixes[k]| > 0 && prefixes[k][0] == '/' then prefixes[k][1..] else prefixes[k])
    {
    }
    PrefixMatchesMean(lib, prefixes, path, auth, cn);
    TargetAllowsMean(lib, targets, c);
    assert MatchHit([ANY][0], path, auth, cn) && AllowHit(lib, [ALL][0], c);
    if |prefixes| > 0 || |targets| > 0 {
      var r := Compiled(lib, prefixes, targets)[0];
      assert Admits(lib, r, c, path, auth, cn) <==> SomeMatch(r.matches, path, auth, cn) && SomeAllow(lib, r.allow, c);
    }
  }

  // ------------------------------------------------------ single conditions

  /** The name of each protocol. */
  lemma ProtocolTable()
    ensures ProtoName({Tcp}) == "Tcp" && ProtoName({Udp}) == "Udp" && ProtoName({Socks5}) == "Socks5"
    ensures ProtoName({HttpProxy}) == "Http" && ProtoName({Unix}) == "Unix"
    ensures ProtoName({ReverseTcp}) == "ReverseTcp" && ProtoName({ReverseUdp}) == "ReverseUdp"
    ensures ProtoName({ReverseSocks5}) == "ReverseSocks5" && ProtoName({ReverseHttpProxy}) == "ReverseHttp"
    ensures ProtoName({ReverseUnix}) == "ReverseUnix"
    ensures ProtoName({Stdio}) == ProtoName({TProxyTcp}) == ProtoName({TProxyUdp}) == ProtoName({}) == "Unknown"
  {
  }

  /** A claim that sets a forward and a reverse protocol is judged as a reverse one
      under the forward one's name. */
  lemma MixedClaim(lib: Library, forward: Kind, back: Kind, a: AllowConfig, c: Claims)
    requires forward in {Tcp, Udp, Socks5, HttpProxy, Unix} && c.protocol == {forward, back}
    requires back in {ReverseTcp, ReverseUdp, ReverseSocks5, ReverseHttpProxy, ReverseUnix}
    ensures ProtoName(c.protocol) == ProtoName({forward})
    ensures AllowHit(lib, a, c) <==> a.reverse.Some? && ReverseAllows(lib, a.reverse.value, c)
  {
    assert forward in c.protocol && back in c.protocol;
  }

  /** Only a reverse protocol makes a claim a reverse one. */
  lemma OneWay(lib: Library, k: Kind, a: AllowConfig, c: Claims)
    requires c.protocol == {k}
    ensures k in {ReverseTcp, ReverseUdp, ReverseSocks5, ReverseHttpProxy, ReverseUnix} ==>
              (AllowHit(lib, a, c) <==> a.reverse.Some? && ReverseAllows(lib, a.reverse.value, c))
    ensures k !in {ReverseTcp, ReverseUdp, ReverseSocks5, ReverseHttpProxy, ReverseUnix} ==>
              (AllowHit(lib, a, c) <==> a.tunnel.Some? && TunnelAllows(lib, a.tunnel.value, c))
  {
    assert forall x :: x in c.protocol <==> x == k;
  }

  /** Each condition of a forward allowance by itself. */
  lemma TunnelConditions(lib: Library, c: Claims, name: string, lo: nat, hi: nat, host: Pattern, net: Network)
    ensures TunnelAllows(lib, AllowTunnel([], [], None, []), c)
    ensures TunnelAllows(lib, AllowTunnel([name], [], None, []), c) <==> lib.equalFold(name, ProtoName(c.protocol))
    ensures TunnelAllows(lib, AllowTunnel([], [PortRange(lo, hi)], None, []), c) <==> lo <= c.port <= hi
    ensures TunnelAllows(lib, AllowTunnel([], [], Some(host), []), c) <==> host(c.remote)
    ensures TunnelAllows(lib, AllowTunnel([], [], None, [net]), c) <==>
              lib.parseIp(c.remote).Some? && net(lib.parseIp(c.remote).value)
    ensures TunnelAllows(lib, AllowTunnel([], [], Some(host), [net]), c) <==>
              host(c.remote) && (lib.parseIp(c.remote).Some? ==> net(lib.parseIp(c.remote).value))
  {
    assert [name][0] == name && [PortRange(lo, hi)][0] == PortRange(lo, hi) && [net][0] == net;
  }

  /** And of a reverse one: a host that is no address passes the networks, and a
      Unix claim only has to pass the names and the path. */
  lemma ReverseConditions(lib: Library, c: Claims, name: string, lo: nat, hi: nat, path: Pattern, net: Network)
    ensures ReverseAllows(lib, AllowReverse([name], [], [], None), c) <==> lib.equalFold(name, ProtoName(c.protocol))
    ensures ReverseUnix !in c.protocol ==>
              && (ReverseAllows(lib, AllowReverse([], [PortRange(lo, hi)], [], Some(path)), c) <==> lo <= c.port <= hi)
              && (ReverseAllows(lib, AllowReverse([], [], [net], Some(path)), c) <==>
                    (lib.parseIp(c.remote).Some? ==> net(lib.parseIp(c.remote).value)))
    ensures ReverseUnix in c.protocol ==>
              (ReverseAllows(lib, AllowReverse([], [PortRange(lo, hi)], [net], Some(path)), c) <==> path(c.unixPath))
  {
    assert [name][0] == name && [PortRange(lo, hi)][0] == PortRange(lo, hi) && [net][0] == net;
  }

  /** Each kind of match looks at its own part of the request. */
  lemma MatchConditions(lib: Library, c: Claims, p: Pattern, path: string, auth: string, cn: string)
    ensures Valid(lib, [Restriction([MatchConfig(false, Some(p), None, None)], [ALL])], c, path, auth, cn) <==> p(path)
    ensures Valid(lib, [Restriction([MatchConfig(false, None, Some(p), None)], [ALL])], c, path, auth, cn) <==> p(auth)
    ensures Valid(lib, [Restriction([MatchConfig(false, None, None, Some(p))], [ALL])], c, path, auth, cn) <==> p(cn)
    ensures Valid(lib, [Restriction([MatchConfig(true, None, None, None)], [ALL])], c, path, auth, cn)
    ensures !Valid(lib, [Restriction([], [ALL])], c, path, auth, cn) && !Valid(lib, [Restriction([ANY], [])], c, path, auth, cn)
  {
    OneRule(lib, MatchConfig(false, Some(p), None, None), c, path, auth, cn);
    OneRule(lib, MatchConfig(false, None, Some(p), None), c, path, auth, cn);
    OneRule(lib, MatchConfig(false, None, None, Some(p)), c, path, auth, cn);
    OneRule(lib, MatchConfig(true, None, None, None), c, path, auth, cn);
  }

  lemma OneRule(lib: Library, m: MatchConfig, c: Claims, path: string, auth: string, cn: string)
    ensures Valid(lib, [Restriction([m], [ALL])], c, path, auth, cn) <==> MatchHit(m, path, auth, cn)
  {
    var r := Restriction([m], [ALL]);
    assert AllowHit(lib, [ALL][0], c) && [m][0] == m && [r][0] == r;
    assert Admits(lib, r, c, path, auth, cn) <==> MatchHit(m, path, auth, cn);
  }
}
