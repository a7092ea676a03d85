/** How the panel names the services and chains of a forward
    (go-backend/pkg/gost.go, go-backend/service/forward.go). */
module Names {
  import opened Text
  import opened Rows

  // ---------------------------------------------------------------- building names

  function ServiceName(forwardId: int, userId: int, userTunnelId: int): string {
    Itoa(forwardId) + "_" + Itoa(userId) + "_" + Itoa(userTunnelId)
  }

  /** The id of the user's first row on the tunnel, 0 when there is none. */
  function UserTunnelId(rows: seq<UserTunnel>, userId: int, tunnelId: int): int {
    if rows == [] then 0
    else if rows[0].userId == userId && rows[0].tunnelId == tunnelId then rows[0].id
    else UserTunnelId(rows[1..], userId, tunnelId)
  }

  function BaseName(uts: seq<UserTunnel>, f: Forward): string {
    ServiceName(f.id, f.userId, UserTunnelId(uts, f.userId, f.tunnelId))
  }

  function Indexed(base: string, i: nat): string { base + "_" + Itoa(i) }

  function ChainName(base: string): string { base + "_chains" }

  function TcpName(base: string): string { base + "_tcp" }

  function UdpName(base: string): string { base + "_udp" }

  function RelayName(base: string): string { base + "_tls" }

  function NonBlank(parts: seq<string>): seq<string> {
    if parts == [] then []
    else
      var p := Trim(parts[|parts| - 1]);
      NonBlank(parts[..|parts| - 1]) + if p == "" then [] else [p]
  }

  /** The listen addresses an address column stands for. */
  function ListenIps(addr: string): (ips: seq<string>)
    ensures |ips| >= 1
  {
    if ',' !in addr then [addr]
    else
      var ips := NonBlank(Split(addr, ','));
      if ips == [] then [addr] else ips
  }

  method SplitListenIPs(addr: string) returns (result: seq<string>)
    ensures result == ListenIps(addr)
  {
    hide Trim, Split;
    if ',' !in addr {
      return [addr];
    }
    var parts := Split(addr, ',');
    result := [];
    for k := 0 to |parts|
      invariant result == NonBlank(parts[..k])
    {
      assert parts[..k + 1][..k] == parts[..k];
      var p := Trim(parts[k]);
      if p != "" {
        result := result + [p];
      }
    }
    assert parts[..|parts|] == parts;
    if result == [] {
      return [addr];
    }
  }

  /** The names of the first k listen addresses' service pairs. */
  function Suffixed(base: string, k: nat): (names: seq<string>)
    ensures |names| == 2 * k
    ensures forall i :: 0 <= i < k ==>
      names[2 * i] == TcpName(Indexed(base, i)) && names[2 * i + 1] == UdpName(Indexed(base, i))
  {
    if k == 0 then [] else Suffixed(base, k - 1) + [TcpName(Indexed(base, k - 1)), UdpName(Indexed(base, k - 1))]
  }

  /** The listener names of a forward that listens on k addresses. */
  function GroupNames(base: string, k: nat): seq<string> {
    if k <= 1 then [TcpName(base), UdpName(base)] else Suffixed(base, k)
  }

  method BuildMultiIPServiceNames(name: string, listenIp: string) returns (names: seq<string>)
    ensures names == GroupNames(name, |ListenIps(listenIp)|)
  {
    hide TcpName, UdpName, Indexed, ListenIps;
    var ips := SplitListenIPs(listenIp);
    if |ips| <= 1 {
      return [TcpName(name), UdpName(name)];
    }
    names := [];
    for i := 0 to |ips|
      invariant names == Suffixed(name, i)
    {
      var suffixed := Indexed(name, i);
      names := names + [TcpName(suffixed), UdpName(suffixed)];
    }
  }

  // ---------------------------------------------------------------- service configurations

  datatype Forwarder = Forwarder(addrs: seq<string>, strategy: string)

  datatype MetaValue = Flag(b: bool) | Str(s: string)

  datatype ServiceConfig = ServiceConfig(
    name: string,
    addr: string,
    chain: Option<string>,
    forwarder: Option<Forwarder>,
    metadata: map<string, MetaValue>)

  function TrimAll(parts: seq<string>): (r: seq<string>)
    ensures |r| == |parts|
  {
    seq(|parts|, i requires 0 <= i < |parts| => Trim(parts[i]))
  }

  function BuildForwarder(remoteAddr: string, strategy: string): Forwarder {
    Forwarder(TrimAll(Split(remoteAddr, ',')), if strategy == "" then "fifo" else strategy)
  }

  function FormatListenAddr(ip: string, port: int): string {
    if ':' in ip then "[" + ip + "]:" + Itoa(port) else ip + ":" + Itoa(port)
  }

  function Config(name: string, addr: string, chain: string, kind: int, remoteAddr: string,
      strategy: string): ServiceConfig {
    ServiceConfig(name, addr,
                  if kind != PORT_FORWARD then Some(chain) else None,
                  if kind == PORT_FORWARD then Some(BuildForwarder(remoteAddr, strategy)) else None,
                  map[])
  }

  /** Cuts a trailing "_" and digits off, the way the multi-address builder recovers the chain's base name. */
  function StripIndex(name: string): string {
    var idx := LastIndexOf(name, '_');
    if idx > 0 && AllDigits(name[idx + 1..]) then name[..idx] else name
  }

  /** The tcp and udp services of one listen address. */
  function PairForIp(name: string, ip: string, port: int, kind: int, remoteAddr: string,
      strategy: string): (cs: seq<ServiceConfig>)
    ensures |cs| == 2
  {
    var addr, chain := FormatListenAddr(ip, port), ChainName(StripIndex(name));
    [Config(TcpName(name), addr, chain, kind, remoteAddr, strategy),
     Config(UdpName(name), addr, chain, kind, remoteAddr, strategy)]
  }

  function PerIp(base: string, ips: seq<string>, port: int, kind: int, remoteAddr: string,
      strategy: string): (cs: seq<ServiceConfig>)
    ensures |cs| == 2 * |ips|
  {
    if ips == [] then []
    else
      var i := |ips| - 1;
      PerIp(base, ips[..i], port, kind, remoteAddr, strategy)
      + PairForIp(Indexed(base, i), Trim(ips[i]), port, kind, remoteAddr, strategy)
  }

  /** The configurations AddService sends for a forward listening on the two addresses. */
  function ServiceConfigs(base: string, tcp: string, udp: string, port: int, kind: int, remoteAddr: string,
      strategy: string): seq<ServiceConfig> {
    var ips := ListenIps(tcp);
    if |ips| <= 1 then
      [Config(TcpName(base), FormatListenAddr(tcp, port), ChainName(base), kind, remoteAddr, strategy),
       Config(UdpName(base), FormatListenAddr(udp, port), ChainName(base), kind, remoteAddr, strategy)]
    else PerIp(base, ips, port, kind, remoteAddr, strategy)
  }

  method BuildServices(base: string, tcp: string, udp: string, port: int, kind: int, remoteAddr: string,
      strategy: string)
    returns (services: seq<ServiceConfig>)
    ensures services == ServiceConfigs(base, tcp, udp, port, kind, remoteAddr, strategy)
  {
    hide Config, PairForIp, FormatListenAddr, TcpName, UdpName, Indexed, ChainName, Trim;
    var ips := SplitListenIPs(tcp);
    services := [];
    if |ips| <= 1 {
      services := services
          + [Config(TcpName(base), FormatListenAddr(tcp, port), ChainName(base), kind, remoteAddr, strategy)];
      services := services
          + [Config(UdpName(base), FormatListenAddr(udp, port), ChainName(base), kind, remoteAddr, strategy)];
      return;
    }
    for i := 0 to |ips|
      invariant services == PerIp(base, ips[..i], port, kind, remoteAddr, strategy)
    {
      assert ips[..i + 1][..i] == ips[..i];
      services := services + PairForIp(Indexed(base, i), Trim(ips[i]), port, kind, remoteAddr, strategy);
    }
    assert ips[..|ips|] == ips;
  }

  function RelayConfig(base: string, port: int, remoteAddr: string, strategy: string): ServiceConfig {
    ServiceConfig(RelayName(base), ":" + Itoa(port), None, Some(BuildForwarder(remoteAddr, strategy)), map[])
  }

  // ---------------------------------------------------------------- the names a configuration list carries

  function NamesOf(cs: seq<ServiceConfig>): (ns: seq<string>)
    ensures |ns| == |cs| && forall i :: 0 <= i < |cs| ==> ns[i] == cs[i].name
  {
    seq(|cs|, i requires 0 <= i < |cs| => cs[i].name)
  }

  lemma {:induction false} PerIpNames(base: string, ips: seq<string>, port: int, kind: int, remoteAddr: string,
      strategy: string)
    ensures NamesOf(PerIp(base, ips, port, kind, remoteAddr, strategy)) == Suffixed(base, |ips|)
  {
    hide BuildForwarder, StripIndex, FormatListenAddr, Trim, Indexed, ChainName, TcpName, UdpName;
    if ips != [] {
      var i := |ips| - 1;
      PerIpNames(base, ips[..i], port, kind, remoteAddr, strategy);
    }
  }

  /** AddService registers exactly the names the multi-address name builder lists for the same address. */
  lemma ServiceConfigNames(base: string, tcp: string, udp: string, port: int, kind: int, remoteAddr: string,
      strategy: string)
    ensures NamesOf(ServiceConfigs(base, tcp, udp, port, kind, remoteAddr, strategy))
              == GroupNames(base, |ListenIps(tcp)|)
  {
    var ips := ListenIps(tcp);
    if |ips| > 1 {
      PerIpNames(base, ips, port, kind, remoteAddr, strategy);
    }
  }

  lemma StripIndexOfIndexed(base: string, i: nat)
    requires base != ""
    ensures StripIndex(Indexed(base, i)) == base
  {
    LastIndexOfJoin(base, '_', Itoa(i));
    var name := Indexed(base, i);
    assert name == base + ['_'] + Itoa(i);
    assert name[|base| + 1..] == Itoa(i) && name[..|base|] == base;
  }

  lemma {:induction false} PerIpChains(base: string, ips: seq<string>, port: int, kind: int, remoteAddr: string,
      strategy: string)
    requires base != "" && kind != PORT_FORWARD
    ensures forall c | c in PerIp(base, ips, port, kind, remoteAddr, strategy) :: c.chain == Some(ChainName(base))
  {
    hide BuildForwarder, StripIndex, FormatListenAddr, Trim, Indexed, ChainName, TcpName, UdpName;
    if ips != [] {
      var i := |ips| - 1;
      PerIpChains(base, ips[..i], port, kind, remoteAddr, strategy);
      StripIndexOfIndexed(base, i);
    }
  }

  /** Every service of a tunnel forward refers to the one chain AddChains creates for it. */
  lemma ChainsRecovered(base: string, tcp: string, udp: string, port: int, kind: int, remoteAddr: string,
      strategy: string)
    requires base != "" && kind != PORT_FORWARD
    ensures forall c | c in ServiceConfigs(base, tcp, udp, port, kind, remoteAddr, strategy) ::
              c.chain == Some(ChainName(base))
  {
    hide BuildForwarder, FormatListenAddr, Trim, ChainName, TcpName, UdpName, PerIp, ListenIps;
    PerIpChains(base, ListenIps(tcp), port, kind, remoteAddr, strategy);
  }

  // ---------------------------------------------------------------- decoding names

  /** The forward id the clean-up reads off a service name; None for a name the panel did not build. */
  function ForwardIdOf(name: string): Option<int> {
    var parts := Split(name, '_');
    if |parts| < 3 then None else ParseInt(parts[0])
  }

  predicate IsId(n: int) { -MAX_INT64 - 1 <= n <= MAX_INT64 }

  lemma NameDecodes(forwardId: int, userId: int, userTunnelId: int, suffix: string)
    requires IsId(forwardId)
    ensures ForwardIdOf(ServiceName(forwardId, userId, userTunnelId) + suffix) == Some(forwardId)
  {
    var tail := Itoa(userTunnelId) + suffix;
    var rest := Itoa(userId) + ['_'] + tail;
    assert ServiceName(forwardId, userId, userTunnelId) + suffix == Itoa(forwardId) + ['_'] + rest;
    SplitJoin(Itoa(forwardId), '_', rest);
    SplitJoin(Itoa(userId), '_', tail);
    ParseIntOfItoa(forwardId);
  }

  /** Every name a forward uses: its listeners on k addresses, its relay. */
  ghost predicate NameOf(uts: seq<UserTunnel>, f: Forward, name: string) {
    name == RelayName(BaseName(uts, f)) || exists k: nat :: name in GroupNames(BaseName(uts, f), k)
  }

  /** A suffix that ends a panel name: not blank at its end. */
  predicate Ending(suffix: string) {
    suffix != "" && !IsSpace(suffix[|suffix| - 1])
  }

  lemma PairExtends(base: string, mid: string, name: string)
    requires name == TcpName(base + mid) || name == UdpName(base + mid)
    ensures exists suffix :: name == base + suffix && Ending(suffix)
  {
    var suffix := if name == TcpName(base + mid) then mid + "_tcp" else mid + "_udp";
    assert name == base + suffix && suffix[|suffix| - 1] == 'p';
    assert Ending(suffix);
  }

  lemma GroupExtends(base: string, k: nat, name: string)
    requires name in GroupNames(base, k)
    ensures exists suffix :: name == base + suffix && Ending(suffix)
  {
    hide TcpName, UdpName, Ending;
    if k <= 1 {
      assert base + "" == base;
      PairExtends(base, "", name);
    } else {
      var j :| 0 <= j < |Suffixed(base, k)| && Suffixed(base, k)[j] == name;
      assert j == 2 * (j / 2) || j == 2 * (j / 2) + 1;
      assert Indexed(base, j / 2) == base + ("_" + Itoa(j / 2));
      PairExtends(base, "_" + Itoa(j / 2), name);
    }
  }

  lemma RelayExtends(base: string)
    ensures exists suffix :: RelayName(base) == base + suffix && Ending(suffix)
  {
    assert Ending("_tls");
  }

  lemma BaseNameStart(forwardId: int, userId: int, userTunnelId: int)
    ensures ServiceName(forwardId, userId, userTunnelId) != ""
    ensures !IsSpace(ServiceName(forwardId, userId, userTunnelId)[0])
  {
    assert ServiceName(forwardId, userId, userTunnelId)[0] == Itoa(forwardId)[0];
  }

  /** Splitting any name of a forward on "_" gives the forward's id back, and the node's TrimSpace keeps the name. */
  lemma NameOfForward(uts: seq<UserTunnel>, f: Forward, name: string)
    requires IsId(f.id) && NameOf(uts, f, name)
    ensures ForwardIdOf(name) == Some(f.id)
    ensures name != "" && Trim(name) == name
  {
    hide ServiceName, ForwardIdOf, GroupNames, RelayName, Trim, IsSpace, UserTunnelId;
    var base := BaseName(uts, f);
    if name == RelayName(base) {
      RelayExtends(base);
    } else {
      var k: nat :| name in GroupNames(base, k);
      GroupExtends(base, k, name);
    }
    var suffix :| name == base + suffix && Ending(suffix);
    NameDecodes(f.id, f.userId, UserTunnelId(uts, f.userId, f.tunnelId), suffix);
    BaseNameStart(f.id, f.userId, UserTunnelId(uts, f.userId, f.tunnelId));
    assert name[0] == base[0] && name[|name| - 1] == suffix[|suffix| - 1];
    TrimOfTight(name);
  }

  /** Two forwards never share a service name. */
  lemma DistinctForwardsDistinctNames(uts: seq<UserTunnel>, f: Forward, g: Forward, name: string)
    requires IsId(f.id) && IsId(g.id) && f.id != g.id
    requires NameOf(uts, f, name)
    ensures !NameOf(uts, g, name)
  {
    NameOfForward(uts, f, name);
    if NameOf(uts, g, name) {
      NameOfForward(uts, g, name);
      assert false;
    }
  }

  predicate NoDup<T(==)>(s: seq<T>) {
    forall i, j :: 0 <= i < j < |s| ==> s[i] != s[j]
  }

  lemma SuffixesDiffer(a: string, b: string)
    ensures TcpName(a) != UdpName(b) && RelayName(a) != TcpName(b) && RelayName(a) != UdpName(b)
    ensures TcpName(a) == TcpName(b) ==> a == b
    ensures UdpName(a) == UdpName(b) ==> a == b
  {
    var t, u, r := TcpName(a), UdpName(b), RelayName(a);
    assert t[|t| - 2] == 'c' && u[|u| - 2] == 'd' && u[|u| - 1] == 'p' && r[|r| - 1] == 's';
    assert TcpName(b)[|TcpName(b)| - 1] == 'p';
    assert TcpName(a)[..|a|] == a && TcpName(b)[..|b|] == b;
    assert UdpName(a)[..|a|] == a && UdpName(b)[..|b|] == b;
  }

  lemma IndexedInjective(base: string, i: nat, j: nat)
    requires Indexed(base, i) == Indexed(base, j)
    ensures i == j
  {
    assert Itoa(i) == Indexed(base, i)[|base| + 1..] && Itoa(j) == Indexed(base, j)[|base| + 1..];
    ItoaInjective(i, j);
  }

  /** The names of one forward are pairwise different. */
  lemma GroupNoDup(base: string, k: nat)
    ensures NoDup(GroupNames(base, k))
    ensures RelayName(base) !in GroupNames(base, k)
  {
    hide TcpName, UdpName, RelayName, Indexed;
    var ns := GroupNames(base, k);
    if k <= 1 {
      SuffixesDiffer(base, base);
    } else {
      forall p, q | 0 <= p < q < |ns| ensures ns[p] != ns[q] {
        var i, j := p / 2, q / 2;
        assert (p == 2 * i || p == 2 * i + 1) && (q == 2 * j || q == 2 * j + 1);
        SuffixesDiffer(Indexed(base, i), Indexed(base, j));
        SuffixesDiffer(Indexed(base, j), Indexed(base, i));
        if Indexed(base, i) == Indexed(base, j) {
          IndexedInjective(base, i, j);
        }
      }
      forall p | 0 <= p < |ns| ensures ns[p] != RelayName(base) {
        assert p == 2 * (p / 2) || p == 2 * (p / 2) + 1;
        SuffixesDiffer(base, Indexed(base, p / 2));
      }
    }
  }

  // ---------------------------------------------------------------- the three users of the names

  /** The address that governs a forward's listeners: its own list, else its tunnel's. */
  function Governing(f: Forward, t: Tunnel): string {
    if f.listenIp != "" then f.listenIp else t.tcpListenAddr
  }

  /** What AddService registers. */
  function AddedNames(base: string, f: Forward, t: Tunnel): seq<string> {
    GroupNames(base, |ListenIps(Governing(f, t))|)
  }

  /** What Delete, Pause and Resume name. */
  function OperatedNames(base: string, f: Forward): seq<string> {
    if f.listenIp != "" && ',' in f.listenIp then GroupNames(base, |ListenIps(f.listenIp)|) else GroupNames(base, 1)
  }

  /** What CleanNodeConfigs keeps: one pair for every part of the list, blank ones included. */
  function KeptNames(base: string, f: Forward): seq<string> {
    if f.listenIp != "" && ',' in f.listenIp then Suffixed(base, |Split(f.listenIp, ',')|) else GroupNames(base, 1)
  }

  /** The forward's own address decides, or its tunnel lists a single one. */
  predicate ListenGoverned(f: Forward, t: Tunnel) {
    f.listenIp != "" || |ListenIps(t.tcpListenAddr)| <= 1
  }

  lemma LengthTellsNames(base: string, k: nat)
    ensures |GroupNames(base, k)| == 2 * (if k <= 1 then 1 else k)
  {
  }

  /** Delete, Pause and Resume address exactly the registered names, except for a forward
      that inherits a multi-address tunnel: then they address the wrong ones. */
  lemma OperatedNamesAgree(base: string, f: Forward, t: Tunnel)
    ensures AddedNames(base, f, t) == OperatedNames(base, f) <==> ListenGoverned(f, t)
  {
    LengthTellsNames(base, |ListenIps(Governing(f, t))|);
    LengthTellsNames(base, 1);
  }

  lemma {:induction false} NonBlankShorter(parts: seq<string>)
    ensures |NonBlank(parts)| <= |parts|
  {
    if parts != [] {
      NonBlankShorter(parts[..|parts| - 1]);
    }
  }

  lemma {:induction false} SuffixedPrefix(base: string, j: nat, k: nat)
    requires j <= k
    ensures forall n | n in Suffixed(base, j) :: n in Suffixed(base, k)
  {
    if j < k {
      SuffixedPrefix(base, j, k - 1);
    }
  }

  lemma PlainNameNotIndexed(base: string, i: nat)
    ensures TcpName(base) != TcpName(Indexed(base, i)) && UdpName(base) != UdpName(Indexed(base, i))
  {
    assert |Indexed(base, i)| > |base|;
  }

  lemma PlainNameNotSuffixed(base: string, k: nat)
    ensures TcpName(base) !in Suffixed(base, k) && UdpName(base) !in Suffixed(base, k)
  {
    hide TcpName, UdpName, Indexed;
    forall j | 0 <= j < 2 * k ensures Suffixed(base, k)[j] != TcpName(base) && Suffixed(base, k)[j] != UdpName(base) {
      assert j == 2 * (j / 2) || j == 2 * (j / 2) + 1;
      PlainNameNotIndexed(base, j / 2);
      SuffixesDiffer(base, Indexed(base, j / 2));
      SuffixesDiffer(Indexed(base, j / 2), base);
    }
  }

  /** CleanNodeConfigs keeps all of a forward's listeners exactly when its list has two or more
      non-blank parts, or has no comma and governs. */
  lemma KeptNamesCover(base: string, f: Forward, t: Tunnel)
    ensures (forall n | n in AddedNames(base, f, t) :: n in KeptNames(base, f))
            <==> if ',' in f.listenIp then |ListenIps(f.listenIp)| >= 2 else ListenGoverned(f, t)
  {
    var added, kept := AddedNames(base, f, t), KeptNames(base, f);
    if ',' in f.listenIp {
      NonBlankShorter(Split(f.listenIp, ','));
      if |ListenIps(f.listenIp)| >= 2 {
        SuffixedPrefix(base, |ListenIps(f.listenIp)|, |Split(f.listenIp, ',')|);
      } else {
        PlainNameNotSuffixed(base, |Split(f.listenIp, ',')|);
        assert added[0] !in kept;
      }
    } else if !ListenGoverned(f, t) {
      assert added[0] == TcpName(Indexed(base, 0));
      PlainNameNotIndexed(base, 0);
      SuffixesDiffer(Indexed(base, 0), base);
      assert added[0] !in kept;
    }
  }

  // ---------------------------------------------------------------- where the three disagree

  lemma NoSpaces()
    ensures Trim("a") == "a" && Trim("b") == "b" && Trim("") == ""
  {
    hide Trim;
    LettersAreTight();
    TrimOfTight("a");
    TrimOfTight("b");
    TrimOfTight("");
  }

  lemma LettersAreTight()
    ensures Tight("a") && Tight("b") && Tight("")
  {
  }

  lemma CommaAt()
    ensures "a,b" == "a" + [','] + "b" && "a," == "a" + [','] + ""
    ensures ',' in "a,b" && ',' in "a," && ',' !in "a" && ',' !in "b" && ',' !in ""
  {
    assert "a,b"[1] == ',' && "a,"[1] == ',';
  }

  lemma NonBlankPair(p: string, q: string)
    requires Trim(p) == p && Trim(q) == q && p != ""
    ensures NonBlank([p, q]) == if q == "" then [p] else [p, q]
  {
    hide Trim;
    assert [p, q][..1] == [p] && [p][..0] == [];
    assert NonBlank([p]) == [p];
  }

  lemma TwoParts()
    ensures Split("a,b", ',') == ["a", "b"] && ListenIps("a,b") == ["a", "b"]
  {
    hide Trim, NonBlank;
    NoSpaces();
    CommaAt();
    SplitJoin("a", ',', "b");
    NonBlankPair("a", "b");
  }

  lemma OnePart()
    ensures Split("a,", ',') == ["a", ""] && ListenIps("a,") == ["a"]
  {
    hide Trim, NonBlank;
    NoSpaces();
    CommaAt();
    SplitJoin("a", ',', "");
    NonBlankPair("a", "");
  }

  /** A forward without a listen list on a tunnel with two addresses: it listens under indexed names, and delete,
      pause and resume name plain ones. */
  lemma InheritedListIsMissed(base: string, f: Forward, t: Tunnel)
    requires f.listenIp == "" && t.tcpListenAddr == "a,b"
    ensures TcpName(Indexed(base, 0)) in AddedNames(base, f, t) && TcpName(Indexed(base, 0)) !in OperatedNames(base, f)
  {
    hide TcpName, UdpName, Indexed, ListenIps, Suffixed;
    TwoParts();
    PlainNameNotIndexed(base, 0);
    SuffixesDiffer(Indexed(base, 0), base);
    assert |ListenIps(Governing(f, t))| == 2;
    assert AddedNames(base, f, t) == Suffixed(base, 2);
    assert Suffixed(base, 2)[2 * 0] == TcpName(Indexed(base, 0));
    assert OperatedNames(base, f) == [TcpName(base), UdpName(base)];
  }

  /** A list of one address and a trailing comma: it listens under plain names, and the clean-up keeps indexed ones. */
  lemma TrailingCommaIsNotKept(base: string, f: Forward, t: Tunnel)
    requires f.listenIp == "a,"
    ensures TcpName(base) in AddedNames(base, f, t) && TcpName(base) !in KeptNames(base, f)
  {
    hide TcpName, UdpName, Indexed;
    OnePart();
    PlainNameNotSuffixed(base, 2);
    CommaAt();
    assert AddedNames(base, f, t)[0] == TcpName(base);
  }
}
