/** What the panel asks a node for, told by the text of names and addresses: which forward a name belongs to, where a
    service listens, whose chain it uses and where it forwards to (go-backend/pkg/gost.go). */
module ServiceShapes {
  import opened Text
  import opened Filters
  import opened Rows
  import opened Names
  import Address

  // ---------------------------------------------------------------- texts

  /** The parts with the separator between them. */
  function Join(parts: seq<string>, c: char): string
    requires parts != []
  {
    if |parts| == 1 then parts[0] else parts[0] + [c] + Join(parts[1..], c)
  }

  /** Splitting finds the parts that were joined. */
  lemma {:induction false} SplitMeans(s: string, c: char)
    ensures Join(Split(s, c), c) == s && forall p | p in Split(s, c) :: c !in p
    decreases |s|
  {
    hide Join, IndexFrom;
    var i := IndexOf(s, c);
    if i >= 0 {
      SplitMeans(s[i + 1..], c);
      JoinMore(s[..i], Split(s[i + 1..], c), c);
      assert s == s[..i] + [c] + s[i + 1..];
    } else {
      JoinOne(s, c);
    }
  }

  lemma JoinOne(p: string, c: char)
    ensures Join([p], c) == p
  {
  }

  lemma JoinMore(p: string, parts: seq<string>, c: char)
    requires parts != []
    ensures Join([p] + parts, c) == p + [c] + Join(parts, c)
  {
    assert ([p] + parts)[1..] == parts;
  }

  /** Trimming takes blanks off both ends and nothing else. */
  lemma TrimMeans(s: string) returns (a: string, b: string)
    ensures s == a + Trim(s) + b && (forall c | c in a + b :: IsSpace(c)) && Tight(Trim(s))
  {
    hide IsSpace;
    var k := SkipBlanks(s, 0);
    SkippedBlank(s, 0);
    var t := s[k..];
    var e := DropBlanks(t, |t|);
    DroppedBlank(t, |t|);
    a, b := s[..k], t[e..];
    assert t == t[..e] + t[e..] && s == s[..k] + t;
  }

  lemma {:induction false} SkippedBlank(s: string, i: nat)
    requires i <= |s|
    ensures forall j :: i <= j < SkipBlanks(s, i) ==> IsSpace(s[j])
    decreases |s| - i
  {
    hide IsSpace;
    if i < |s| && IsSpace(s[i]) {
      SkippedBlank(s, i + 1);
    }
  }

  lemma {:induction false} DroppedBlank(s: string, k: nat)
    requires k <= |s|
    ensures forall j :: DropBlanks(s, k) <= j < k ==> IsSpace(s[j])
  {
    hide IsSpace;
    if k > 0 && IsSpace(s[k - 1]) {
      DroppedBlank(s, k - 1);
    }
  }

  function NotBlank(): string -> bool { (p: string) => p != "" }

  lemma {:induction false} NonBlankMeans(parts: seq<string>)
    ensures Filtered(TrimAll(parts), NonBlank(parts), NotBlank())
  {
    hide Filtered, Trim;
    if parts == [] {
      NothingFiltered(NotBlank());
    } else {
      var rest, p := parts[..|parts| - 1], Trim(parts[|parts| - 1]);
      NonBlankMeans(rest);
      OneMoreFiltered(TrimAll(rest), NonBlank(rest), NotBlank(), p);
      assert TrimAll(parts) == TrimAll(rest) + [p];
      assert NonBlank(rest) + [] == NonBlank(rest);
    }
  }

  /** A listen text stands for its non-blank trimmed parts, or for itself when there are none or no comma. */
  lemma ListenMeans(addr: string)
    ensures ',' !in addr ==> ListenIps(addr) == [addr]
    ensures ',' in addr && (forall p | p in Split(addr, ',') :: Trim(p) == "") ==> ListenIps(addr) == [addr]
    ensures ',' in addr && (exists p :: p in Split(addr, ',') && Trim(p) != "") ==>
              Filtered(TrimAll(Split(addr, ',')), ListenIps(addr), NotBlank())
  {
    hide Trim, Split, Filtered;
    var parts := Split(addr, ',');
    NonBlankMeans(parts);
    if exists p :: p in parts && Trim(p) != "" {
      var p :| p in parts && Trim(p) != "";
      var i :| 0 <= i < |parts| && parts[i] == p;
      NotAllDropped(TrimAll(parts), NonBlank(parts), i);
    } else {
      forall i | 0 <= i < |parts| ensures TrimAll(parts)[i] == "" {
        assert parts[i] in parts;
      }
      AllDropped(TrimAll(parts), NonBlank(parts));
    }
  }

  lemma NotAllDropped(all: seq<string>, kept: seq<string>, i: nat)
    requires Filtered(all, kept, NotBlank()) && i < |all| && all[i] != ""
    ensures kept != []
  {
    var at: seq<nat> :| KeptAt(all, kept, NotBlank(), at);
    assert NotBlank()(all[i]);
    assert i in at;
  }

  lemma AllDropped(all: seq<string>, kept: seq<string>)
    requires Filtered(all, kept, NotBlank()) && forall i :: 0 <= i < |all| ==> all[i] == ""
    ensures kept == []
  {
    assert KeptAt(all, [], NotBlank(), []);
    FilteredOnce(all, kept, [], NotBlank());
  }

  // ---------------------------------------------------------------- names

  /** The parts of a listener's name: forward, user and user tunnel, on several addresses the index, then the
      protocol. */
  lemma NameParts(forwardId: int, userId: int, userTunnelId: int, i: nat)
    ensures var base, ids := ServiceName(forwardId, userId, userTunnelId),
                             [Itoa(forwardId), Itoa(userId), Itoa(userTunnelId)];
            && Split(TcpName(base), '_') == ids + ["tcp"] && Split(UdpName(base), '_') == ids + ["udp"]
            && Split(RelayName(base), '_') == ids + ["tls"] && Split(ChainName(base), '_') == ids + ["chains"]
            && Split(TcpName(Indexed(base, i)), '_') == ids + [Itoa(i), "tcp"]
            && Split(UdpName(Indexed(base, i)), '_') == ids + [Itoa(i), "udp"]
  {
    hide Itoa, Split;
    var base := ServiceName(forwardId, userId, userTunnelId);
    SplitIds(forwardId, userId, userTunnelId, "tcp");
    SplitIds(forwardId, userId, userTunnelId, "udp");
    SplitIds(forwardId, userId, userTunnelId, "tls");
    SplitIds(forwardId, userId, userTunnelId, "chains");
    SplitIds(forwardId, userId, userTunnelId, Itoa(i) + "_tcp");
    SplitIds(forwardId, userId, userTunnelId, Itoa(i) + "_udp");
    assert TcpName(base) == base + "_" + "tcp" && UdpName(base) == base + "_" + "udp";
    assert RelayName(base) == base + "_" + "tls" && ChainName(base) == base + "_" + "chains";
    assert TcpName(Indexed(base, i)) == base + "_" + (Itoa(i) + "_tcp");
    assert UdpName(Indexed(base, i)) == base + "_" + (Itoa(i) + "_udp");
    assert Itoa(i) + "_tcp" == Itoa(i) + "_" + "tcp" && Itoa(i) + "_udp" == Itoa(i) + "_" + "udp";
    SplitIndexed(i, "tcp");
    SplitIndexed(i, "udp");
    OnePartOnly("tcp"); OnePartOnly("udp"); OnePartOnly("tls"); OnePartOnly("chains");
  }

  lemma OnePartOnly(s: string)
    requires '_' !in s
    ensures Split(s, '_') == [s]
  {
  }

  lemma SplitIndexed(i: nat, kind: string)
    requires '_' !in kind
    ensures Split(Itoa(i) + "_" + kind, '_') == [Itoa(i), kind]
  {
    hide Itoa, Split;
    assert Itoa(i) + "_" + kind == Itoa(i) + ['_'] + kind;
    SplitJoin(Itoa(i), '_', kind);
    OnePartOnly(kind);
  }

  lemma SplitIds(forwardId: int, userId: int, userTunnelId: int, rest: string)
    ensures Split(ServiceName(forwardId, userId, userTunnelId) + "_" + rest, '_')
            == [Itoa(forwardId), Itoa(userId), Itoa(userTunnelId)] + Split(rest, '_')
  {
    hide Itoa, Split;
    var c := Itoa(userTunnelId) + ['_'] + rest;
    var b := Itoa(userId) + ['_'] + c;
    assert ServiceName(forwardId, userId, userTunnelId) + "_" + rest == Itoa(forwardId) + ['_'] + b;
    SplitJoin(Itoa(forwardId), '_', b);
    SplitJoin(Itoa(userId), '_', c);
    SplitJoin(Itoa(userTunnelId), '_', rest);
  }

  /** The user tunnel in a forward's names is the first one of its user on its tunnel, 0 when he has none there. */
  lemma {:induction false} UserTunnelMeans(rows: seq<UserTunnel>, userId: int, tunnelId: int)
    ensures var id := UserTunnelId(rows, userId, tunnelId);
            if exists r :: r in rows && r.userId == userId && r.tunnelId == tunnelId
            then exists k :: 0 <= k < |rows| && IsFirstRow(rows, userId, tunnelId, k) && rows[k].id == id
            else id == 0
  {
    if rows != [] {
      UserTunnelMeans(rows[1..], userId, tunnelId);
      if rows[0].userId == userId && rows[0].tunnelId == tunnelId {
        assert IsFirstRow(rows, userId, tunnelId, 0);
      } else if exists r :: r in rows && r.userId == userId && r.tunnelId == tunnelId {
        var r :| r in rows && r.userId == userId && r.tunnelId == tunnelId;
        assert r in rows[1..];
        var k :| 0 <= k < |rows| - 1 && IsFirstRow(rows[1..], userId, tunnelId, k)
                 && rows[1..][k].id == UserTunnelId(rows, userId, tunnelId);
        assert IsFirstRow(rows, userId, tunnelId, k + 1);
      }
    }
  }

  ghost predicate IsFirstRow(rows: seq<UserTunnel>, userId: int, tunnelId: int, k: nat) {
    && k < |rows| && rows[k].userId == userId && rows[k].tunnelId == tunnelId
    && forall j :: 0 <= j < k ==> rows[j].userId != userId || rows[j].tunnelId != tunnelId
  }

  // ---------------------------------------------------------------- addresses and targets

  /** The address is that port on that host, which stands in brackets when it has colons of its own. */
  predicate ListensOn(addr: string, host: string, port: int) {
    addr == (if ':' in host then "[" + host + "]" else host) + ":" + Itoa(port)
  }

  /** The panel's own parser reads the host and the port back. */
  lemma ListenParses(addr: string, host: string, port: int)
    requires ListensOn(addr, host, port) && port >= 0
    ensures Address.ExtractIp(addr) == host <==> Address.Printable(host)
    ensures Address.Printable(host) ==> Address.ExtractPort(addr) == port
  {
    hide Itoa, Address.ExtractIp, Address.ExtractPort, Address.Printable;
    Address.RoundTrip(host, port);
    assert addr == Address.FormatRemoteAddr(host, port) by {
      assert "[" + host + "]" + ":" + Itoa(port) == Address.Bracketed(host, Itoa(port));
      assert host + ":" + Itoa(port) == Address.Plain(host, Itoa(port));
    }
  }

  /** The target is the comma-separated addresses without the blanks around them, tried in the strategy's order, the
      first that works when none is given. */
  ghost predicate Targets(fw: Option<Forwarder>, remoteAddr: string, strategy: string) {
    && fw.Some? && fw.value.strategy == (if strategy == "" then "fifo" else strategy)
    && exists raw: seq<string> :: raw != [] && Join(raw, ',') == remoteAddr && (forall p | p in raw :: ',' !in p)
                                  && |fw.value.addrs| == |raw|
                                  && forall i :: 0 <= i < |raw| ==> fw.value.addrs[i] == Trim(raw[i])
  }

  lemma ForwarderTargets(remoteAddr: string, strategy: string)
    ensures Targets(Some(BuildForwarder(remoteAddr, strategy)), remoteAddr, strategy)
  {
    hide Trim, Split;
    SplitMeans(remoteAddr, ',');
    var raw := Split(remoteAddr, ',');
    assert Join(raw, ',') == remoteAddr;
  }

  /** A listener of a forward: it forwards to the target itself, or through the forward's chain. */
  ghost predicate IsListener(c: ServiceConfig, name: string, host: string, port: int, kind: int, chain: string,
      remoteAddr: string, strategy: string)
  {
    && c.name == name && ListensOn(c.addr, host, port) && c.metadata == map[]
    && (kind == PORT_FORWARD ==> c.chain == None && Targets(c.forwarder, remoteAddr, strategy))
    && (kind != PORT_FORWARD ==> c.chain == Some(chain) && c.forwarder == None)
  }

  lemma ConfigIsListener(name: string, host: string, port: int, chain: string, kind: int, remoteAddr: string,
      strategy: string)
    ensures IsListener(Config(name, FormatListenAddr(host, port), chain, kind, remoteAddr, strategy), name, host, port,
              kind, chain, remoteAddr, strategy)
  {
    hide BuildForwarder, Targets, Itoa;
    ForwarderTargets(remoteAddr, strategy);
  }

  /** The i-th address of a list has a tcp and a udp listener of its own. */
  lemma {:induction false} PerIpListeners(base: string, ips: seq<string>, port: int, kind: int, remoteAddr: string,
      strategy: string, i: nat)
    requires base != "" && i < |ips|
    ensures var cs := PerIp(base, ips, port, kind, remoteAddr, strategy);
            && IsListener(cs[2 * i], TcpName(Indexed(base, i)), Trim(ips[i]), port, kind, ChainName(base), remoteAddr,
                 strategy)
            && IsListener(cs[2 * i + 1], UdpName(Indexed(base, i)), Trim(ips[i]), port, kind, ChainName(base),
                 remoteAddr, strategy)
  {
    hide Trim, Config, FormatListenAddr, IsListener, Indexed, TcpName, UdpName, ChainName, StripIndex;
    var k := |ips| - 1;
    if i < k {
      PerIpListeners(base, ips[..k], port, kind, remoteAddr, strategy, i);
    } else {
      StripIndexOfIndexed(base, k);
      ConfigIsListener(TcpName(Indexed(base, k)), Trim(ips[k]), port, ChainName(base), kind, remoteAddr, strategy);
      ConfigIsListener(UdpName(Indexed(base, k)), Trim(ips[k]), port, ChainName(base), kind, remoteAddr, strategy);
    }
  }

  /** The host that one of a forward's listeners has: on several addresses the i-th one for both protocols, on one
      address that of its protocol. */
  function HostOf(tcp: string, udp: string, i: nat, isTcp: bool): string
    requires i < |ListenIps(tcp)|
  {
    if |ListenIps(tcp)| > 1 then ListenIps(tcp)[i] else if isTcp then tcp else udp
  }

  function ListenerName(base: string, tcp: string, i: nat, isTcp: bool): string {
    var named := if |ListenIps(tcp)| > 1 then base + "_" + Itoa(i) else base;
    named + if isTcp then "_tcp" else "_udp"
  }

  /** What AddService sends: for every listen address a tcp and a udp listener, on the addresses and under the names
      above, and nothing else. */
  lemma ServicesAreListeners(base: string, tcp: string, udp: string, port: int, kind: int, remoteAddr: string,
      strategy: string)
    requires base != ""
    ensures var cs := ServiceConfigs(base, tcp, udp, port, kind, remoteAddr, strategy); var ips := ListenIps(tcp);
            && |cs| == 2 * |ips|
            && forall i :: 0 <= i < |ips| ==>
                 && IsListener(cs[2 * i], ListenerName(base, tcp, i, true), HostOf(tcp, udp, i, true), port, kind,
                      base + "_chains", remoteAddr, strategy)
                 && IsListener(cs[2 * i + 1], ListenerName(base, tcp, i, false), HostOf(tcp, udp, i, false), port, kind,
                      base + "_chains", remoteAddr, strategy)
  {
    hide Trim, Config, FormatListenAddr, IsListener, ListenIps, PerIp;
    var ips := ListenIps(tcp);
    if |ips| > 1 {
      forall i | 0 <= i < |ips|
        ensures var cs := ServiceConfigs(base, tcp, udp, port, kind, remoteAddr, strategy);
                && IsListener(cs[2 * i], ListenerName(base, tcp, i, true), HostOf(tcp, udp, i, true), port, kind,
                     base + "_chains", remoteAddr, strategy)
                && IsListener(cs[2 * i + 1], ListenerName(base, tcp, i, false), HostOf(tcp, udp, i, false), port, kind,
                     base + "_chains", remoteAddr, strategy) {
        PerIpListeners(base, ips, port, kind, remoteAddr, strategy, i);
        ListenIpsTight(tcp, i);
        assert ListenerName(base, tcp, i, true) == TcpName(Indexed(base, i));
        assert ListenerName(base, tcp, i, false) == UdpName(Indexed(base, i));
      }
    } else {
      ConfigIsListener(TcpName(base), tcp, port, ChainName(base), kind, remoteAddr, strategy);
      ConfigIsListener(UdpName(base), udp, port, ChainName(base), kind, remoteAddr, strategy);
    }
  }

  lemma ListenIpsTight(addr: string, i: nat)
    requires |ListenIps(addr)| > 1 && i < |ListenIps(addr)|
    ensures Trim(ListenIps(addr)[i]) == ListenIps(addr)[i]
  {
    hide Trim, Split;
    NonBlankTight(Split(addr, ','));
  }

  lemma {:induction false} NonBlankTight(parts: seq<string>)
    ensures forall p | p in NonBlank(parts) :: Trim(p) == p
  {
    hide Trim;
    if parts != [] {
      NonBlankTight(parts[..|parts| - 1]);
      TrimOfTight(Trim(parts[|parts| - 1]));
    }
  }

  /** The relay of a tunnel forward listens on every address of its node at its port and forwards to the target. */
  lemma RelayShape(base: string, port: int, remoteAddr: string, strategy: string)
    ensures var c := RelayConfig(base, port, remoteAddr, strategy);
            && c.name == base + "_tls" && c.addr == ":" + Itoa(port) && c.chain == None && c.metadata == map[]
            && Targets(c.forwarder, remoteAddr, strategy)
  {
    hide BuildForwarder, Targets, Itoa;
    ForwarderTargets(remoteAddr, strategy);
  }
}
