/** The periodic clean-up of what a node reports (go-backend/service/config_check.go). */
module ConfigCheck {
  import opened Text
  import opened Rows
  import opened Names

  datatype Db = Db(tunnels: seq<Tunnel>, forwards: seq<Forward>, userTunnels: seq<UserTunnel>)

  datatype Deletion = DeletePair(base: string) | DeleteRelay(base: string)

  function DeletedNames(d: Deletion): seq<string> {
    match d
    case DeletePair(base) => [TcpName(base), UdpName(base)]
    case DeleteRelay(base) => [RelayName(base)]
  }

  predicate OnNode(t: Tunnel, node: int) { t.inNodeId == node || t.outNodeId == node }

  /** The names one forward keeps alive on the node. */
  function KeptOn(uts: seq<UserTunnel>, f: Forward, t: Tunnel, node: int): seq<string> {
    (if t.inNodeId == node then KeptNames(BaseName(uts, f), f) else [])
    + (if t.outNodeId == node && t.kind == TUNNEL_FORWARD then [RelayName(BaseName(uts, f))] else [])
  }

  predicate Joined(db: Db, f: Forward, t: Tunnel, node: int) {
    t in db.tunnels && OnNode(t, node) && f in db.forwards && f.tunnelId == t.id
  }

  function ValidServices(db: Db, node: int): set<string> {
    set t, f, n | t in db.tunnels && f in db.forwards && Joined(db, f, t, node)
                  && n in KeptOn(db.userTunnels, f, t, node) :: n
  }

  function ValidChains(db: Db, node: int): set<string> {
    set t, f | t in db.tunnels && f in db.forwards && Joined(db, f, t, node) && t.inNodeId == node
        && t.kind == TUNNEL_FORWARD
      :: ChainName(BaseName(db.userTunnels, f))
  }

  lemma KeptPairs(base: string, f: Forward, b: string)
    ensures TcpName(b) in KeptNames(base, f) <==> UdpName(b) in KeptNames(base, f)
  {
    hide TcpName, UdpName, RelayName, Indexed, ListenIps, Split;
    var kept := KeptNames(base, f);
    if j :| 0 <= j < |kept| && (kept[j] == TcpName(b) || kept[j] == UdpName(b)) {
      SuffixesDiffer(b, base); SuffixesDiffer(base, b);
      if ',' in f.listenIp {
        assert j == 2 * (j / 2) || j == 2 * (j / 2) + 1;
        SuffixesDiffer(b, Indexed(base, j / 2)); SuffixesDiffer(Indexed(base, j / 2), b);
        assert kept[2 * (j / 2)] == TcpName(b) && kept[2 * (j / 2) + 1] == UdpName(b);
      }
    }
  }

  /** A kept tcp listener has its udp twin kept, so deleting by pairs is safe. */
  lemma ValidPairs(db: Db, node: int, b: string)
    ensures TcpName(b) in ValidServices(db, node) <==> UdpName(b) in ValidServices(db, node)
  {
    hide TcpName, UdpName, RelayName, KeptNames, BaseName;
    forall t, f | Joined(db, f, t, node)
      ensures TcpName(b) in KeptOn(db.userTunnels, f, t, node) <==> UdpName(b) in KeptOn(db.userTunnels, f, t, node)
    {
      var base := BaseName(db.userTunnels, f);
      KeptPairs(base, f, b);
      SuffixesDiffer(base, b);
    }
  }

  /** The deletion CleanNodeConfigs issues for one unwanted service; None for a name of another shape. */
  function DeletionFor(name: string): (d: Option<Deletion>)
    ensures d.Some? ==> name in DeletedNames(d.value)
  {
    if |name| >= 4 && name[|name| - 4..] == "_tls" then
      assert RelayName(name[..|name| - 4]) == name;
      Some(DeleteRelay(name[..|name| - 4]))
    else if |name| >= 4 && name[|name| - 4..] == "_tcp" then
      assert TcpName(name[..|name| - 4]) == name;
      Some(DeletePair(name[..|name| - 4]))
    else if |name| >= 4 && name[|name| - 4..] == "_udp" then
      assert UdpName(name[..|name| - 4]) == name;
      Some(DeletePair(name[..|name| - 4]))
    else None
  }

  lemma DeletionSparesValid(db: Db, node: int, name: string)
    requires name !in ValidServices(db, node) && DeletionFor(name).Some?
    ensures forall n | n in DeletedNames(DeletionFor(name).value) :: n !in ValidServices(db, node)
  {
    hide TcpName, UdpName, RelayName, ValidServices;
    match DeletionFor(name).value
    case DeletePair(base) => ValidPairs(db, node, base);
    case DeleteRelay(_) =>
  }

  /** The inner loop of BuildValidSets: what the forwards of one tunnel keep. */
  method KeepForwards(uts: seq<UserTunnel>, forwards: seq<Forward>, t: Tunnel, node: int)
    returns (services: set<string>, chains: set<string>)
    ensures services == set f, n | f in forwards && f.tunnelId == t.id && n in KeptOn(uts, f, t, node) :: n
    ensures chains == set f | f in forwards && f.tunnelId == t.id && t.inNodeId == node && t.kind == TUNNEL_FORWARD
                      :: ChainName(BaseName(uts, f))
  {
    hide KeptOn, BaseName, ChainName;
    services, chains := {}, {};
    for j := 0 to |forwards|
      invariant services == set f, n | f in forwards[..j] && f.tunnelId == t.id && n in KeptOn(uts, f, t, node) :: n
      invariant chains == set f | f in forwards[..j] && f.tunnelId == t.id && t.inNodeId == node
                  && t.kind == TUNNEL_FORWARD
                          :: ChainName(BaseName(uts, f))
    {
      var f := forwards[j];
      assert forwards[..j + 1] == forwards[..j] + [f];
      if f.tunnelId == t.id {
        services := services + ToSet(KeptOn(uts, f, t, node));
        if t.inNodeId == node && t.kind == TUNNEL_FORWARD {
          chains := chains + {ChainName(BaseName(uts, f))};
        }
      }
    }
    assert forwards[..|forwards|] == forwards;
  }

  lemma OneMoreTunnel(db: Db, node: int, tunnels: seq<Tunnel>, t: Tunnel)
    ensures ValidServices(db.(tunnels := tunnels + [t]), node)
            == ValidServices(db.(tunnels := tunnels), node)
               + if OnNode(t, node)
                 then set f, n | f in db.forwards && f.tunnelId == t.id && n in KeptOn(db.userTunnels, f, t, node) :: n
                 else {}
    ensures ValidChains(db.(tunnels := tunnels + [t]), node)
            == ValidChains(db.(tunnels := tunnels), node)
               + if OnNode(t, node)
                 then set f | f in db.forwards && f.tunnelId == t.id && t.inNodeId == node && t.kind == TUNNEL_FORWARD
                        :: ChainName(BaseName(db.userTunnels, f))
                 else {}
  {
    hide KeptOn, BaseName, ChainName;
  }

  lemma NoTunnels(db: Db, node: int)
    ensures ValidServices(db.(tunnels := []), node) == {} && ValidChains(db.(tunnels := []), node) == {}
  {
    hide KeptOn, BaseName, ChainName;
  }

  method BuildValidSets(db: Db, node: int) returns (services: set<string>, chains: set<string>)
    ensures services == ValidServices(db, node) && chains == ValidChains(db, node)
  {
    hide KeptOn, BaseName, ChainName, ValidServices, ValidChains;
    services, chains := {}, {};
    NoTunnels(db, node);
    for i := 0 to |db.tunnels|
      invariant services == ValidServices(db.(tunnels := db.tunnels[..i]), node)
      invariant chains == ValidChains(db.(tunnels := db.tunnels[..i]), node)
    {
      var t := db.tunnels[i];
      assert db.tunnels[..i + 1] == db.tunnels[..i] + [t];
      OneMoreTunnel(db, node, db.tunnels[..i], t);
      if OnNode(t, node) {
        var ss, cs := KeepForwards(db.userTunnels, db.forwards, t, node);
        services, chains := services + ss, chains + cs;
      }
    }
    assert db.tunnels[..|db.tunnels|] == db.tunnels;
  }

  /** The commands of one clean-up, in the order of the report. */
  function Deletions(valid: set<string>, reported: seq<string>): (ds: seq<Deletion>)
    ensures forall d :: d in ds <==> exists n :: n in reported && n !in valid && DeletionFor(n) == Some(d)
  {
    if reported == [] then []
    else
      var n := reported[|reported| - 1];
      assert reported == reported[..|reported| - 1] + [n];
      Deletions(valid, reported[..|reported| - 1])
      + if n !in valid && DeletionFor(n).Some? then [DeletionFor(n).value] else []
  }

  /** No command names a service some forward keeps; every unwanted panel-shaped service is named by one. */
  method CleanServices(db: Db, node: int, reported: seq<string>) returns (commands: seq<Deletion>)
    ensures commands == Deletions(ValidServices(db, node), reported)
    ensures forall d, n | d in commands && n in DeletedNames(d) :: n !in ValidServices(db, node)
    ensures forall name | name in reported && name !in ValidServices(db, node) && DeletionFor(name).Some? ::
              exists d :: d in commands && name in DeletedNames(d)
  {
    hide TcpName, UdpName, RelayName, ValidServices, DeletionFor;
    var valid, _ := BuildValidSets(db, node);
    commands := [];
    for i := 0 to |reported|
      invariant commands == Deletions(valid, reported[..i])
    {
      assert reported[..i + 1][..i] == reported[..i];
      var name := reported[i];
      if name !in valid {
        var d := DeletionFor(name);
        if d.Some? {
          commands := commands + [d.value];
        } else {
          assert commands + [] == commands;
        }
      } else {
        assert commands + [] == commands;
      }
    }
    assert reported[..|reported|] == reported;
    forall d, n | d in commands && n in DeletedNames(d) ensures n !in valid {
      var name :| name in reported && name !in valid && DeletionFor(name) == Some(d);
      DeletionSparesValid(db, node, name);
    }
    forall name | name in reported && name !in valid && DeletionFor(name).Some?
      ensures exists d :: d in commands && name in DeletedNames(d)
    {
      assert DeletionFor(name).value in commands;
    }
  }

  function ChainBase(name: string): string {
    if |name| >= 7 && name[|name| - 7..] == "_chains" then name[..|name| - 7] else name
  }

  /** The chain is unwanted, and its deletion names a wanted one. */
  predicate Hits(db: Db, node: int, c: string) {
    c !in ValidChains(db, node) && ChainName(ChainBase(c)) in ValidChains(db, node)
  }

  /** The chain clean-up deletes what it names plus "_chains", so it removes a wanted chain
      exactly when the node reports a chain carrying that chain's bare base name. */
  method CleanChains(db: Db, node: int, reported: seq<string>) returns (deleted: seq<string>)
    ensures (exists c :: c in deleted && c in ValidChains(db, node))
            <==> exists c :: c in reported && Hits(db, node, c)
    ensures forall c | c in reported && c !in ValidChains(db, node) :: ChainName(ChainBase(c)) in deleted
  {
    hide ChainName, ChainBase, ValidChains;
    var _, valid := BuildValidSets(db, node);
    deleted := [];
    for i := 0 to |reported|
      invariant forall k | 0 <= k < i && reported[k] !in valid :: ChainName(ChainBase(reported[k])) in deleted
      invariant forall c | c in deleted :: exists k ::
                  0 <= k < i && reported[k] !in valid && c == ChainName(ChainBase(reported[k]))
    {
      if reported[i] !in valid {
        deleted := deleted + [ChainName(ChainBase(reported[i]))];
      }
    }
    forall c | c in deleted && c in valid ensures exists r :: r in reported && Hits(db, node, r) {
      var k :| 0 <= k < |reported| && reported[k] !in valid && c == ChainName(ChainBase(reported[k]));
      assert reported[k] in reported && Hits(db, node, reported[k]);
    }
    forall r | r in reported && Hits(db, node, r) ensures ChainName(ChainBase(r)) in deleted {
      var k :| 0 <= k < |reported| && reported[k] == r;
    }
  }

  lemma ChainBaseHazard(name: string)
    ensures ChainName(ChainBase(name)) != name <==> ChainBase(name) == name
  {
    if ChainBase(name) != name {
      assert name == name[..|name| - 7] + name[|name| - 7..];
    }
  }

  /** A reported chain that carries a forward's bare base name is unwanted, and its deletion takes the forward's
      chain. */
  lemma BareNameHitsChain(f: Forward, t: Tunnel)
    requires f.tunnelId == t.id && t.kind == TUNNEL_FORWARD
    ensures var db, c := Db([t], [f], []), BaseName([], f);
            c !in ValidChains(db, t.inNodeId) && ChainName(ChainBase(c)) in ValidChains(db, t.inNodeId)
  {
    var db, c := Db([t], [f], []), BaseName([], f);
    assert t in db.tunnels && f in db.forwards;
    BaseIsNoChain(f);
    hide BaseName, ChainBase;
    assert ValidChains(db, t.inNodeId) == {ChainName(c)};
    assert |ChainName(c)| > |c|;
  }

  lemma BaseIsNoChain(f: Forward)
    ensures ChainBase(BaseName([], f)) == BaseName([], f)
  {
    var c := BaseName([], f);
    var last := Itoa(0);
    assert c[|c| - 1] == last[|last| - 1] && IsDigit(last[|last| - 1]);
    if |c| >= 7 {
      assert c[|c| - 7..][6] == c[|c| - 1] && "_chains"[6] == 's';
    }
  }

  /** A clean-up leaves every listener of a forward alone when the forward's list has two or more
      non-blank parts, or has no comma and governs. */
  lemma CleanUpKeepsForward(db: Db, node: int, f: Forward, t: Tunnel)
    requires Joined(db, f, t, node) && t.inNodeId == node
    requires if ',' in f.listenIp then |ListenIps(f.listenIp)| >= 2 else ListenGoverned(f, t)
    ensures forall n | n in AddedNames(BaseName(db.userTunnels, f), f, t) :: n in ValidServices(db, node)
  {
    hide TcpName, UdpName, RelayName, KeptNames, BaseName, AddedNames, ListenIps, ListenGoverned;
    KeptNamesCover(BaseName(db.userTunnels, f), f, t);
    forall n | n in AddedNames(BaseName(db.userTunnels, f), f, t) ensures n in ValidServices(db, node) {
      assert n in KeptNames(BaseName(db.userTunnels, f), f);
      assert n in KeptOn(db.userTunnels, f, t, node);
    }
  }
}
