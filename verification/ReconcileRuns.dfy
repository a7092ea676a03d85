/** What pushing and pausing one forward does, to its own services and to no other. */
module ReconcileRuns {
  import opened Text
  import opened Rows
  import opened Names
  import opened NodeServices
  import opened ReconcileFrames
  import opened Reconcile
  import opened ReconcileGroups

  function MainNames(uts: seq<UserTunnel>, j: Job): seq<string> { AddedNames(BaseName(uts, j.f), j.f, j.t) }

  function RelayNames(uts: seq<UserTunnel>, j: Job): seq<string> { [RelayName(BaseName(uts, j.f))] }

  // ---------------------------------------------------------------- the names of one job

  lemma MainNamesOf(uts: seq<UserTunnel>, j: Job)
    requires IsId(j.f.id)
    ensures NamesOf(MainConfigs(uts, j)) == MainNames(uts, j) && MainConfigs(uts, j) != []
    ensures Plain(MainNames(uts, j)) && NoDup(MainNames(uts, j))
    ensures forall n | n in MainNames(uts, j) :: NameOf(uts, j.f, n)
    ensures forall u | u in MainUpdates(uts, j) ::
              NameOf(uts, j.f, u.name) && u.name != "" && Trim(u.name) == u.name && u.forwarder == Target(j.f)
  {
    hide Trim, BaseName, ListenIps, ServiceConfigs, TcpName, UdpName, RelayName;
    var base := BaseName(uts, j.f);
    var udp := if j.f.listenIp != "" then j.f.listenIp else j.t.udpListenAddr;
    ServiceConfigNames(base, Governing(j.f, j.t), udp, j.f.inPort, j.t.kind, j.f.remoteAddr, j.f.strategy);
    GroupNoDup(base, |ListenIps(Governing(j.f, j.t))|);
    LengthTellsNames(base, |ListenIps(Governing(j.f, j.t))|);
    assert |NamesOf(MainConfigs(uts, j))| == |MainConfigs(uts, j)|;
    forall n | n in MainNames(uts, j) ensures NameOf(uts, j.f, n) && n != "" && Trim(n) == n {
      NameOfForward(uts, j.f, n);
    }
    assert TcpName(base) in GroupNames(base, 1) && UdpName(base) in GroupNames(base, 1);
    NameOfForward(uts, j.f, TcpName(base));
    NameOfForward(uts, j.f, UdpName(base));
  }

  lemma RelayNamesOf(uts: seq<UserTunnel>, j: Job)
    requires IsId(j.f.id)
    ensures NamesOf(RelayConfigs(uts, j.f)) == RelayNames(uts, j) && RelayConfigs(uts, j.f) != []
    ensures Plain(RelayNames(uts, j)) && NoDup(RelayNames(uts, j))
    ensures forall n | n in RelayNames(uts, j) :: NameOf(uts, j.f, n)
    ensures forall u | u in RelayUpdates(uts, j.f) ::
              NameOf(uts, j.f, u.name) && u.name != "" && Trim(u.name) == u.name && u.forwarder == Target(j.f)
  {
    hide Trim, BaseName, RelayName;
    NameOfForward(uts, j.f, RelayName(BaseName(uts, j.f)));
  }

  predicate OneAddress(j: Job) { |ListenIps(Governing(j.f, j.t))| <= 1 }

  lemma UpdatesPlain(uts: seq<UserTunnel>, j: Job)
    requires IsId(j.f.id)
    ensures PlainUpdates(MainUpdates(uts, j)) && PlainUpdates(RelayUpdates(uts, j.f))
  {
    hide Trim, BaseName, TcpName, UdpName, RelayName, NameOf, MainConfigs, MainNames;
    MainNamesOf(uts, j);
    RelayNamesOf(uts, j);
    SuffixesDiffer(BaseName(uts, j.f), BaseName(uts, j.f));
  }

  lemma {:induction false} PerIpTargets(base: string, ips: seq<string>, port: int, remoteAddr: string, strategy: string)
    ensures forall c | c in PerIp(base, ips, port, PORT_FORWARD, remoteAddr, strategy) ::
              c.forwarder == Some(BuildForwarder(remoteAddr, strategy))
  {
    hide BuildForwarder, FormatListenAddr, Trim, TcpName, UdpName, Indexed, StripIndex, ChainName;
    if ips != [] {
      PerIpTargets(base, ips[..|ips| - 1], port, remoteAddr, strategy);
    }
  }

  /** Every listener of a port forward is configured with the panel's target. */
  lemma MainTargets(uts: seq<UserTunnel>, j: Job)
    requires j.t.kind == PORT_FORWARD
    ensures forall c | c in MainConfigs(uts, j) :: c.forwarder == Target(j.f)
    ensures forall u | u in MainUpdates(uts, j) :: u.forwarder == Target(j.f)
  {
    hide BuildForwarder, FormatListenAddr, Trim, ListenIps, BaseName, PerIp, TcpName, UdpName, ChainName;
    PerIpTargets(BaseName(uts, j.f), ListenIps(Governing(j.f, j.t)), j.f.inPort, j.f.remoteAddr, j.f.strategy);
  }

  /** The hot update of a port forward names its listeners when it has one address, and none of them when it has
      several. */
  lemma MainUpdateReach(uts: seq<UserTunnel>, j: Job)
    requires IsId(j.f.id)
    ensures OneAddress(j) ==> Own(MainConfigs(uts, j), MainUpdates(uts, j))
    ensures OneAddress(j) && j.t.kind == PORT_FORWARD ==>
              Exactly(MainUpdates(uts, j), MainNames(uts, j)) && !Foreign(MainNames(uts, j), MainUpdates(uts, j))
    ensures !OneAddress(j) ==> Foreign(MainNames(uts, j), MainUpdates(uts, j))
  {
    hide Trim, BaseName, ListenIps, ServiceConfigs, TcpName, UdpName, RelayName, NameOf;
    var base, k := BaseName(uts, j.f), |ListenIps(Governing(j.f, j.t))|;
    MainNamesOf(uts, j);
    if k > 1 {
      PlainNameNotSuffixed(base, k);
    } else if j.t.kind == PORT_FORWARD {
      MainTargets(uts, j);
      assert MainNames(uts, j) == [TcpName(base), UdpName(base)];
      assert MainUpdates(uts, j)[0].name == TcpName(base) && MainUpdates(uts, j)[1].name == UdpName(base);
      assert MainUpdates(uts, j)[0] in MainUpdates(uts, j) && MainUpdates(uts, j)[1] in MainUpdates(uts, j);
      assert MainNames(uts, j)[0] in MainNames(uts, j);
    }
  }

  lemma RelayUpdateReach(uts: seq<UserTunnel>, j: Job)
    requires IsId(j.f.id)
    ensures Own(RelayConfigs(uts, j.f), RelayUpdates(uts, j.f))
  {
    hide Trim, BaseName, RelayName, NameOf;
    RelayNamesOf(uts, j);
  }

  // ---------------------------------------------------------------- frames of a job

  lemma GroupFrame(s: NodeState, cs: seq<ServiceConfig>, updates: seq<ForwarderUpdate>, w: Wire, n: string)
    requires Plain(NamesOf(cs)) && n !in NamesOf(cs)
    requires forall u | u in updates :: u.name != n && Trim(u.name) == u.name
    ensures SameAt(s, SyncGroup(s, cs, updates, w).0, n)
  {
    hide Trim, Create, UpdateForwarder, TrimAll;
    TrimAllPlain(NamesOf(cs));
    CreateFrame(s, cs, w.opens, n);
    UpdateForwarderFrame(s, updates, w.accepts, n);
  }

  lemma GroupKeepsCovered(s: NodeState, cs: seq<ServiceConfig>, updates: seq<ForwarderUpdate>, w: Wire)
    requires Covered(s)
    ensures Covered(SyncGroup(s, cs, updates, w).0)
  {
    hide Create, UpdateForwarder;
    ExecKeepsCovered(s, CreateServices(cs, w.opens));
    ExecKeepsCovered(s, UpdateForwarders(updates, w.accepts));
  }

  /** Chains may come, and those there lead where they led. */
  ghost predicate Grown(chains: map<string, string>, chains': map<string, string>) {
    forall c | c in chains :: c in chains' && chains'[c] == chains[c]
  }

  /** The same nodes are connected, chains only grow, and the nodes agree on the name. */
  ghost predicate SitesAgree(sites: Sites, sites': Sites, n: string) {
    sites.Keys == sites'.Keys
    && forall id | id in sites ::
         SameAt(sites[id].node, sites'[id].node, n) && Grown(sites[id].chains, sites'[id].chains)
  }

  ghost predicate AllCovered(sites: Sites) { forall id | id in sites :: Covered(sites[id].node) }

  ghost predicate SameNodes(sites: Sites, sites': Sites) {
    sites.Keys == sites'.Keys && forall id | id in sites :: Grown(sites[id].chains, sites'[id].chains)
  }

  lemma SyncAtFrame(sites: Sites, id: int, cs: seq<ServiceConfig>, updates: seq<ForwarderUpdate>, w: Wire)
    requires Plain(NamesOf(cs)) && forall u | u in updates :: Trim(u.name) == u.name
    ensures SameNodes(sites, SyncAt(sites, id, cs, updates, w).0)
    ensures AllCovered(sites) ==> AllCovered(SyncAt(sites, id, cs, updates, w).0)
    ensures forall n | n !in NamesOf(cs) && forall u | u in updates :: u.name != n ::
              SitesAgree(sites, SyncAt(sites, id, cs, updates, w).0, n)
  {
    hide Trim, SyncGroup, SameAt;
    if id in sites {
      if Covered(sites[id].node) {
        GroupKeepsCovered(sites[id].node, cs, updates, w);
      }
      forall n | n !in NamesOf(cs) && forall u | u in updates :: u.name != n
        ensures SitesAgree(sites, SyncAt(sites, id, cs, updates, w).0, n)
      {
        GroupFrame(sites[id].node, cs, updates, w, n);
        SameAtReflexive(n);
      }
    } else {
      forall n ensures SitesAgree(sites, sites, n) { SameAtReflexive(n); }
    }
  }

  lemma SameAtReflexive(n: string)
    ensures forall s: NodeState :: SameAt(s, s, n)
  {
  }

  lemma PauseAtFrame(sites: Sites, id: int, names: seq<string>, d: Delivery)
    requires Plain(names)
    ensures SameNodes(sites, PauseAt(sites, id, names, d))
    ensures AllCovered(sites) ==> AllCovered(PauseAt(sites, id, names, d))
    ensures forall n | n !in names :: SitesAgree(sites, PauseAt(sites, id, names, d), n)
    ensures id in sites ==> PauseAt(sites, id, names, d)[id].node.registry.Keys == sites[id].node.registry.Keys
  {
    hide Trim, Pause, SameAt, TrimAll;
    TrimAllPlain(names);
    if id in sites {
      PauseEffect(sites[id].node, names);
      if Covered(sites[id].node) {
        ExecKeepsCovered(sites[id].node, PauseServices(names));
      }
    }
    forall n | n !in names ensures SitesAgree(sites, PauseAt(sites, id, names, d), n) {
      SameAtReflexive(n);
      if id in sites {
        PauseFrame(sites[id].node, names, n);
      }
    }
  }

  lemma AgreeTransitive(a: Sites, b: Sites, c: Sites, n: string)
    requires SitesAgree(a, b, n) && SitesAgree(b, c, n)
    ensures SitesAgree(a, c, n)
  {
  }

  lemma OperatedPlain(uts: seq<UserTunnel>, j: Job)
    requires IsId(j.f.id)
    ensures Plain(OperatedNames(BaseName(uts, j.f), j.f))
    ensures forall n | n in OperatedNames(BaseName(uts, j.f), j.f) :: NameOf(uts, j.f, n)
  {
    hide Trim, BaseName, ListenIps, TcpName, UdpName, RelayName;
    forall n | n in OperatedNames(BaseName(uts, j.f), j.f) ensures NameOf(uts, j.f, n) && n != "" && Trim(n) == n {
      NameOfForward(uts, j.f, n);
    }
  }

  /** Neither the chain nor the relay touches a name that is not the relay's. */
  lemma SyncRelayFrame(sites: Sites, uts: seq<UserTunnel>, j: Job, env: Env)
    requires IsId(j.f.id)
    ensures SameNodes(sites, SyncRelay(sites, uts, j, env).0)
    ensures AllCovered(sites) ==> AllCovered(SyncRelay(sites, uts, j, env).0)
    ensures forall n | n !in RelayNames(uts, j) :: SitesAgree(sites, SyncRelay(sites, uts, j, env).0, n)
  {
    hide Trim, WireOf, BaseName, NameOf, SyncAt, RelayConfigs, RelayUpdates, RelayNames, ChainName, SameAt, Covered,
         Plain, NoDup;
    RelayNamesOf(uts, j);
    NamesApart(uts, j);
    var chained := ChainAt(sites, j.t.inNodeId, ChainName(BaseName(uts, j.f)), ChainTarget(j),
        env.link(j.f.id, Relay, ChainVerb)).0;
    var relayed := SyncRelay(sites, uts, j, env).0;
    ChainFrame(sites, j.t.inNodeId, ChainName(BaseName(uts, j.f)), ChainTarget(j), env.link(j.f.id, Relay, ChainVerb));
    if relayed != chained && relayed != sites {
      SyncAtFrame(chained, j.t.outNodeId, RelayConfigs(uts, j.f), RelayUpdates(uts, j.f), WireOf(env, j.f.id, Relay));
      forall n | n !in RelayNames(uts, j) ensures SitesAgree(sites, relayed, n) {
        AgreeTransitive(sites, chained, relayed, n);
      }
    } else {
      forall n ensures SitesAgree(sites, sites, n) { SameAtReflexive(n); }
    }
  }

  lemma ChainFrame(sites: Sites, id: int, chain: string, addr: string, d: Delivery)
    ensures SameNodes(sites, ChainAt(sites, id, chain, addr, d).0)
    ensures AllCovered(sites) ==> AllCovered(ChainAt(sites, id, chain, addr, d).0)
    ensures forall n :: SitesAgree(sites, ChainAt(sites, id, chain, addr, d).0, n)
  {
    hide SameAt, Covered;
    forall n ensures SitesAgree(sites, ChainAt(sites, id, chain, addr, d).0, n) {
      SameAtReflexive(n);
    }
  }

  lemma SyncMainFrame(sites: Sites, uts: seq<UserTunnel>, j: Job, env: Env)
    requires IsId(j.f.id)
    ensures SameNodes(sites, SyncMain(sites, uts, j, env).0)
    ensures AllCovered(sites) ==> AllCovered(SyncMain(sites, uts, j, env).0)
    ensures forall n | !NameOf(uts, j.f, n) :: SitesAgree(sites, SyncMain(sites, uts, j, env).0, n)
  {
    hide Trim, WireOf, BaseName, NameOf, SyncAt, MainConfigs, MainUpdates, MainNames, SitesAgree, Covered, Plain, NoDup;
    MainNamesOf(uts, j);
    SyncAtFrame(sites, j.t.inNodeId, MainConfigs(uts, j), MainUpdates(uts, j), WireOf(env, j.f.id, Main));
  }

  lemma GentleSyncFrame(sites: Sites, uts: seq<UserTunnel>, j: Job, env: Env)
    requires IsId(j.f.id)
    ensures SameNodes(sites, GentleSync(sites, uts, j, env).0)
    ensures AllCovered(sites) ==> AllCovered(GentleSync(sites, uts, j, env).0)
    ensures forall n | !NameOf(uts, j.f, n) :: SitesAgree(sites, GentleSync(sites, uts, j, env).0, n)
  {
    hide NameOf, SyncRelay, SyncMain, RelayNames, SitesAgree, Covered, Plain, NoDup;
    RelayNamesOf(uts, j);
    var relayed := SyncRelay(sites, uts, j, env).0;
    SyncRelayFrame(sites, uts, j, env);
    SyncMainFrame(relayed, uts, j, env);
    forall n | !NameOf(uts, j.f, n) ensures SitesAgree(sites, GentleSync(sites, uts, j, env).0, n) {
      AgreeTransitive(sites, relayed, SyncMain(relayed, uts, j, env).0, n);
    }
  }

  lemma PauseJobFrame(sites: Sites, uts: seq<UserTunnel>, node: int, j: Job, env: Env)
    requires IsId(j.f.id)
    ensures SameNodes(sites, PauseJob(sites, uts, node, j, env))
    ensures AllCovered(sites) ==> AllCovered(PauseJob(sites, uts, node, j, env))
    ensures forall n | !NameOf(uts, j.f, n) :: SitesAgree(sites, PauseJob(sites, uts, node, j, env), n)
    ensures forall id | id in sites ::
              PauseJob(sites, uts, node, j, env)[id].node.registry.Keys == sites[id].node.registry.Keys
  {
    hide Trim, BaseName, NameOf, PauseAt, OperatedNames, RelayName, SameAt, Covered;
    OperatedPlain(uts, j);
    RelayNamesOf(uts, j);
    var base, d, e := BaseName(uts, j.f), env.link(j.f.id, Main, PauseVerb), env.link(j.f.id, Relay, PauseVerb);
    PauseAtFrame(sites, node, OperatedNames(base, j.f), d);
    PauseAtFrame(sites, node, [RelayName(base)], e);
    PauseAtFrame(PauseAt(sites, node, OperatedNames(base, j.f), d), node, [RelayName(base)], e);
    forall n | !NameOf(uts, j.f, n) ensures SitesAgree(sites, PauseJob(sites, uts, node, j, env), n) {
      SameAtReflexive(n);
      var main := PauseAt(sites, node, OperatedNames(base, j.f), d);
      assert n !in OperatedNames(base, j.f) && n !in [RelayName(base)];
      AgreeTransitive(sites, main, PauseAt(main, node, [RelayName(base)], e), n);
    }
    PauseAtKeys(sites, node, OperatedNames(base, j.f), d);
    PauseAtKeys(sites, node, [RelayName(base)], e);
    PauseAtKeys(PauseAt(sites, node, OperatedNames(base, j.f), d), node, [RelayName(base)], e);
  }

  lemma PauseAtKeys(sites: Sites, id: int, names: seq<string>, d: Delivery)
    ensures PauseAt(sites, id, names, d).Keys == sites.Keys
    ensures forall k | k in sites :: PauseAt(sites, id, names, d)[k].node.registry.Keys == sites[k].node.registry.Keys
  {
    hide Pause;
    if id in sites {
      PauseEffect(sites[id].node, names);
    }
  }

  lemma SyncJobFrame(sites: Sites, uts: seq<UserTunnel>, node: int, j: Job, env: Env)
    requires IsId(j.f.id)
    ensures SameNodes(sites, SyncJob(sites, uts, node, j, env))
    ensures AllCovered(sites) ==> AllCovered(SyncJob(sites, uts, node, j, env))
    ensures forall n | !NameOf(uts, j.f, n) :: SitesAgree(sites, SyncJob(sites, uts, node, j, env), n)
  {
    hide GentleSync, PauseJob, NameOf, SameAt, Covered;
    var mid := GentleSync(sites, uts, j, env).0;
    GentleSyncFrame(sites, uts, j, env);
    PauseJobFrame(mid, uts, node, j, env);
    forall n | !NameOf(uts, j.f, n) ensures SitesAgree(sites, SyncJob(sites, uts, node, j, env), n) {
      AgreeTransitive(sites, mid, PauseJob(mid, uts, node, j, env), n);
    }
  }

  // ---------------------------------------------------------------- what is said of one job

  /** Every command is carried out and answered, every listener opens, every forwarder is accepted. */
  ghost predicate AllAnswered(env: Env) {
    && (forall id, part, k :: env.opens(id, part, k) && env.accepts(id, part, k))
    && (forall id, part, verb :: env.link(id, part, verb) == Delivered)
    && env.listing == Delivered && env.deletion == Delivered
  }

  lemma WireAnswered(env: Env, id: int, part: Part)
    requires AllAnswered(env)
    ensures Answered(WireOf(env, id, part))
  {
  }

  /** The nodes of the forward are connected. */
  predicate Reachable(sites: Sites, j: Job) {
    j.t.inNodeId in sites && (j.t.kind == TUNNEL_FORWARD ==> j.t.outNodeId in sites)
  }

  ghost predicate MainThere(sites: Sites, uts: seq<UserTunnel>, j: Job)
    requires Reachable(sites, j)
  {
    AllRegistered(sites[j.t.inNodeId].node, MainNames(uts, j))
  }

  ghost predicate MainNone(sites: Sites, uts: seq<UserTunnel>, j: Job)
    requires Reachable(sites, j)
  {
    NoneThere(sites[j.t.inNodeId].node, MainNames(uts, j))
  }

  /** Some listener is registered, and so are the relay and the chain. */
  ghost predicate JobPushed(sites: Sites, uts: seq<UserTunnel>, j: Job) {
    && Reachable(sites, j) && !MainNone(sites, uts, j)
    && (j.t.kind == TUNNEL_FORWARD ==>
          && AllRegistered(sites[j.t.outNodeId].node, RelayNames(uts, j))
          && ChainName(BaseName(uts, j.f)) in sites[j.t.inNodeId].chains)
  }

  /** A hot update of the listeners and one of the relay would change nothing. */
  ghost predicate JobQuiet(sites: Sites, uts: seq<UserTunnel>, j: Job)
    requires Reachable(sites, j)
  {
    && Idle(sites[j.t.inNodeId].node, MainUpdates(uts, j))
    && (j.t.kind == TUNNEL_FORWARD ==> Idle(sites[j.t.outNodeId].node, RelayUpdates(uts, j.f)))
  }

  /** What can be checked before a run, and makes the next one leave the forward alone: the listeners are there, at
      least in part; or nothing still configured under their names forwards elsewhere, and for several addresses no
      plain listener is left over for the hot update to redirect. Likewise the relay. */
  ghost predicate SettlesAtOnce(sites: Sites, uts: seq<UserTunnel>, j: Job)
    requires Reachable(sites, j)
  {
    && (MainNone(sites, uts, j) ==>
          if OneAddress(j) then NoStale(sites[j.t.inNodeId].node, MainUpdates(uts, j))
          else Idle(sites[j.t.inNodeId].node, MainUpdates(uts, j)))
    && (j.t.kind == TUNNEL_FORWARD && NoneThere(sites[j.t.outNodeId].node, RelayNames(uts, j)) ==>
          NoStale(sites[j.t.outNodeId].node, RelayUpdates(uts, j.f)))
  }

  /** Nothing still configured under the listeners' names forwards elsewhere than to the panel's target. */
  ghost predicate MainUnstale(sites: Sites, uts: seq<UserTunnel>, j: Job)
    requires Reachable(sites, j)
  {
    Unstale(sites[j.t.inNodeId].node, MainNames(uts, j), Target(j.f))
  }

  /** The listeners forward to the panel's target. */
  ghost predicate MainAimed(sites: Sites, uts: seq<UserTunnel>, j: Job)
    requires Reachable(sites, j)
  {
    Aimed(sites[j.t.inNodeId].node, MainNames(uts, j), Target(j.f))
  }

  ghost predicate MainPaused(sites: Sites, uts: seq<UserTunnel>, j: Job)
    requires Reachable(sites, j)
  {
    PausedAt(sites[j.t.inNodeId].node, MainNames(uts, j))
  }

  ghost predicate RelayPaused(sites: Sites, uts: seq<UserTunnel>, j: Job)
    requires Reachable(sites, j) && j.t.kind == TUNNEL_FORWARD
  {
    PausedAt(sites[j.t.outNodeId].node, RelayNames(uts, j))
  }

  /** The pauses that a run of that node sends for the forward would change nothing. */
  ghost predicate PausesQuiet(sites: Sites, uts: seq<UserTunnel>, node: int, j: Job)
    requires Reachable(sites, j)
  {
    j.f.status == Paused ==>
      && (j.t.inNodeId == node ==> PauseQuiet(sites[j.t.inNodeId].node, OperatedNames(BaseName(uts, j.f), j.f)))
      && (j.t.kind == TUNNEL_FORWARD && j.t.outNodeId == node ==>
            PauseQuiet(sites[j.t.outNodeId].node, RelayNames(uts, j)))
  }

  /** What a run leads the forward from a to b, when it sends a pause for the listeners (main) or the relay. */
  ghost predicate Outcome(a: Sites, b: Sites, uts: seq<UserTunnel>, j: Job, main: bool, relay: bool) {
    && Reachable(a, j) && JobPushed(b, uts, j)
    && (MainThere(b, uts, j) <==> MainThere(a, uts, j) || MainNone(a, uts, j))
    && (JobQuiet(b, uts, j) <==> SettlesAtOnce(a, uts, j))
    && (MainPaused(b, uts, j) <==> (main && MainThere(b, uts, j)) || MainPaused(a, uts, j))
    && (j.t.kind == TUNNEL_FORWARD ==> (RelayPaused(b, uts, j) <==> relay || RelayPaused(a, uts, j)))
    && (j.t.kind == PORT_FORWARD ==>
          (MainAimed(b, uts, j) <==>
             || (MainNone(a, uts, j) && MainUnstale(a, uts, j))
             || (MainThere(a, uts, j) && (OneAddress(j) || MainAimed(a, uts, j)))))
  }

  /** The nodes of the forward agree on its names. */
  ghost predicate AgreeOn(a: Sites, b: Sites, uts: seq<UserTunnel>, j: Job) {
    && Reachable(a, j) && Reachable(b, j)
    && (forall n | NameOf(uts, j.f, n) :: SameAt(a[j.t.inNodeId].node, b[j.t.inNodeId].node, n))
    && (j.t.kind == TUNNEL_FORWARD ==>
          forall n | NameOf(uts, j.f, n) :: SameAt(a[j.t.outNodeId].node, b[j.t.outNodeId].node, n))
    && Grown(a[j.t.inNodeId].chains, b[j.t.inNodeId].chains)
  }

  lemma SitesAgreeOn(a: Sites, b: Sites, uts: seq<UserTunnel>, j: Job)
    requires SameNodes(a, b) && Reachable(a, j) && forall n | NameOf(uts, j.f, n) :: SitesAgree(a, b, n)
    ensures AgreeOn(a, b, uts, j)
  {
    hide NameOf, SameAt;
  }

  lemma JobNames(uts: seq<UserTunnel>, j: Job)
    requires IsId(j.f.id)
    ensures forall n | n in MainNames(uts, j) || n in RelayNames(uts, j)
              || n in OperatedNames(BaseName(uts, j.f), j.f) :: NameOf(uts, j.f, n)
    ensures forall u | u in MainUpdates(uts, j) || u in RelayUpdates(uts, j.f) :: NameOf(uts, j.f, u.name)
  {
    hide MainNames, MainUpdates, RelayUpdates, OperatedNames, Trim, TcpName, UdpName, BaseName;
    MainNamesOf(uts, j);
    RelayNamesOf(uts, j);
    OperatedPlain(uts, j);
  }

  /** What is said of a group depends on its own names. */
  lemma GroupAgree(s: NodeState, s': NodeState, names: seq<string>, target: Option<Forwarder>)
    requires forall n | n in names :: SameAt(s, s', n)
    ensures AllRegistered(s, names) <==> AllRegistered(s', names)
    ensures NoneThere(s, names) <==> NoneThere(s', names)
    ensures PausedAt(s, names) <==> PausedAt(s', names)
    ensures PauseQuiet(s, names) <==> PauseQuiet(s', names)
    ensures Aimed(s, names, target) <==> Aimed(s', names, target)
    ensures Unstale(s, names, target) <==> Unstale(s', names, target)
  {
    hide FirstEntry;
  }

  lemma AgreeFrame(a: Sites, b: Sites, uts: seq<UserTunnel>, node: int, j: Job)
    requires IsId(j.f.id) && AgreeOn(a, b, uts, j)
    ensures JobPushed(a, uts, j) ==> JobPushed(b, uts, j)
    ensures MainThere(a, uts, j) <==> MainThere(b, uts, j)
    ensures MainNone(a, uts, j) <==> MainNone(b, uts, j)
    ensures JobQuiet(a, uts, j) <==> JobQuiet(b, uts, j)
    ensures SettlesAtOnce(a, uts, j) <==> SettlesAtOnce(b, uts, j)
    ensures MainAimed(a, uts, j) <==> MainAimed(b, uts, j)
    ensures MainUnstale(a, uts, j) <==> MainUnstale(b, uts, j)
    ensures MainPaused(a, uts, j) <==> MainPaused(b, uts, j)
    ensures j.t.kind == TUNNEL_FORWARD ==> (RelayPaused(a, uts, j) <==> RelayPaused(b, uts, j))
    ensures PausesQuiet(a, uts, node, j) <==> PausesQuiet(b, uts, node, j)
  {
    hide NameOf, SameAt, Idle, NoStale, NoneThere, Unstale, PausedAt, PauseQuiet, Aimed, AllRegistered, MainNames,
         RelayNames, MainUpdates, RelayUpdates, OperatedNames, BaseName, ChainName, OneAddress, Target;
    JobNames(uts, j);
    var s, s' := a[j.t.inNodeId].node, b[j.t.inNodeId].node;
    GroupAgree(s, s', MainNames(uts, j), Target(j.f));
    GroupAgree(s, s', OperatedNames(BaseName(uts, j.f), j.f), Target(j.f));
    IdleFrame(s, s', MainUpdates(uts, j));
    if j.t.kind == TUNNEL_FORWARD {
      var r, r' := a[j.t.outNodeId].node, b[j.t.outNodeId].node;
      GroupAgree(r, r', RelayNames(uts, j), Target(j.f));
      IdleFrame(r, r', RelayUpdates(uts, j.f));
    }
  }

  /** An outcome stays one when other forwards are worked on before and after. */
  lemma OutcomeFrame(a: Sites, a': Sites, b: Sites, b': Sites, uts: seq<UserTunnel>, node: int, j: Job, main: bool,
      relay: bool)
    requires IsId(j.f.id) && AgreeOn(a, a', uts, j) && AgreeOn(b, b', uts, j) && Outcome(a', b, uts, j, main, relay)
    ensures Outcome(a, b', uts, j, main, relay)
  {
    hide AgreeOn, JobPushed, JobQuiet, SettlesAtOnce, MainThere, MainNone, MainPaused, RelayPaused, MainAimed,
         MainUnstale, PausesQuiet, OneAddress;
    AgreeReachable(a, a', uts, j);
    AgreeReachable(b, b', uts, j);
    AgreeFrame(a, a', uts, node, j);
    AgreeFrame(b, b', uts, node, j);
  }

  lemma AgreeReachable(a: Sites, b: Sites, uts: seq<UserTunnel>, j: Job)
    requires AgreeOn(a, b, uts, j)
    ensures Reachable(a, j) && Reachable(b, j)
  {
  }

  // ---------------------------------------------------------------- pushing one forward

  lemma NamesApart(uts: seq<UserTunnel>, j: Job)
    requires IsId(j.f.id)
    ensures forall n | n in MainNames(uts, j) || n in OperatedNames(BaseName(uts, j.f), j.f) :: n !in RelayNames(uts, j)
    ensures forall u | u in MainUpdates(uts, j) :: u.name !in RelayNames(uts, j)
    ensures forall u | u in RelayUpdates(uts, j.f) :: u.name in RelayNames(uts, j)
  {
    hide BaseName, ListenIps, TcpName, UdpName, RelayName;
    var base := BaseName(uts, j.f);
    GroupNoDup(base, |ListenIps(Governing(j.f, j.t))|);
    GroupNoDup(base, |ListenIps(j.f.listenIp)|);
    GroupNoDup(base, 1);
    SuffixesDiffer(base, base);
  }

  lemma RelayPushed(sites: Sites, uts: seq<UserTunnel>, j: Job, env: Env)
    requires IsId(j.f.id) && AllCovered(sites) && AllAnswered(env) && Reachable(sites, j) && j.t.kind == TUNNEL_FORWARD
    ensures var b := SyncRelay(sites, uts, j, env).0;
            && SyncRelay(sites, uts, j, env).1 && SameNodes(sites, b) && AllCovered(b)
            && (forall n | n !in RelayNames(uts, j) :: SitesAgree(sites, b, n))
            && AllRegistered(b[j.t.outNodeId].node, RelayNames(uts, j))
            && (Idle(b[j.t.outNodeId].node, RelayUpdates(uts, j.f)) <==>
                  (NoneThere(sites[j.t.outNodeId].node, RelayNames(uts, j)) ==>
                     NoStale(sites[j.t.outNodeId].node, RelayUpdates(uts, j.f))))
            && ChainName(BaseName(uts, j.f)) in b[j.t.inNodeId].chains
            && (RelayPaused(b, uts, j) <==> RelayPaused(sites, uts, j))
  {
    hide Trim, WireOf, BaseName, NameOf, SyncGroup, RelayConfigs, RelayUpdates, MainNames, RelayNames, ChainName,
         SameAt, Covered, NoStale, Own, Idle, AllRegistered, NoneThere, PausedAt, NoDup, Plain, PlainUpdates,
         Answered;
    RelayNamesOf(uts, j);
    UpdatesPlain(uts, j);
    RelayUpdateReach(uts, j);
    WireAnswered(env, j.f.id, Relay);
    var cs, updates, w := RelayConfigs(uts, j.f), RelayUpdates(uts, j.f), WireOf(env, j.f.id, Relay);
    var chained := ChainAt(sites, j.t.inNodeId, ChainName(BaseName(uts, j.f)), ChainTarget(j), Delivered).0;
    var s := chained[j.t.outNodeId].node;
    OneName(s, RelayName(BaseName(uts, j.f)));
    assert RelayNames(uts, j) == [RelayName(BaseName(uts, j.f))] by { RelayNamesAre(uts, j); }
    SyncRegisters(s, cs, updates, w);
    SyncOwn(s, cs, updates, w);
    SyncKeepsPause(s, cs, updates, w);
    SyncRelayFrame(sites, uts, j, env);
  }

  lemma RelayNamesAre(uts: seq<UserTunnel>, j: Job)
    ensures RelayNames(uts, j) == [RelayName(BaseName(uts, j.f))]
  {
  }

  /** A group of one is there or not. */
  lemma OneName(s: NodeState, n: string)
    ensures AllRegistered(s, [n]) || NoneThere(s, [n])
  {
  }

  lemma MainPushed(sites: Sites, uts: seq<UserTunnel>, j: Job, env: Env)
    requires IsId(j.f.id) && AllCovered(sites) && AllAnswered(env) && Reachable(sites, j)
    ensures var b := SyncMain(sites, uts, j, env).0;
            && SameNodes(sites, b) && Reachable(b, j) && (forall n | n in RelayNames(uts, j) :: SitesAgree(sites, b, n))
            && !MainNone(b, uts, j)
            && (MainThere(b, uts, j) <==> MainThere(sites, uts, j) || MainNone(sites, uts, j))
            && (Idle(b[j.t.inNodeId].node, MainUpdates(uts, j)) <==>
                  (MainNone(sites, uts, j) ==>
                     if OneAddress(j) then NoStale(sites[j.t.inNodeId].node, MainUpdates(uts, j))
                     else Idle(sites[j.t.inNodeId].node, MainUpdates(uts, j))))
            && (MainPaused(b, uts, j) <==> MainPaused(sites, uts, j))
            && (j.t.kind == PORT_FORWARD ==>
                  (MainAimed(b, uts, j) <==>
                     || (MainNone(sites, uts, j) && MainUnstale(sites, uts, j))
                     || (MainThere(sites, uts, j) && (OneAddress(j) || MainAimed(sites, uts, j)))))
  {
    hide Trim, WireOf, BaseName, NameOf, SyncGroup, MainConfigs, MainUpdates, MainNames, RelayNames, SameAt, Covered,
         NoStale, Own, Foreign, Exactly, Idle, AllRegistered, NoneThere, Unstale, PausedAt, Aimed, NoDup, Plain,
         PlainUpdates, Answered, OneAddress, Target;
    MainNamesOf(uts, j);
    UpdatesPlain(uts, j);
    MainUpdateReach(uts, j);
    NamesApart(uts, j);
    WireAnswered(env, j.f.id, Main);
    var cs, updates, w := MainConfigs(uts, j), MainUpdates(uts, j), WireOf(env, j.f.id, Main);
    var s := sites[j.t.inNodeId].node;
    SyncRegisters(s, cs, updates, w);
    SyncKeepsPause(s, cs, updates, w);
    SyncAtFrame(sites, j.t.inNodeId, cs, updates, w);
    if OneAddress(j) {
      SyncOwn(s, cs, updates, w);
    } else {
      SyncForeign(s, cs, updates, w);
    }
    if j.t.kind == PORT_FORWARD {
      MainTargets(uts, j);
      SyncAims(s, cs, updates, w, Target(j.f));
    }
  }

  lemma GentleSyncOutcome(sites: Sites, uts: seq<UserTunnel>, node: int, j: Job, env: Env)
    requires IsId(j.f.id) && AllCovered(sites) && AllAnswered(env) && Reachable(sites, j)
    ensures Outcome(sites, GentleSync(sites, uts, j, env).0, uts, j, false, false)
  {
    hide Trim, BaseName, NameOf, MainConfigs, MainNames, SameAt, Covered, Idle, NoStale, AllRegistered, NoneThere,
         Unstale, PausedAt, Aimed, RelayNames, MainUpdates, RelayUpdates, ChainName, SyncMain, SyncRelay, OneAddress,
         Target;
    NamesApart(uts, j);
    if j.t.kind == TUNNEL_FORWARD {
      var relayed := SyncRelay(sites, uts, j, env).0;
      RelayPushed(sites, uts, j, env);
      assert forall n | n in MainNames(uts, j) :: SitesAgree(sites, relayed, n);
      assert forall u | u in MainUpdates(uts, j) :: SitesAgree(sites, relayed, u.name);
      GroupAgree(sites[j.t.inNodeId].node, relayed[j.t.inNodeId].node, MainNames(uts, j), Target(j.f));
      IdleFrame(sites[j.t.inNodeId].node, relayed[j.t.inNodeId].node, MainUpdates(uts, j));
      MainPushed(relayed, uts, j, env);
      var synced := SyncMain(relayed, uts, j, env).0;
      assert forall n | n in RelayNames(uts, j) :: SitesAgree(relayed, synced, n);
      GroupAgree(relayed[j.t.outNodeId].node, synced[j.t.outNodeId].node, RelayNames(uts, j), Target(j.f));
      IdleFrame(relayed[j.t.outNodeId].node, synced[j.t.outNodeId].node, RelayUpdates(uts, j.f));
    } else {
      NoRelay(sites, uts, j, env);
      MainPushed(sites, uts, j, env);
    }
  }

  lemma NoRelay(sites: Sites, uts: seq<UserTunnel>, j: Job, env: Env)
    requires j.t.kind != TUNNEL_FORWARD
    ensures SyncRelay(sites, uts, j, env) == (sites, true)
  {
  }

  // ---------------------------------------------------------------- pausing one forward

  predicate PausesMain(node: int, j: Job) { j.f.status == Paused && j.t.inNodeId == node && ListenGoverned(j.f, j.t) }

  predicate PausesRelay(node: int, j: Job) {
    j.f.status == Paused && j.t.kind == TUNNEL_FORWARD && j.t.outNodeId == node
  }

  /** A pause names the listeners of the forward, or none of them. */
  lemma OperatedAreMain(uts: seq<UserTunnel>, j: Job)
    ensures ListenGoverned(j.f, j.t) ==> OperatedNames(BaseName(uts, j.f), j.f) == MainNames(uts, j)
    ensures !ListenGoverned(j.f, j.t) ==>
              forall n | n in MainNames(uts, j) :: n !in OperatedNames(BaseName(uts, j.f), j.f)
    ensures OperatedNames(BaseName(uts, j.f), j.f) != []
  {
    hide BaseName, ListenIps, TcpName, UdpName;
    var base := BaseName(uts, j.f);
    OperatedNamesAgree(base, j.f, j.t);
    LengthTellsNames(base, |ListenIps(j.f.listenIp)|);
    LengthTellsNames(base, 1);
    PlainNameNotSuffixed(base, |ListenIps(Governing(j.f, j.t))|);
  }

  /** A pause redirects nothing, and touches nothing but the named services of that node. */
  lemma PauseAtEffect(sites: Sites, id: int, names: seq<string>)
    requires id in sites && Plain(names) && names != [] && AllCovered(sites)
    ensures var b := PauseAt(sites, id, names, Delivered);
            && SameNodes(sites, b) && AllCovered(b)
            && (forall k, n | k in sites :: SameTarget(sites[k].node, b[k].node, n))
            && (forall n | n !in names :: SitesAgree(sites, b, n))
            && PauseQuiet(b[id].node, names)
            && (AllRegistered(sites[id].node, names) ==> PausedAt(b[id].node, names))
            && (AllRegistered(b[id].node, names) <==> AllRegistered(sites[id].node, names))
  {
    hide Pause, SameAt, SameTarget, Covered, Plain, PausedAt, PauseQuiet, AllRegistered, NoneThere, Aimed, Unstale;
    PauseAtFrame(sites, id, names, Delivered);
    PauseQuiets(sites[id].node, names);
    if AllRegistered(sites[id].node, names) {
      PausePauses(sites[id].node, names);
    }
    forall k, n | k in sites ensures SameTarget(sites[k].node, PauseAt(sites, id, names, Delivered)[k].node, n) {
      PauseKeepsTarget(sites[id].node, names, n);
      SameTargetReflexive(n);
    }
    AimedFrame(sites[id].node, PauseAt(sites, id, names, Delivered)[id].node, names, None);
  }

  lemma SameTargetReflexive(n: string)
    ensures forall s: NodeState :: SameTarget(s, s, n)
  {
  }

  /** What depends on targets alone. */
  lemma TargetsFrame(a: Sites, b: Sites, uts: seq<UserTunnel>, j: Job)
    requires SameNodes(a, b) && Reachable(a, j) && forall k, n | k in a :: SameTarget(a[k].node, b[k].node, n)
    ensures JobPushed(a, uts, j) ==> JobPushed(b, uts, j)
    ensures MainThere(a, uts, j) <==> MainThere(b, uts, j)
    ensures JobQuiet(a, uts, j) <==> JobQuiet(b, uts, j)
    ensures MainAimed(a, uts, j) <==> MainAimed(b, uts, j)
  {
    hide Idle, Aimed, AllRegistered, NoneThere, Unstale, SameTarget, MainNames, RelayNames, MainUpdates, RelayUpdates,
         BaseName, ChainName, Target;
    IdleFrame(a[j.t.inNodeId].node, b[j.t.inNodeId].node, MainUpdates(uts, j));
    AimedFrame(a[j.t.inNodeId].node, b[j.t.inNodeId].node, MainNames(uts, j), Target(j.f));
    if j.t.kind == TUNNEL_FORWARD {
      IdleFrame(a[j.t.outNodeId].node, b[j.t.outNodeId].node, RelayUpdates(uts, j.f));
      AimedFrame(a[j.t.outNodeId].node, b[j.t.outNodeId].node, RelayNames(uts, j), Target(j.f));
    }
  }

  /** The first of the two pauses. */
  lemma MainPauseOutcome(a: Sites, uts: seq<UserTunnel>, node: int, j: Job)
    requires IsId(j.f.id) && AllCovered(a) && JobPushed(a, uts, j) && j.f.status == Paused && j.t.inNodeId == node
    ensures var b := PauseAt(a, node, OperatedNames(BaseName(uts, j.f), j.f), Delivered);
            && SameNodes(a, b) && AllCovered(b) && (forall k, n | k in a :: SameTarget(a[k].node, b[k].node, n))
            && (forall n | n in RelayNames(uts, j) :: SitesAgree(a, b, n))
            && (MainPaused(b, uts, j) <==> (ListenGoverned(j.f, j.t) && MainThere(a, uts, j)) || MainPaused(a, uts, j))
            && PauseQuiet(b[node].node, OperatedNames(BaseName(uts, j.f), j.f))
  {
    hide PauseAt, SameAt, SameTarget, Covered, Plain, PausedAt, PauseQuiet, AllRegistered, Idle, OperatedNames,
         BaseName, MainNames, RelayNames, ChainName, NameOf, ListenGoverned;
    OperatedPlain(uts, j);
    OperatedAreMain(uts, j);
    NamesApart(uts, j);
    var operated := OperatedNames(BaseName(uts, j.f), j.f);
    PauseAtEffect(a, node, operated);
    PausedIsThere(a[node].node, MainNames(uts, j));
    PausedIsThere(PauseAt(a, node, operated, Delivered)[node].node, MainNames(uts, j));
    if !ListenGoverned(j.f, j.t) {
      var b := PauseAt(a, node, operated, Delivered);
      assert forall n | n in MainNames(uts, j) :: SitesAgree(a, b, n);
      GroupAgree(a[node].node, b[node].node, MainNames(uts, j), None);
    }
  }

  lemma PausedIsThere(s: NodeState, names: seq<string>)
    ensures PausedAt(s, names) ==> AllRegistered(s, names)
  {
    hide FirstEntry;
  }

  /** The second one. */
  lemma RelayPauseOutcome(a: Sites, uts: seq<UserTunnel>, node: int, j: Job)
    requires IsId(j.f.id) && AllCovered(a) && JobPushed(a, uts, j) && PausesRelay(node, j)
    ensures var b := PauseAt(a, node, RelayNames(uts, j), Delivered);
            && SameNodes(a, b) && AllCovered(b) && (forall k, n | k in a :: SameTarget(a[k].node, b[k].node, n))
            && (forall n | n !in RelayNames(uts, j) :: SitesAgree(a, b, n))
            && RelayPaused(b, uts, j) && PauseQuiet(b[node].node, RelayNames(uts, j))
  {
    hide PauseAt, SameAt, SameTarget, Covered, Plain, PausedAt, PauseQuiet, AllRegistered, Idle, BaseName, MainNames,
         ChainName, NameOf, RelayName;
    RelayNamesOf(uts, j);
    PauseAtEffect(a, node, RelayNames(uts, j));
  }

  /** What the pauses leave as it was: everything but the pause marks. */
  ghost predicate OnlyPaused(a: Sites, b: Sites, uts: seq<UserTunnel>, j: Job) {
    && SameNodes(a, b) && JobPushed(a, uts, j) && JobPushed(b, uts, j)
    && (JobQuiet(b, uts, j) <==> JobQuiet(a, uts, j)) && (MainAimed(b, uts, j) <==> MainAimed(a, uts, j))
    && (MainThere(b, uts, j) <==> MainThere(a, uts, j))
  }

  lemma MainPauseStep(a: Sites, uts: seq<UserTunnel>, node: int, j: Job)
    requires IsId(j.f.id) && AllCovered(a) && JobPushed(a, uts, j) && j.f.status == Paused
    ensures var operated := OperatedNames(BaseName(uts, j.f), j.f);
            var mid := if j.t.inNodeId == node then PauseAt(a, node, operated, Delivered) else a;
            && OnlyPaused(a, mid, uts, j) && AllCovered(mid)
            && (MainPaused(mid, uts, j) <==> (PausesMain(node, j) && MainThere(a, uts, j)) || MainPaused(a, uts, j))
            && (j.t.kind == TUNNEL_FORWARD ==> (RelayPaused(mid, uts, j) <==> RelayPaused(a, uts, j)))
            && (j.t.inNodeId == node ==> PauseQuiet(mid[node].node, operated))
  {
    hide PauseAt, SameAt, SameTarget, Covered, Plain, PausedAt, PauseQuiet, AllRegistered, Idle, Aimed, OperatedNames,
         BaseName, MainNames, MainUpdates, RelayUpdates, ChainName, NameOf, ListenGoverned, RelayName, RelayNames;
    if j.t.inNodeId == node {
      var mid := PauseAt(a, node, OperatedNames(BaseName(uts, j.f), j.f), Delivered);
      MainPauseOutcome(a, uts, node, j);
      TargetsFrame(a, mid, uts, j);
      if j.t.kind == TUNNEL_FORWARD {
        GroupAgree(a[j.t.outNodeId].node, mid[j.t.outNodeId].node, RelayNames(uts, j), None);
      }
    }
  }

  lemma RelayPauseStep(a: Sites, uts: seq<UserTunnel>, node: int, j: Job)
    requires IsId(j.f.id) && AllCovered(a) && JobPushed(a, uts, j) && PausesRelay(node, j)
    ensures var operated, b := OperatedNames(BaseName(uts, j.f), j.f), PauseAt(a, node, RelayNames(uts, j), Delivered);
            && OnlyPaused(a, b, uts, j) && (MainPaused(b, uts, j) <==> MainPaused(a, uts, j))
            && RelayPaused(b, uts, j) && PauseQuiet(b[node].node, RelayNames(uts, j))
            && (PauseQuiet(b[j.t.inNodeId].node, operated) <==> PauseQuiet(a[j.t.inNodeId].node, operated))
  {
    hide PauseAt, SameAt, SameTarget, Covered, Plain, PausedAt, PauseQuiet, AllRegistered, Idle, Aimed, OperatedNames,
         BaseName, MainNames, MainUpdates, RelayUpdates, ChainName, NameOf, ListenGoverned, RelayName, RelayNames;
    var operated, b := OperatedNames(BaseName(uts, j.f), j.f), PauseAt(a, node, RelayNames(uts, j), Delivered);
    NamesApart(uts, j);
    RelayPauseOutcome(a, uts, node, j);
    TargetsFrame(a, b, uts, j);
    assert forall n | n in MainNames(uts, j) || n in operated :: SitesAgree(a, b, n);
    GroupAgree(a[j.t.inNodeId].node, b[j.t.inNodeId].node, MainNames(uts, j), None);
    GroupAgree(a[j.t.inNodeId].node, b[j.t.inNodeId].node, operated, None);
  }

  lemma PauseJobOutcome(a: Sites, uts: seq<UserTunnel>, node: int, j: Job, env: Env)
    requires IsId(j.f.id) && AllCovered(a) && AllAnswered(env) && JobPushed(a, uts, j)
    ensures var b := PauseJob(a, uts, node, j, env);
            && OnlyPaused(a, b, uts, j) && PausesQuiet(b, uts, node, j)
            && (MainPaused(b, uts, j) <==> (PausesMain(node, j) && MainThere(a, uts, j)) || MainPaused(a, uts, j))
            && (j.t.kind == TUNNEL_FORWARD ==>
                  (RelayPaused(b, uts, j) <==> PausesRelay(node, j) || RelayPaused(a, uts, j)))
  {
    hide PauseAt, Covered, PauseQuiet, OperatedNames, BaseName, JobPushed, JobQuiet, MainAimed, MainThere, MainPaused,
         RelayPaused, ListenGoverned, RelayName, AllCovered;
    if j.f.status == Paused {
      var operated := OperatedNames(BaseName(uts, j.f), j.f);
      var mid := if j.t.inNodeId == node then PauseAt(a, node, operated, Delivered) else a;
      MainPauseStep(a, uts, node, j);
      if PausesRelay(node, j) {
        RelayPauseStep(mid, uts, node, j);
      }
    }
    PushedIsReachable(a, uts, j);
    PushedIsReachable(PauseJob(a, uts, node, j, env), uts, j);
  }

  lemma PushedIsReachable(sites: Sites, uts: seq<UserTunnel>, j: Job)
    ensures JobPushed(sites, uts, j) ==> Reachable(sites, j)
  {
  }

  // ---------------------------------------------------------------- both

  lemma SyncJobOutcome(sites: Sites, uts: seq<UserTunnel>, node: int, j: Job, env: Env)
    requires IsId(j.f.id) && AllCovered(sites) && AllAnswered(env) && Reachable(sites, j)
    ensures Outcome(sites, SyncJob(sites, uts, node, j, env), uts, j, PausesMain(node, j), PausesRelay(node, j))
    ensures PausesQuiet(SyncJob(sites, uts, node, j, env), uts, node, j)
  {
    hide GentleSync, PauseJob, JobPushed, JobQuiet, SettlesAtOnce, MainThere, MainNone, MainAimed, MainUnstale,
         MainPaused, RelayPaused, PausesQuiet, AllCovered, SitesAgree, NameOf, PausesMain, PausesRelay, OneAddress;
    GentleSyncOutcome(sites, uts, node, j, env);
    GentleSyncFrame(sites, uts, j, env);
    PauseJobOutcome(GentleSync(sites, uts, j, env).0, uts, node, j, env);
  }
}
