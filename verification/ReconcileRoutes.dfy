/** The way a reconciled forward's traffic takes, told by the texts of names and addresses: in at its own host and port,
    over its chain to the relay's port on the exit node, out to its target. */
module ReconcileRoutes {
  import opened Text
  import opened Rows
  import opened Names
  import opened NodeServices
  import opened ReconcileFrames
  import opened Reconcile
  import opened ReconcileGroups
  import opened ReconcileRuns
  import opened ReconcileTheorems
  import opened ReconcilePlaces
  import opened ServiceShapes

  // ---------------------------------------------------------------- what being in place means

  /** The service listens on that port of that host, with that chain, and is configured so. */
  ghost predicate InPlace(s: NodeState, name: string, host: string, port: int, chain: Option<string>) {
    && name in s.registry && ListensOn(s.registry[name].addr, host, port) && s.registry[name].chain == chain
    && FirstEntry(s.services, name).Some?
    && ListensOn(FirstEntry(s.services, name).value.addr, host, port)
    && FirstEntry(s.services, name).value.chain == chain
  }

  /** Nothing of that name is registered, and nothing is configured elsewhere under it. */
  ghost predicate IsFree(s: NodeState, name: string, host: string, port: int, chain: Option<string>) {
    && name !in s.registry
    && (FirstEntry(s.services, name).Some? ==>
          && ListensOn(FirstEntry(s.services, name).value.addr, host, port)
          && FirstEntry(s.services, name).value.chain == chain)
  }

  /** The addresses a forward listens on: its own list, or its tunnel's. */
  function TcpText(j: Job): string { if j.f.listenIp != "" then j.f.listenIp else j.t.tcpListenAddr }

  function UdpText(j: Job): string { if j.f.listenIp != "" then j.f.listenIp else j.t.udpListenAddr }

  function Listeners(j: Job): nat { |ListenIps(TcpText(j))| }

  /** A port forward has no chain; any other one has its own. */
  function ChainOf(uts: seq<UserTunnel>, j: Job): Option<string> {
    if j.t.kind == PORT_FORWARD then None else Some(BaseName(uts, j.f) + "_chains")
  }

  ghost predicate ListenerInPlace(s: NodeState, uts: seq<UserTunnel>, j: Job, i: nat, isTcp: bool)
    requires i < Listeners(j)
  {
    InPlace(s, ListenerName(BaseName(uts, j.f), TcpText(j), i, isTcp), HostOf(TcpText(j), UdpText(j), i, isTcp),
        j.f.inPort, ChainOf(uts, j))
  }

  ghost predicate ListenerIsFree(s: NodeState, uts: seq<UserTunnel>, j: Job, i: nat, isTcp: bool)
    requires i < Listeners(j)
  {
    IsFree(s, ListenerName(BaseName(uts, j.f), TcpText(j), i, isTcp), HostOf(TcpText(j), UdpText(j), i, isTcp),
        j.f.inPort, ChainOf(uts, j))
  }

  lemma ServiceInPlace(s: NodeState, c: ServiceConfig, name: string, host: string, port: int, kind: int, chain: string,
      remoteAddr: string, strategy: string)
    requires IsListener(c, name, host, port, kind, chain, remoteAddr, strategy)
    ensures var own := if kind == PORT_FORWARD then None else Some(chain);
            && (Placed(s, [c]) <==> InPlace(s, name, host, port, own))
            && (name !in s.registry && NoneMisplaced(s, [c]) <==> IsFree(s, name, host, port, own))
  {
    hide FirstEntry, Targets, Itoa;
    assert c in [c];
  }

  lemma PlacedEach(s: NodeState, cs: seq<ServiceConfig>)
    ensures Placed(s, cs) <==> forall k :: 0 <= k < |cs| ==> Placed(s, [cs[k]])
    ensures NoneMisplaced(s, cs) && NoneThere(s, NamesOf(cs)) <==>
            forall k :: 0 <= k < |cs| ==> NoneMisplaced(s, [cs[k]]) && cs[k].name !in s.registry
  {
    hide FirstEntry;
    forall k | 0 <= k < |cs| ensures cs[k] in cs && cs[k] in [cs[k]] && cs[k].name in NamesOf(cs) {
      assert NamesOf(cs)[k] == cs[k].name;
    }
    forall n | n in NamesOf(cs) ensures exists k :: 0 <= k < |cs| && cs[k].name == n {
    }
  }

  /** The listeners are in place if and only if each address has its tcp and udp listener on the host of that address at
      the entry port, with the forward's chain. */
  lemma MainPlacedMeans(sites: Sites, uts: seq<UserTunnel>, j: Job)
    requires Reachable(sites, j)
    ensures var s := sites[j.t.inNodeId].node;
            && (MainPlaced(sites, uts, j) <==>
                  forall i: nat, p | i < Listeners(j) :: ListenerInPlace(s, uts, j, i, p))
            && (MainFree(sites, uts, j) <==>
                  forall i: nat, p | i < Listeners(j) :: ListenerIsFree(s, uts, j, i, p))
  {
    hide BaseName, ListenIps, ServiceConfigs, IsListener, Placed, NoneMisplaced, NoneThere, InPlace, IsFree,
         ListenerName, HostOf, ListenerInPlace, ListenerIsFree;
    var s, base, cs := sites[j.t.inNodeId].node, BaseName(uts, j.f), MainConfigs(uts, j);
    BaseNotEmpty(uts, j.f);
    ServicesAreListeners(base, TcpText(j), UdpText(j), j.f.inPort, j.t.kind, j.f.remoteAddr, j.f.strategy);
    PlacedEach(s, cs);
    MainNamesAre(uts, j);
    forall i: nat, p | i < Listeners(j)
      ensures var k := if p then 2 * i else 2 * i + 1;
              && (Placed(s, [cs[k]]) <==> ListenerInPlace(s, uts, j, i, p))
              && (NoneMisplaced(s, [cs[k]]) && cs[k].name !in s.registry <==> ListenerIsFree(s, uts, j, i, p)) {
      ListenerMeans(s, uts, j, cs[if p then 2 * i else 2 * i + 1], i, p);
    }
    forall k | 0 <= k < |cs|
      ensures (Placed(s, [cs[k]]) <==> ListenerInPlace(s, uts, j, k / 2, k % 2 == 0))
           && (NoneMisplaced(s, [cs[k]]) && cs[k].name !in s.registry <==>
                 ListenerIsFree(s, uts, j, k / 2, k % 2 == 0)) {
      assert k == if k % 2 == 0 then 2 * (k / 2) else 2 * (k / 2) + 1;
    }
  }

  lemma ListenerMeans(s: NodeState, uts: seq<UserTunnel>, j: Job, c: ServiceConfig, i: nat, p: bool)
    requires i < Listeners(j)
    requires IsListener(c, ListenerName(BaseName(uts, j.f), TcpText(j), i, p), HostOf(TcpText(j), UdpText(j), i, p),
               j.f.inPort, j.t.kind, BaseName(uts, j.f) + "_chains", j.f.remoteAddr, j.f.strategy)
    ensures Placed(s, [c]) <==> ListenerInPlace(s, uts, j, i, p)
    ensures NoneMisplaced(s, [c]) && c.name !in s.registry <==> ListenerIsFree(s, uts, j, i, p)
  {
    hide BaseName, ListenIps, Placed, NoneMisplaced, InPlace, IsFree, ListenerName, HostOf, ListensOn, Targets;
    ServiceInPlace(s, c, ListenerName(BaseName(uts, j.f), TcpText(j), i, p), HostOf(TcpText(j), UdpText(j), i, p),
        j.f.inPort, j.t.kind, BaseName(uts, j.f) + "_chains", j.f.remoteAddr, j.f.strategy);
  }

  lemma BaseNotEmpty(uts: seq<UserTunnel>, f: Forward)
    ensures BaseName(uts, f) != ""
  {
    hide Itoa;
  }

  lemma MainNamesAre(uts: seq<UserTunnel>, j: Job)
    ensures NamesOf(MainConfigs(uts, j)) == MainNames(uts, j)
  {
    hide BaseName, ListenIps, ServiceConfigs, TcpName, UdpName;
    ServiceConfigNames(BaseName(uts, j.f), TcpText(j), UdpText(j), j.f.inPort, j.t.kind, j.f.remoteAddr, j.f.strategy);
  }

  /** The relay is in place if and only if it listens on every address of the exit node at the exit port, without a
      chain. */
  lemma RelayPlacedMeans(sites: Sites, uts: seq<UserTunnel>, j: Job)
    requires Reachable(sites, j) && j.t.kind == TUNNEL_FORWARD
    ensures var s, name := sites[j.t.outNodeId].node, BaseName(uts, j.f) + "_tls";
            && (RelayPlaced(sites, uts, j) <==> InPlace(s, name, "", j.f.outPort, None))
            && (RelayFree(sites, uts, j) <==> IsFree(s, name, "", j.f.outPort, None))
  {
    hide BaseName, FirstEntry, BuildForwarder, Targets, Itoa;
    var c := RelayConfig(BaseName(uts, j.f), j.f.outPort, j.f.remoteAddr, j.f.strategy);
    RelayShape(BaseName(uts, j.f), j.f.outPort, j.f.remoteAddr, j.f.strategy);
    assert RelayConfigs(uts, j.f) == [c] && c in [c];
    assert RelayNames(uts, j) == [c.name];
  }

  /** A chain leads to the exit port of the exit address; the panel's own parser reads both back. */
  lemma ChainTargetMeans(j: Job)
    ensures ListensOn(ChainTarget(j), j.t.outIp, j.f.outPort)
  {
  }

  // ---------------------------------------------------------------- what a run makes of it

  ghost predicate AllInPlace(s: NodeState, uts: seq<UserTunnel>, j: Job) {
    forall i: nat, p | i < Listeners(j) :: ListenerInPlace(s, uts, j, i, p)
  }

  ghost predicate AllFree(s: NodeState, uts: seq<UserTunnel>, j: Job) {
    forall i: nat, p | i < Listeners(j) :: ListenerIsFree(s, uts, j, i, p)
  }

  /** With every command answered, after one run the listeners of a forward are at their hosts and the entry port if and
      only if they were, or all of them were free; so is the relay at the exit port; and the chain leads to the exit
      address and port if it is new, else where it led. */
  lemma ReconcileListens(db: Db, sites: Sites, node: int, env: Env, j: Job)
    requires Reconcilable(db, sites, node) && AllAnswered(env) && j in Jobs(db, db.tunnels, node)
    ensures var b, uts := ReconcileNode(db, sites, node, env), db.userTunnels;
            && j.t.inNodeId in sites && j.t.inNodeId in b
            && (AllInPlace(b[j.t.inNodeId].node, uts, j) <==>
                  AllInPlace(sites[j.t.inNodeId].node, uts, j) || AllFree(sites[j.t.inNodeId].node, uts, j))
    ensures var b, uts, name := ReconcileNode(db, sites, node, env), db.userTunnels,
                                BaseName(db.userTunnels, j.f) + "_tls";
            j.t.kind == TUNNEL_FORWARD ==>
              && j.t.outNodeId in sites && j.t.outNodeId in b
              && (InPlace(b[j.t.outNodeId].node, name, "", j.f.outPort, None) <==>
                    || InPlace(sites[j.t.outNodeId].node, name, "", j.f.outPort, None)
                    || IsFree(sites[j.t.outNodeId].node, name, "", j.f.outPort, None))
    ensures var b, chain := ReconcileNode(db, sites, node, env), BaseName(db.userTunnels, j.f) + "_chains";
            j.t.kind == TUNNEL_FORWARD ==>
              && j.t.inNodeId in sites && j.t.inNodeId in b && chain in b[j.t.inNodeId].chains
              && (if chain in sites[j.t.inNodeId].chains
                  then b[j.t.inNodeId].chains[chain] == sites[j.t.inNodeId].chains[chain]
                  else ListensOn(b[j.t.inNodeId].chains[chain], j.t.outIp, j.f.outPort))
  {
    hide ReconcileNode, Jobs, BaseName, InPlace, IsFree, ListenerInPlace, ListenerIsFree, MainPlaced, MainFree,
         RelayPlaced, RelayFree, ListensOn, ChainTarget, ListenIps;
    var b, uts := ReconcileNode(db, sites, node, env), db.userTunnels;
    RunPlaces(db, sites, node, env, j);
    ChainTargetMeans(j);
    MainPlacedMeans(sites, uts, j);
    MainPlacedMeans(b, uts, j);
    if j.t.kind == TUNNEL_FORWARD {
      RelayPlacedMeans(sites, uts, j);
      RelayPlacedMeans(b, uts, j);
    }
  }

  /** Nothing of the forward is on its nodes. */
  ghost predicate Unknown(sites: Sites, uts: seq<UserTunnel>, j: Job)
    requires Reachable(sites, j)
  {
    && (forall n | NameOf(uts, j.f, n) ::
          n !in sites[j.t.inNodeId].node.registry && FirstEntry(sites[j.t.inNodeId].node.services, n) == None)
    && (j.t.kind == TUNNEL_FORWARD ==>
          && BaseName(uts, j.f) + "_chains" !in sites[j.t.inNodeId].chains
          && forall n | NameOf(uts, j.f, n) ::
               n !in sites[j.t.outNodeId].node.registry && FirstEntry(sites[j.t.outNodeId].node.services, n) == None)
  }

  /** From nodes that know nothing of a forward one answered run sets up its whole way: each listener at its host and
      the entry port; a port forward's listeners lead to its target; a tunnel forward's listeners use its chain, the
      chain leads to the exit address and port, and at that port the relay listens and leads to its target. */
  lemma NewForwardCarries(db: Db, sites: Sites, node: int, env: Env, j: Job)
    requires Reconcilable(db, sites, node) && AllAnswered(env) && j in Jobs(db, db.tunnels, node)
    requires Reachable(sites, j) && Unknown(sites, db.userTunnels, j)
    ensures var b, uts := ReconcileNode(db, sites, node, env), db.userTunnels;
            && j.t.inNodeId in b && AllInPlace(b[j.t.inNodeId].node, uts, j)
            && (j.t.kind == PORT_FORWARD ==>
                  forall i: nat, p | i < Listeners(j) ::
                    LeadsTo(b[j.t.inNodeId].node, ListenerName(BaseName(uts, j.f), TcpText(j), i, p), j.f))
    ensures var b, base := ReconcileNode(db, sites, node, env), BaseName(db.userTunnels, j.f);
            j.t.kind == TUNNEL_FORWARD ==>
              && j.t.inNodeId in b && j.t.outNodeId in b
              && base + "_chains" in b[j.t.inNodeId].chains
              && ListensOn(b[j.t.inNodeId].chains[base + "_chains"], j.t.outIp, j.f.outPort)
              && InPlace(b[j.t.outNodeId].node, base + "_tls", "", j.f.outPort, None)
              && LeadsTo(b[j.t.outNodeId].node, base + "_tls", j.f)
  {
    hide ReconcileNode, Jobs, BaseName, InPlace, IsFree, ListensOn, ListenIps, Reachable, Reconcilable, AllAnswered,
         LeadsTo, NameOf, FirstEntry, ListenerName, HostOf;
    var b, uts := ReconcileNode(db, sites, node, env), db.userTunnels;
    GoodId(db, sites, node, j);
    ReconcileListens(db, sites, node, env, j);
    forall i: nat, p | i < Listeners(j) ensures ListenerIsFree(sites[j.t.inNodeId].node, uts, j, i, p) {
      ListenerIsOwn(uts, j, i, p);
      UnknownIsFree(sites[j.t.inNodeId].node, ListenerName(BaseName(uts, j.f), TcpText(j), i, p),
          HostOf(TcpText(j), UdpText(j), i, p), j.f.inPort, ChainOf(uts, j));
    }
    if j.t.kind == TUNNEL_FORWARD {
      RelayIsOwn(uts, j);
      UnknownIsFree(sites[j.t.outNodeId].node, BaseName(uts, j.f) + "_tls", "", j.f.outPort, None);
      RelayLeads(db, sites, node, env, j);
    } else if j.t.kind == PORT_FORWARD {
      ListenersLead(db, sites, node, env, j);
    }
  }

  /** The service forwards to the forward's target, running and configured. */
  ghost predicate LeadsTo(s: NodeState, name: string, f: Forward) {
    && name in s.registry && Targets(s.registry[name].forwarder, f.remoteAddr, f.strategy)
    && FirstEntry(s.services, name).Some?
    && Targets(FirstEntry(s.services, name).value.forwarder, f.remoteAddr, f.strategy)
  }

  lemma GoodId(db: Db, sites: Sites, node: int, j: Job)
    requires Reconcilable(db, sites, node) && j in Jobs(db, db.tunnels, node)
    ensures IsId(j.f.id)
  {
  }

  lemma UnknownIsFree(s: NodeState, name: string, host: string, port: int, chain: Option<string>)
    requires name !in s.registry && FirstEntry(s.services, name) == None
    ensures IsFree(s, name, host, port, chain)
  {
  }

  lemma ListenerIsOwn(uts: seq<UserTunnel>, j: Job, i: nat, p: bool)
    requires i < Listeners(j)
    ensures ListenerName(BaseName(uts, j.f), TcpText(j), i, p) in MainNames(uts, j)
    ensures NameOf(uts, j.f, ListenerName(BaseName(uts, j.f), TcpText(j), i, p))
  {
    hide BaseName, ListenIps;
    var base, k := BaseName(uts, j.f), Listeners(j);
    var names, name := GroupNames(base, k), ListenerName(BaseName(uts, j.f), TcpText(j), i, p);
    if k > 1 {
      if p {
        assert names[2 * i] == TcpName(Indexed(base, i)) == name;
      } else {
        assert names[2 * i + 1] == UdpName(Indexed(base, i)) == name;
      }
    } else {
      assert names[if p then 0 else 1] == name;
    }
    assert name in names;
  }

  lemma RelayIsOwn(uts: seq<UserTunnel>, j: Job)
    ensures BaseName(uts, j.f) + "_tls" in RelayNames(uts, j) && NameOf(uts, j.f, BaseName(uts, j.f) + "_tls")
  {
    hide BaseName;
    assert RelayNames(uts, j)[0] == BaseName(uts, j.f) + "_tls";
  }

  lemma TargetLeads(s: NodeState, names: seq<string>, name: string, f: Forward)
    requires Aimed(s, names, Target(f)) && name in names
    ensures LeadsTo(s, name, f)
  {
    hide FirstEntry, Targets, BuildForwarder;
    ForwarderTargets(f.remoteAddr, f.strategy);
  }

  lemma ListenersLead(db: Db, sites: Sites, node: int, env: Env, j: Job)
    requires Reconcilable(db, sites, node) && AllAnswered(env) && j in Jobs(db, db.tunnels, node)
    requires Reachable(sites, j) && Unknown(sites, db.userTunnels, j) && j.t.kind == PORT_FORWARD
    ensures var b, uts := ReconcileNode(db, sites, node, env), db.userTunnels;
            && j.t.inNodeId in b
            && forall i: nat, p | i < Listeners(j) ::
                 LeadsTo(b[j.t.inNodeId].node, ListenerName(BaseName(uts, j.f), TcpText(j), i, p), j.f)
  {
    hide ReconcileNode, Jobs, BaseName, MainNames, LeadsTo, NameOf, FirstEntry, ListenerName, ListenIps, Target, Aimed,
         Reconcilable, AllAnswered, OneAddress, MainUpdates, RelayUpdates, OperatedNames, RelayNames;
    var b, uts := ReconcileNode(db, sites, node, env), db.userTunnels;
    GoodId(db, sites, node, j);
    ReconcileAims(db, sites, node, env, j);
    JobNames(uts, j);
    assert MainNone(sites, uts, j) && MainUnstale(sites, uts, j);
    forall i: nat, p | i < Listeners(j)
      ensures LeadsTo(b[j.t.inNodeId].node, ListenerName(BaseName(uts, j.f), TcpText(j), i, p), j.f) {
      ListenerIsOwn(uts, j, i, p);
      TargetLeads(b[j.t.inNodeId].node, MainNames(uts, j), ListenerName(BaseName(uts, j.f), TcpText(j), i, p), j.f);
    }
  }

  lemma RelayLeads(db: Db, sites: Sites, node: int, env: Env, j: Job)
    requires Reconcilable(db, sites, node) && AllAnswered(env) && j in Jobs(db, db.tunnels, node)
    requires Reachable(sites, j) && Unknown(sites, db.userTunnels, j) && j.t.kind == TUNNEL_FORWARD
    ensures var b := ReconcileNode(db, sites, node, env);
            j.t.outNodeId in b && LeadsTo(b[j.t.outNodeId].node, BaseName(db.userTunnels, j.f) + "_tls", j.f)
  {
    hide ReconcileNode, Jobs, BaseName, MainNames, NameOf, FirstEntry, ListenIps, Target, Idle, JobPushed, LeadsTo,
         Reconcilable, AllAnswered, OneAddress, MainUpdates, RelayUpdates, OperatedNames, RelayNames, Outcome;
    var b, uts := ReconcileNode(db, sites, node, env), db.userTunnels;
    GoodId(db, sites, node, j);
    ReconcileOutcome(db, sites, node, env);
    JobNames(uts, j);
    DoneReachable(sites, b, uts, node, j);
    NoStaleUnknown(sites, uts, j);
    OutcomeQuiet(sites, b, uts, node, j);
    RelayAimed(b, uts, j);
    RelayIsOwn(uts, j);
    TargetLeads(b[j.t.outNodeId].node, [BaseName(uts, j.f) + "_tls"], BaseName(uts, j.f) + "_tls", j.f);
  }

  /** Where nothing is known nothing is left over, so the run settles the forward at once. */
  lemma NoStaleUnknown(sites: Sites, uts: seq<UserTunnel>, j: Job)
    requires IsId(j.f.id) && Reachable(sites, j) && Unknown(sites, uts, j)
    ensures SettlesAtOnce(sites, uts, j)
  {
    hide BaseName, MainNames, NameOf, FirstEntry, ListenIps, Target, OneAddress, MainUpdates, RelayUpdates,
         OperatedNames, RelayNames;
    JobNames(uts, j);
    var s := sites[j.t.inNodeId].node;
    assert forall u | u in MainUpdates(uts, j) :: u.name !in s.registry;
    assert forall i: nat | i < |MainUpdates(uts, j)| :: MainUpdates(uts, j)[i] in MainUpdates(uts, j);
    if MainUpdates(uts, j) == [] {
      NothingIdle(s);
    } else {
      assert MainUpdates(uts, j)[0] in MainUpdates(uts, j);
    }
  }

  lemma OutcomeQuiet(a: Sites, b: Sites, uts: seq<UserTunnel>, node: int, j: Job)
    requires JobDone(a, b, uts, node, j) && Reachable(a, j) && SettlesAtOnce(a, uts, j)
    ensures Reachable(b, j) && JobQuiet(b, uts, j)
  {
    hide JobQuiet, SettlesAtOnce, JobPushed, MainThere, MainNone, MainPaused, RelayPaused, MainAimed, MainUnstale,
         PausesQuiet;
    DoneReachable(a, b, uts, node, j);
  }

  lemma RelayAimed(sites: Sites, uts: seq<UserTunnel>, j: Job)
    requires JobPushed(sites, uts, j) && JobQuiet(sites, uts, j) && j.t.kind == TUNNEL_FORWARD
    ensures Aimed(sites[j.t.outNodeId].node, [BaseName(uts, j.f) + "_tls"], Target(j.f))
  {
    hide BaseName, FirstEntry, Target, MainUpdates, ChainName, MainNone;
    var u := ForwarderUpdate(BaseName(uts, j.f) + "_tls", Target(j.f));
    assert RelayUpdates(uts, j.f) == [u] && u in [u];
    assert RelayNames(uts, j) == [u.name] && u.name in [u.name];
    assert AllThere(sites[j.t.outNodeId].node, [u]);
  }

  // ---------------------------------------------------------------- what a run never does

  /** Whatever is answered, a run moves no service: one that stays registered listens and is configured where it was. */
  lemma RunMovesNothing(db: Db, sites: Sites, node: int, env: Env, id: int, n: string)
    requires GoodRows(db) && AllCovered(sites) && id in sites && n in sites[id].node.registry
    ensures id in ReconcileNode(db, sites, node, env)
    ensures n in ReconcileNode(db, sites, node, env)[id].node.registry ==>
              SamePlace(sites[id].node, ReconcileNode(db, sites, node, env)[id].node, n)
  {
    hide SyncAll, Jobs, LiveIds, SamePlace, Covered, Orphans, Trim, FirstEntry;
    var uts, jobs := db.userTunnels, Jobs(db, db.tunnels, node);
    var synced := SyncAll(sites, uts, node, jobs, env);
    CoveredEntry(sites[id].node, n);
    SyncAllMovesNothing(sites, uts, node, jobs, env, id, n);
    SamePlaceReflexive();
    if id == node && env.listing == Delivered && env.deletion != Unheard {
      if n in CleanUp(synced[id].node, LiveIds(db, node)).registry {
        CleanUpMovesNothing(synced[id].node, LiveIds(db, node), n);
        SamePlaceTransitive(sites[id].node, synced[id].node, CleanUp(synced[id].node, LiveIds(db, node)), n);
      }
    }
  }

  lemma CoveredEntry(s: NodeState, n: string)
    requires Covered(s) && n in s.registry
    ensures FirstEntry(s.services, n).Some?
  {
    hide Trim;
    NotNamed(s.services, n);
  }

  lemma CleanUpMovesNothing(s: NodeState, live: set<int>, n: string)
    requires n in CleanUp(s, live).registry
    ensures SamePlace(s, CleanUp(s, live), n)
  {
    hide Trim, Orphans, FirstEntry;
    SamePlaceReflexive();
    if n !in Orphans(s, live) {
      WithoutFrame(s.services, Orphans(s, live), n);
    }
  }

  ghost predicate Stays(a: Sites, b: Sites, id: int, n: string) {
    && id in a && id in b && n in b[id].node.registry && FirstEntry(b[id].node.services, n).Some?
    && SamePlace(a[id].node, b[id].node, n)
  }

  lemma StaysTransitive(a: Sites, b: Sites, c: Sites, id: int, n: string)
    requires Stays(a, b, id, n) && Stays(b, c, id, n)
    ensures Stays(a, c, id, n)
  {
    hide SamePlace, FirstEntry;
    SamePlaceTransitive(a[id].node, b[id].node, c[id].node, n);
  }

  lemma SyncAtStays(sites: Sites, k: int, cs: seq<ServiceConfig>, updates: seq<ForwarderUpdate>, w: Wire, id: int,
      n: string)
    requires id in sites && n in sites[id].node.registry && FirstEntry(sites[id].node.services, n).Some?
    ensures Stays(sites, SyncAt(sites, k, cs, updates, w).0, id, n)
  {
    hide SyncGroup, FirstEntry;
    SamePlaceReflexive();
    GroupMovesNothing(sites[id].node, cs, updates, w, n);
  }

  lemma SyncJobStays(sites: Sites, uts: seq<UserTunnel>, node: int, j: Job, env: Env, id: int, n: string)
    requires id in sites && n in sites[id].node.registry && FirstEntry(sites[id].node.services, n).Some?
    ensures Stays(sites, SyncJob(sites, uts, node, j, env), id, n)
  {
    hide SyncAt, WireOf, BaseName, ChainName, MainConfigs, MainUpdates, RelayConfigs, RelayUpdates, PauseJob, SamePlace,
         FirstEntry, ChainTarget;
    SamePlaceReflexive();
    var chained := ChainAt(sites, j.t.inNodeId, ChainName(BaseName(uts, j.f)), ChainTarget(j),
        env.link(j.f.id, Relay, ChainVerb)).0;
    var relayed, mid := SyncRelay(sites, uts, j, env).0, GentleSync(sites, uts, j, env).0;
    assert Stays(sites, chained, id, n);
    SyncAtStays(chained, j.t.outNodeId, RelayConfigs(uts, j.f), RelayUpdates(uts, j.f), WireOf(env, j.f.id, Relay), id,
        n);
    assert Stays(sites, relayed, id, n) by {
      if relayed != chained && relayed != sites { StaysTransitive(sites, chained, relayed, id, n); }
    }
    SyncAtStays(relayed, j.t.inNodeId, MainConfigs(uts, j), MainUpdates(uts, j), WireOf(env, j.f.id, Main), id, n);
    if mid != relayed {
      StaysTransitive(sites, relayed, mid, id, n);
    }
    PauseStays(mid, uts, node, j, env, id, n);
    StaysTransitive(sites, mid, PauseJob(mid, uts, node, j, env), id, n);
  }

  lemma PauseStays(sites: Sites, uts: seq<UserTunnel>, node: int, j: Job, env: Env, id: int, n: string)
    requires id in sites && n in sites[id].node.registry && FirstEntry(sites[id].node.services, n).Some?
    ensures Stays(sites, PauseJob(sites, uts, node, j, env), id, n)
  {
    hide PauseJob, FirstEntry;
    PauseJobPlaces(sites, uts, node, j, env);
    assert SamePlace(sites[id].node, PauseJob(sites, uts, node, j, env)[id].node, n);
  }

  lemma {:induction false} SyncAllMovesNothing(sites: Sites, uts: seq<UserTunnel>, node: int, jobs: seq<Job>, env: Env,
      id: int, n: string)
    requires id in sites && n in sites[id].node.registry && FirstEntry(sites[id].node.services, n).Some?
    ensures Stays(sites, SyncAll(sites, uts, node, jobs, env), id, n)
  {
    hide SyncJob, SamePlace, FirstEntry;
    SamePlaceReflexive();
    if jobs != [] {
      var rest, last := jobs[..|jobs| - 1], jobs[|jobs| - 1];
      var mid := SyncAll(sites, uts, node, rest, env);
      SyncAllMovesNothing(sites, uts, node, rest, env, id, n);
      SyncJobStays(mid, uts, node, last, env, id, n);
      StaysTransitive(sites, mid, SyncJob(mid, uts, node, last, env), id, n);
    }
  }

  /** A forward of port 80 whose tcp listener still listens elsewhere keeps it there, however a run goes. */
  lemma MovedForwardStays(env: Env)
    ensures var j := HalfForward(); var n := TcpName(BaseName([], j.f));
            var sites: Sites := map[1 := Site(OldListener(n), map[])];
            var b := ReconcileNode(Db({1}, [j.t], [j.f], []), sites, 1, env);
            1 in b && n in b[1].node.registry && forall host :: !ListensOn(b[1].node.registry[n].addr, host, 80)
  {
    hide BaseName, TcpName, ReconcileNode, ForwardIdOf, FirstEntry, Trim, GroupNames;
    var j := HalfForward();
    var n := TcpName(BaseName([], j.f));
    var db := Db({1}, [j.t], [j.f], []);
    var sites: Sites := map[1 := Site(OldListener(n), map[])];
    assert j.f in db.forwards && j.t in db.tunnels;
    assert n in GroupNames(BaseName([], j.f), 1) by { OwnTcp(BaseName([], j.f)); }
    NameOfForward([], j.f, n);
    OldListenerAlone(n);
    ReconcileSafe(db, sites, 1, env);
    RunMovesNothing(db, sites, 1, env, 1, n);
    var addr := ReconcileNode(db, sites, 1, env)[1].node.registry[n].addr;
    assert addr == "" && forall host :: ListensOn(addr, host, 80) ==> |addr| > 0;
  }

  lemma OwnTcp(base: string)
    ensures TcpName(base) in GroupNames(base, 1)
  {
    assert GroupNames(base, 1)[0] == TcpName(base);
  }
}
