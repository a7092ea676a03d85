/** One reconciliation of a node (go-backend/service/reconcile.go): push every forward of the node,
    adding first and hot-updating what exists, then delete services of forwards the node does not have. */
module Reconcile {
  import opened Text
  import opened Rows
  import opened Names
  import opened NodeServices
  import opened Address

  datatype Db = Db(nodes: set<int>, tunnels: seq<Tunnel>, forwards: seq<Forward>, userTunnels: seq<UserTunnel>)

  /** A connected node: its services and, by name, the address each of its chains leads to. */
  datatype Site = Site(node: NodeState, chains: map<string, string>)

  type Sites = map<int, Site>

  datatype Part = Relay | Main

  /** A command is carried out and answered, or it never arrives, or it is carried out and its answer is lost. */
  datatype Delivery = Delivered | Unheard | Unanswered

  datatype Verb = ChainVerb | AddVerb | HotVerb | PauseVerb

  /** For each forward and part of it: which listeners can be opened, which forwarders are accepted, and how the
      commands travel; and how listing the services and deleting the orphans travel. */
  datatype Env = Env(
    opens: (int, Part, nat) -> bool,
    accepts: (int, Part, nat) -> bool,
    link: (int, Part, Verb) -> Delivery,
    listing: Delivery,
    deletion: Delivery)

  /** What the commands for one group meet. */
  datatype Wire = Wire(opens: nat -> bool, accepts: nat -> bool, add: Delivery, hot: Delivery)

  function WireOf(env: Env, id: int, part: Part): Wire {
    Wire((k: nat) => env.opens(id, part, k), (k: nat) => env.accepts(id, part, k),
         env.link(id, part, AddVerb), env.link(id, part, HotVerb))
  }

  datatype Job = Job(f: Forward, t: Tunnel)

  // ---------------------------------------------------------------- what a forward asks for

  function MainConfigs(uts: seq<UserTunnel>, j: Job): seq<ServiceConfig> {
    var udp := if j.f.listenIp != "" then j.f.listenIp else j.t.udpListenAddr;
    ServiceConfigs(BaseName(uts, j.f), Governing(j.f, j.t), udp, j.f.inPort, j.t.kind, j.f.remoteAddr, j.f.strategy)
  }

  function Target(f: Forward): Option<Forwarder> { Some(BuildForwarder(f.remoteAddr, f.strategy)) }

  function MainUpdates(uts: seq<UserTunnel>, j: Job): seq<ForwarderUpdate> {
    var base := BaseName(uts, j.f);
    if j.t.kind == PORT_FORWARD then
      [ForwarderUpdate(TcpName(base), Target(j.f)), ForwarderUpdate(UdpName(base), Target(j.f))]
    else []
  }

  function RelayConfigs(uts: seq<UserTunnel>, f: Forward): seq<ServiceConfig> {
    [RelayConfig(BaseName(uts, f), f.outPort, f.remoteAddr, f.strategy)]
  }

  function RelayUpdates(uts: seq<UserTunnel>, f: Forward): seq<ForwarderUpdate> {
    [ForwarderUpdate(RelayName(BaseName(uts, f)), Target(f))]
  }

  // ---------------------------------------------------------------- the steps

  /** Add first; when the services exist, switch their forwarders without restarting a listener. */
  function SyncGroup(s: NodeState, cs: seq<ServiceConfig>, updates: seq<ForwarderUpdate>, w: Wire): (NodeState, bool) {
    var (added, reply) := Create(s, cs, w.opens);
    if w.add == Unheard then (s, false)
    else if w.add == Unanswered then (added, false)
    else if reply == Ok then (added, true)
    else if reply == AlreadyExists && updates != [] then
      var (switched, answer) := UpdateForwarder(s, updates, w.accepts);
      if w.hot == Unheard then (s, false) else (switched, w.hot == Delivered && answer == Ok)
    else (s, reply == AlreadyExists)
  }

  function SyncAt(sites: Sites, id: int, cs: seq<ServiceConfig>, updates: seq<ForwarderUpdate>, w: Wire)
      : (Sites, bool) {
    if id !in sites then (sites, false)
    else
      var (s, ok) := SyncGroup(sites[id].node, cs, updates, w);
      (sites[id := sites[id].(node := s)], ok)
  }

  /** Adding a chain that exists is refused, which counts as done. */
  function WithChain(chains: map<string, string>, chain: string, addr: string): map<string, string> {
    if chain in chains then chains else chains[chain := addr]
  }

  function ChainAt(sites: Sites, id: int, chain: string, addr: string, d: Delivery): (Sites, bool) {
    if id !in sites || d == Unheard then (sites, false)
    else (sites[id := sites[id].(chains := WithChain(sites[id].chains, chain, addr))], d == Delivered)
  }

  /** Where the chain of a tunnel forward leads: the relay's port on the exit node. */
  function ChainTarget(j: Job): string { FormatRemoteAddr(j.t.outIp, j.f.outPort) }

  function SyncRelay(sites: Sites, uts: seq<UserTunnel>, j: Job, env: Env): (Sites, bool) {
    if j.t.kind != TUNNEL_FORWARD then (sites, true)
    else
      var (chained, ok) := ChainAt(sites, j.t.inNodeId, ChainName(BaseName(uts, j.f)), ChainTarget(j),
          env.link(j.f.id, Relay, ChainVerb));
      if !ok then (chained, false)
      else SyncAt(chained, j.t.outNodeId, RelayConfigs(uts, j.f), RelayUpdates(uts, j.f), WireOf(env, j.f.id, Relay))
  }

  function SyncMain(sites: Sites, uts: seq<UserTunnel>, j: Job, env: Env): (Sites, bool) {
    SyncAt(sites, j.t.inNodeId, MainConfigs(uts, j), MainUpdates(uts, j), WireOf(env, j.f.id, Main))
  }

  function GentleSync(sites: Sites, uts: seq<UserTunnel>, j: Job, env: Env): (Sites, bool) {
    var (relayed, ok) := SyncRelay(sites, uts, j, env);
    if ok then SyncMain(relayed, uts, j, env) else (relayed, false)
  }

  /** The answer of a pause is not looked at. */
  function PauseAt(sites: Sites, id: int, names: seq<string>, d: Delivery): Sites {
    if id !in sites || d == Unheard then sites
    else sites[id := sites[id].(node := Pause(sites[id].node, names).0)]
  }

  function PauseJob(sites: Sites, uts: seq<UserTunnel>, node: int, j: Job, env: Env): Sites {
    if j.f.status != Paused then sites
    else
      var base := BaseName(uts, j.f);
      var main := if j.t.inNodeId == node
          then PauseAt(sites, node, OperatedNames(base, j.f), env.link(j.f.id, Main, PauseVerb)) else sites;
      if j.t.kind == TUNNEL_FORWARD && j.t.outNodeId == node
      then PauseAt(main, node, [RelayName(base)], env.link(j.f.id, Relay, PauseVerb)) else main
  }

  function SyncJob(sites: Sites, uts: seq<UserTunnel>, node: int, j: Job, env: Env): Sites {
    PauseJob(GentleSync(sites, uts, j, env).0, uts, node, j, env)
  }

  function SyncAll(sites: Sites, uts: seq<UserTunnel>, node: int, jobs: seq<Job>, env: Env): Sites {
    if jobs == [] then sites
    else SyncJob(SyncAll(sites, uts, node, jobs[..|jobs| - 1], env), uts, node, jobs[|jobs| - 1], env)
  }

  // ---------------------------------------------------------------- the work list

  predicate OnNode(t: Tunnel, node: int) { t.inNodeId == node || t.outNodeId == node }

  function JobsOf(forwards: seq<Forward>, t: Tunnel): (js: seq<Job>)
    ensures forall j :: j in js <==> j.t == t && j.f in forwards && j.f.tunnelId == t.id
  {
    if forwards == [] then []
    else
      var f := forwards[|forwards| - 1];
      JobsOf(forwards[..|forwards| - 1], t) + if f.tunnelId == t.id then [Job(f, t)] else []
  }

  /** getRequiredNodes succeeds. */
  predicate NodesExist(nodes: set<int>, t: Tunnel) {
    t.inNodeId in nodes && (t.kind == TUNNEL_FORWARD ==> t.outNodeId in nodes)
  }

  function Jobs(db: Db, tunnels: seq<Tunnel>, node: int): (js: seq<Job>)
    ensures forall j :: j in js <==> j.t in tunnels && OnNode(j.t, node) && NodesExist(db.nodes, j.t)
                                     && j.f in db.forwards && j.f.tunnelId == j.t.id
  {
    if tunnels == [] then []
    else
      var t := tunnels[|tunnels| - 1];
      Jobs(db, tunnels[..|tunnels| - 1], node)
      + if OnNode(t, node) && NodesExist(db.nodes, t) then JobsOf(db.forwards, t) else []
  }

  // ---------------------------------------------------------------- the clean-up

  /** The forwards joined to a tunnel of the node. */
  function LiveIds(db: Db, node: int): set<int> {
    set f, t | f in db.forwards && t in db.tunnels && f.tunnelId == t.id && OnNode(t, node) :: f.id
  }

  function Orphans(s: NodeState, live: set<int>): set<string> {
    set n | n in s.registry && ForwardIdOf(n).Some? && ForwardIdOf(n).value !in live
  }

  /** One DeleteService naming every orphan, in whatever order the node listed them. */
  function CleanUp(s: NodeState, live: set<int>): NodeState {
    var orphans := Orphans(s, live);
    if forall n | n in orphans :: n != "" && Trim(n) == n then
      NodeState(s.registry - orphans, Without(s.services, orphans))
    else s
  }

  /** The clean-up happens when the services could be listed and the deletion arrives. */
  function CleanAt(sites: Sites, db: Db, node: int, env: Env): Sites {
    if node !in sites || env.listing != Delivered || env.deletion == Unheard then sites
    else sites[node := sites[node].(node := CleanUp(sites[node].node, LiveIds(db, node)))]
  }

  function ReconcileNode(db: Db, sites: Sites, node: int, env: Env): Sites {
    CleanAt(SyncAll(sites, db.userTunnels, node, Jobs(db, db.tunnels, node), env), db, node, env)
  }
}
