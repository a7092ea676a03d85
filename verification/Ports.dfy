/** Port allocation of the panel (go-backend/service/forward.go, go-backend/service/tunnel.go): what each
    handler does to the rows, and why no two forwards ever share a port of a node. */
module Ports {
  import opened Text
  import opened Rows

  datatype Db = Db(nodes: map<int, Node>, tunnels: map<int, Tunnel>, forwards: map<int, Forward>)

  // ---------------------------------------------------------------- allocation

  predicate Counts(db: Db, i: int, exclude: Option<int>) {
    i in db.forwards && exclude != Some(i) && db.forwards[i].tunnelId in db.tunnels
  }

  function InPorts(db: Db, node: int, exclude: Option<int>): set<int> {
    set i | i in db.forwards && Counts(db, i, exclude) && db.tunnels[db.forwards[i].tunnelId].inNodeId == node
        && db.forwards[i].inPort != 0
      :: db.forwards[i].inPort
  }

  function OutPorts(db: Db, node: int, exclude: Option<int>): set<int> {
    set i | i in db.forwards && Counts(db, i, exclude) && db.tunnels[db.forwards[i].tunnelId].outNodeId == node
        && db.forwards[i].outPort != 0
      :: db.forwards[i].outPort
  }

  /** getAllUsedPortsOnNode. */
  function UsedPorts(db: Db, node: int, exclude: Option<int>): set<int> {
    InPorts(db, node, exclude) + OutPorts(db, node, exclude)
  }

  /** p is the least port of sta..end that is not used, and None says that all are. */
  ghost predicate IsLeastFree(p: Option<int>, used: set<int>, sta: int, end: int) {
    match p
    case None => forall q :: sta <= q <= end ==> q in used
    case Some(port) => sta <= port <= end && port !in used && forall q :: sta <= q < port ==> q in used
  }

  function FreeFrom(used: set<int>, sta: int, end: int): (p: Option<int>)
    ensures IsLeastFree(p, used, sta, end)
    decreases end - sta
  {
    if sta > end then None
    else if sta !in used then Some(sta)
    else FreeFrom(used, sta + 1, end)
  }

  lemma LeastFreeIsUnique(p: Option<int>, used: set<int>, sta: int, end: int)
    requires IsLeastFree(p, used, sta, end)
    ensures p == FreeFrom(used, sta, end)
  {
    var q := FreeFrom(used, sta, end);
    assert p.Some? && q.Some? ==> p.value == q.value;
  }

  function AllocatePortForNode(db: Db, node: int, exclude: Option<int>): Option<int> {
    if node !in db.nodes then None
    else FreeFrom(UsedPorts(db, node, exclude), db.nodes[node].portSta, db.nodes[node].portEnd)
  }

  predicate IsInPortAvailable(db: Db, tunnel: Tunnel, port: int, exclude: Option<int>) {
    && tunnel.inNodeId in db.nodes
    && db.nodes[tunnel.inNodeId].portSta <= port <= db.nodes[tunnel.inNodeId].portEnd
    && port !in UsedPorts(db, tunnel.inNodeId, exclude)
  }

  datatype Allocation = Allocation(inPort: int, outPort: int)

  function AllocatePorts(db: Db, tunnel: Tunnel, specified: Option<int>, exclude: Option<int>): Option<Allocation> {
    var inPort := if specified == None then AllocatePortForNode(db, tunnel.inNodeId, exclude)
                  else if IsInPortAvailable(db, tunnel, specified.value, exclude) then specified
                  else None;
    if inPort == None then None
    else if tunnel.kind != TUNNEL_FORWARD then Some(Allocation(inPort.value, 0))
    else
      var outPort := AllocatePortForNode(db, tunnel.outNodeId, exclude);
      if outPort == None then None else Some(Allocation(inPort.value, outPort.value))
  }

  predicate RequiredNodes(db: Db, tunnel: Tunnel) {
    tunnel.inNodeId in db.nodes && (tunnel.kind == TUNNEL_FORWARD ==> tunnel.outNodeId in db.nodes)
  }

  // ---------------------------------------------------------------- the handlers

  datatype NewForward = NewForward(userId: int, tunnelId: int, inPort: Option<int>, remoteAddr: string,
      strategy: string, listenIp: string)

  /** allowed: the permission, quota and address checks; synced: what the node commands answer.
      A refusal by the nodes keeps the row and its ports, in the error status. */
  function CreateForward(db: Db, id: int, d: NewForward, allowed: bool, synced: bool): (Db, bool) {
    if d.tunnelId !in db.tunnels || !db.tunnels[d.tunnelId].active || !allowed then (db, false)
    else
      var tunnel := db.tunnels[d.tunnelId];
      var ports := AllocatePorts(db, tunnel, d.inPort, None);
      if ports == None || !RequiredNodes(db, tunnel) then (db, false)
      else
        var f := Forward(id, d.userId, d.tunnelId, ports.value.inPort, ports.value.outPort, d.remoteAddr, d.strategy,
                         d.listenIp, if synced then Active else Error);
        (db.(forwards := db.forwards[id := f]), synced)
  }

  datatype Changes = Changes(tunnelId: int, inPort: Option<int>, remoteAddr: string, strategy: string,
      listenIp: string, sameInterface: bool)

  function PortsFor(db: Db, id: int, d: Changes): Option<Allocation>
    requires id in db.forwards && d.tunnelId in db.tunnels
  {
    var f := db.forwards[id];
    var moved := f.tunnelId != d.tunnelId;
    if moved || (d.inPort.Some? && d.inPort.value != f.inPort)
    then AllocatePorts(db, db.tunnels[d.tunnelId], d.inPort, Some(id))
    else Some(Allocation(f.inPort, f.outPort))
  }

  function Written(db: Db, id: int, f: Forward): Db { db.(forwards := db.forwards[id := f]) }

  /** When the services had to be rebuilt elsewhere the row follows even a refusal; otherwise a refusal
      changes nothing but the status. */
  function UpdateForward(db: Db, id: int, d: Changes, allowed: bool, synced: bool): (Db, bool) {
    if !allowed || id !in db.forwards || d.tunnelId !in db.tunnels || !db.tunnels[d.tunnelId].active then (db, false)
    else
      var f := db.forwards[id];
      var ports := PortsFor(db, id, d);
      if ports == None || !RequiredNodes(db, db.tunnels[d.tunnelId]) then (db, false)
      else
        var moved := f.tunnelId != d.tunnelId;
        var rebuilt := moved || f.listenIp != d.listenIp;
        var target := f.(tunnelId := d.tunnelId, inPort := ports.value.inPort, outPort := ports.value.outPort,
            listenIp := d.listenIp);
        var done := target.(remoteAddr := d.remoteAddr, strategy := d.strategy, status := Active);
        var untouched := !rebuilt && f.inPort == ports.value.inPort && d.sameInterface
                         && f.remoteAddr == d.remoteAddr && f.strategy == d.strategy;
        if moved && f.tunnelId !in db.tunnels then (db, false)
        else if synced || untouched then (Written(db, id, done), true)
        else if rebuilt then (Written(db, id, target.(status := Error)), false)
        else (Written(db, id, f.(status := Error)), false)
  }

  /** cleaned: the nodes are unreachable or gone, or they removed the services. */
  function DeleteForward(db: Db, id: int, allowed: bool, cleaned: bool): (Db, bool) {
    if id !in db.forwards || db.forwards[id].tunnelId !in db.tunnels || !allowed then (db, false)
    else if RequiredNodes(db, db.tunnels[db.forwards[id].tunnelId]) && !cleaned then (db, false)
    else (db.(forwards := db.forwards - {id}), true)
  }

  datatype NewTunnel = NewTunnel(inNodeId: int, outNodeId: Option<int>, kind: int, tcpListenAddr: string,
      udpListenAddr: string)

  function OrAny(addr: string): string { if addr == "" then "::" else addr }

  function CreateTunnel(db: Db, id: int, d: NewTunnel, outIp: string, nameFree: bool): (Db, bool) {
    if !nameFree || d.inNodeId !in db.nodes then (db, false)
    else if d.kind == TUNNEL_FORWARD
        && (d.outNodeId == None || d.outNodeId.value == d.inNodeId || d.outNodeId.value !in db.nodes) then (db, false)
    else
      var out := if d.kind == TUNNEL_FORWARD then d.outNodeId.value else d.inNodeId;
      var tunnel := Tunnel(id, d.inNodeId, out, d.kind, OrAny(d.tcpListenAddr), OrAny(d.udpListenAddr), outIp, true);
      (db.(tunnels := db.tunnels[id := tunnel]), true)
  }

  function UpdateTunnel(db: Db, id: int, tcpListenAddr: string, udpListenAddr: string, nameFree: bool): (Db, bool) {
    if id !in db.tunnels || !nameFree then (db, false)
    else
      var tunnel := db.tunnels[id].(tcpListenAddr := tcpListenAddr, udpListenAddr := udpListenAddr);
      (db.(tunnels := db.tunnels[id := tunnel]), true)
  }

  predicate Carries(db: Db, tunnelId: int) { exists i :: i in db.forwards && db.forwards[i].tunnelId == tunnelId }

  function DeleteTunnel(db: Db, id: int): (Db, bool) {
    if id !in db.tunnels || Carries(db, id) then (db, false)
    else (db.(tunnels := db.tunnels - {id}), true)
  }

  datatype Op =
    | CreateF(id: int, nf: NewForward, allowed: bool, synced: bool)
    | UpdateF(id: int, changes: Changes, allowed: bool, synced: bool)
    | DeleteF(id: int, allowed: bool, cleaned: bool)
    | CreateT(id: int, nt: NewTunnel, outIp: string, nameFree: bool)
    | UpdateT(id: int, tcpListenAddr: string, udpListenAddr: string, nameFree: bool)
    | DeleteT(id: int)
    | SetNode(id: int, node: Node)
    | DropNode(id: int)

  function Exec(db: Db, op: Op): Db {
    match op
    case CreateF(id, nf, allowed, synced) => CreateForward(db, id, nf, allowed, synced).0
    case UpdateF(id, changes, allowed, synced) => UpdateForward(db, id, changes, allowed, synced).0
    case DeleteF(id, allowed, cleaned) => DeleteForward(db, id, allowed, cleaned).0
    case CreateT(id, nt, outIp, nameFree) => CreateTunnel(db, id, nt, outIp, nameFree).0
    case UpdateT(id, tcp, udp, nameFree) => UpdateTunnel(db, id, tcp, udp, nameFree).0
    case DeleteT(id) => DeleteTunnel(db, id).0
    case SetNode(id, node) => db.(nodes := db.nodes[id := node])
    case DropNode(id) => db.(nodes := db.nodes - {id})
  }

  function Run(db: Db, ops: seq<Op>): Db {
    if ops == [] then db else Exec(Run(db, ops[..|ops| - 1]), ops[|ops| - 1])
  }

  /** A database hands out every row id once. */
  ghost predicate NewIds(db: Db, ops: seq<Op>) {
    forall k :: 0 <= k < |ops| ==> NewId(Run(db, ops[..k]), ops[k])
  }

  predicate NewId(db: Db, op: Op) {
    && (op.CreateF? ==> op.id !in db.forwards)
    && (op.CreateT? ==> op.id !in db.tunnels)
  }

  // ---------------------------------------------------------------- no clash

  datatype End = In | Out

  /** Forward i occupies port p of node n with that end. */
  ghost predicate Takes(db: Db, i: int, e: End, n: int, p: int) {
    && Counts(db, i, None) && p != 0
    && var f, t := db.forwards[i], db.tunnels[db.forwards[i].tunnelId];
       if e == In then t.inNodeId == n && f.inPort == p else t.outNodeId == n && f.outPort == p
  }

  ghost predicate NoClash(db: Db) {
    forall i, e, j, e', n, p :: Takes(db, i, e, n, p) && Takes(db, j, e', n, p) ==> i == j && e == e'
  }

  ghost predicate Sound(db: Db) {
    && NoClash(db)
    && (forall i :: i in db.forwards ==> db.forwards[i].tunnelId in db.tunnels)
    && (forall t :: t in db.tunnels && db.tunnels[t].kind == TUNNEL_FORWARD ==>
          db.tunnels[t].inNodeId != db.tunnels[t].outNodeId)
  }

  /** The used ports are exactly the ports some other forward takes. */
  lemma UsedIffTaken(db: Db, node: int, exclude: Option<int>, p: int)
    ensures p in UsedPorts(db, node, exclude) <==> Taken(db, node, exclude, p)
  {
    if p in InPorts(db, node, exclude) {
      var i :| i in db.forwards && Counts(db, i, exclude) && db.tunnels[db.forwards[i].tunnelId].inNodeId == node
          && db.forwards[i].inPort == p && p != 0;
      assert Takes(db, i, In, node, p);
    }
    if p in OutPorts(db, node, exclude) {
      var i :| i in db.forwards && Counts(db, i, exclude) && db.tunnels[db.forwards[i].tunnelId].outNodeId == node
          && db.forwards[i].outPort == p && p != 0;
      assert Takes(db, i, Out, node, p);
    }
    forall i, e | exclude != Some(i) && Takes(db, i, e, node, p) ensures p in UsedPorts(db, node, exclude) {
      assert Counts(db, i, exclude);
    }
  }

  /** An allocation is in range and clear of every other forward, and it fails only when it must. */
  lemma AllocatedIsFree(db: Db, tunnel: Tunnel, specified: Option<int>, exclude: Option<int>)
    ensures var r := AllocatePorts(db, tunnel, specified, exclude);
            r.Some? ==>
              && RequiredNodes(db, tunnel)
              && r.value.inPort !in UsedPorts(db, tunnel.inNodeId, exclude)
              && (specified.Some? ==> r.value.inPort == specified.value)
              && db.nodes[tunnel.inNodeId].portSta <= r.value.inPort <= db.nodes[tunnel.inNodeId].portEnd
              && (tunnel.kind == TUNNEL_FORWARD ==>
                    && r.value.outPort !in UsedPorts(db, tunnel.outNodeId, exclude)
                    && db.nodes[tunnel.outNodeId].portSta <= r.value.outPort <= db.nodes[tunnel.outNodeId].portEnd)
              && (tunnel.kind != TUNNEL_FORWARD ==> r.value.outPort == 0)
  {
    hide UsedPorts;
  }

  /** Some forward other than the excluded one takes the port. */
  ghost predicate Taken(db: Db, node: int, exclude: Option<int>, p: int) {
    exists i, e :: exclude != Some(i) && Takes(db, i, e, node, p)
  }

  /** Automatic allocation answers the least port of the range that no other forward takes on the node,
      and fails exactly when the node is gone or every port of its range is taken. */
  lemma AllocationIsLeast(db: Db, node: int, exclude: Option<int>)
    ensures var r := AllocatePortForNode(db, node, exclude);
            && (r == None <==> node !in db.nodes
                               || forall p :: db.nodes[node].portSta <= p <= db.nodes[node].portEnd ==>
                                     Taken(db, node, exclude, p))
            && (r.Some? ==>
                  && db.nodes[node].portSta <= r.value <= db.nodes[node].portEnd
                  && !Taken(db, node, exclude, r.value)
                  && forall p :: db.nodes[node].portSta <= p < r.value ==> Taken(db, node, exclude, p))
  {
    hide UsedPorts, Taken;
    var used := UsedPorts(db, node, exclude);
    forall p ensures p in used <==> Taken(db, node, exclude, p) {
      UsedIffTaken(db, node, exclude, p);
    }
  }

  /** Writing a row whose ports came from an allocation that left the row itself out keeps the ports apart. */
  lemma WrittenSound(db: Db, id: int, f: Forward, specified: Option<int>, exclude: Option<int>)
    requires Sound(db) && f.tunnelId in db.tunnels
    requires exclude == Some(id) || (exclude == None && id !in db.forwards)
    requires AllocatePorts(db, db.tunnels[f.tunnelId], specified, exclude) == Some(Allocation(f.inPort, f.outPort))
    ensures Sound(Written(db, id, f))
  {
    hide AllocatePorts, UsedPorts;
    var db', tunnel := Written(db, id, f), db.tunnels[f.tunnelId];
    AllocatedIsFree(db, tunnel, specified, exclude);
    forall j, e, e', n, p | j != id && Takes(db', id, e, n, p) && Takes(db', j, e', n, p) ensures false {
      assert Takes(db, j, e', n, p);
      UsedIffTaken(db, n, exclude, p);
    }
    forall i, e, j, e', n, p | Takes(db', i, e, n, p) && Takes(db', j, e', n, p) ensures i == j && e == e' {
      if i != id && j != id {
        assert Takes(db, i, e, n, p) && Takes(db, j, e', n, p);
      }
    }
  }

  /** Rewriting a row with the same tunnel and ports changes no port. */
  lemma RewrittenSound(db: Db, id: int, f: Forward)
    requires Sound(db) && id in db.forwards
    requires f.tunnelId == db.forwards[id].tunnelId && f.inPort == db.forwards[id].inPort
               && f.outPort == db.forwards[id].outPort
    ensures Sound(Written(db, id, f))
  {
    var db' := Written(db, id, f);
    forall i, e, n, p | Takes(db', i, e, n, p) ensures Takes(db, i, e, n, p) {
    }
  }

  lemma TunnelsSound(db: Db, db': Db)
    requires Sound(db) && db'.forwards == db.forwards
    requires forall t :: t in db'.tunnels && db'.tunnels[t].kind == TUNNEL_FORWARD ==>
               db'.tunnels[t].inNodeId != db'.tunnels[t].outNodeId
    requires forall i :: i in db.forwards ==> var t := db.forwards[i].tunnelId;
               t in db'.tunnels && t in db.tunnels && db'.tunnels[t].inNodeId == db.tunnels[t].inNodeId
                   && db'.tunnels[t].outNodeId == db.tunnels[t].outNodeId
    ensures Sound(db')
  {
    forall i, e, n, p | Takes(db', i, e, n, p) ensures Takes(db, i, e, n, p) {
    }
  }

  lemma UpdateSound(db: Db, id: int, d: Changes, allowed: bool, synced: bool)
    requires Sound(db)
    ensures Sound(UpdateForward(db, id, d, allowed, synced).0)
  {
    hide AllocatePorts, Sound, RequiredNodes;
    var db' := UpdateForward(db, id, d, allowed, synced).0;
    if db' != db {
      var f, f' := db.forwards[id], db'.forwards[id];
      if f'.tunnelId == f.tunnelId && f'.inPort == f.inPort && f'.outPort == f.outPort {
        RewrittenSound(db, id, f');
      } else {
        WrittenSound(db, id, f', d.inPort, Some(id));
      }
    }
  }

  lemma ExecSound(db: Db, op: Op)
    requires Sound(db) && NewId(db, op)
    ensures Sound(Exec(db, op))
  {
    hide AllocatePorts, NoClash, UpdateForward;
    match op
    case CreateF(id, nf, allowed, synced) =>
      var db' := CreateForward(db, id, nf, allowed, synced).0;
      if db' != db {
        WrittenSound(db, id, db'.forwards[id], nf.inPort, None);
      }
    case UpdateF(id, changes, allowed, synced) => UpdateSound(db, id, changes, allowed, synced);
    case DeleteF(id, allowed, cleaned) =>
      var db' := DeleteForward(db, id, allowed, cleaned).0;
      DeletedNoClash(db, db');
    case CreateT(id, nt, outIp, nameFree) => TunnelsSound(db, Exec(db, op));
    case UpdateT(id, tcp, udp, nameFree) => TunnelsSound(db, Exec(db, op));
    case DeleteT(id) => TunnelsSound(db, Exec(db, op));
    case SetNode(id, node) => TunnelsSound(db, Exec(db, op));
    case DropNode(id) => TunnelsSound(db, Exec(db, op));
  }

  lemma DeletedNoClash(db: Db, db': Db)
    requires NoClash(db) && db'.tunnels == db.tunnels
    requires forall i :: i in db'.forwards ==> i in db.forwards && db'.forwards[i] == db.forwards[i]
    ensures NoClash(db')
  {
    forall i, e, n, p | Takes(db', i, e, n, p) ensures Takes(db, i, e, n, p) {
    }
  }

  /** Over every run of the handlers, with every outcome of the checks and of the node commands,
      no two nonzero ports taken on one node coincide. */
  lemma {:induction false} RunSound(db: Db, ops: seq<Op>)
    requires Sound(db) && NewIds(db, ops)
    ensures Sound(Run(db, ops))
  {
    hide Exec, Sound, NewId;
    if ops != [] {
      var before := ops[..|ops| - 1];
      assert forall k :: 0 <= k < |before| ==> before[..k] == ops[..k];
      RunSound(db, before);
      ExecSound(Run(db, before), ops[|ops| - 1]);
    }
  }

  // ---------------------------------------------------------------- the rows in place

  /** No two forwards share a port of a node, before and after each handler. */
  class Store {
    var nodes: map<int, Node>
    var tunnels: map<int, Tunnel>
    var forwards: map<int, Forward>

    function Now(): Db reads this { Db(nodes, tunnels, forwards) }

    constructor ()
      ensures Now() == Db(map[], map[], map[]) && Sound(Now())
    {
      nodes, tunnels, forwards := map[], map[], map[];
    }

    /** The two queries and their loops; the rows come in any order. */
    method GetAllUsedPortsOnNode(node: int, exclude: Option<int>) returns (usedPorts: set<int>)
      ensures usedPorts == UsedPorts(Now(), node, exclude)
    {
      usedPorts := {};
      var rows := forwards.Keys;
      ghost var seen: set<int> := {};
      while rows != {}
        invariant rows + seen == forwards.Keys && rows !! seen
        invariant usedPorts == set i | i in seen && Counts(Now(), i, exclude)
                    && tunnels[forwards[i].tunnelId].inNodeId == node && forwards[i].inPort != 0 :: forwards[i].inPort
        decreases rows
      {
        SomeMember(rows);
        var i :| i in rows;
        rows, seen := rows - {i}, seen + {i};
        var f := forwards[i];
        if exclude != Some(i) && f.tunnelId in tunnels && tunnels[f.tunnelId].inNodeId == node && f.inPort != 0 {
          usedPorts := usedPorts + {f.inPort};
        }
      }
      assert seen == forwards.Keys;
      assert usedPorts == InPorts(Now(), node, exclude);
      rows, seen := forwards.Keys, {};
      while rows != {}
        invariant rows + seen == forwards.Keys && rows !! seen
        invariant usedPorts == InPorts(Now(), node, exclude)
                               + set i | i in seen && Counts(Now(), i, exclude)
                                   && tunnels[forwards[i].tunnelId].outNodeId == node && forwards[i].outPort != 0 ::
                                         forwards[i].outPort
        decreases rows
      {
        SomeMember(rows);
        var i :| i in rows;
        rows, seen := rows - {i}, seen + {i};
        var f := forwards[i];
        if exclude != Some(i) && f.tunnelId in tunnels && tunnels[f.tunnelId].outNodeId == node && f.outPort != 0 {
          usedPorts := usedPorts + {f.outPort};
        }
      }
      assert seen == forwards.Keys;
    }

    method AllocatePort(node: int, exclude: Option<int>) returns (p: Option<int>)
      ensures p == AllocatePortForNode(Now(), node, exclude)
    {
      hide UsedPorts;
      if node !in nodes { return None; }
      var usedPorts := GetAllUsedPortsOnNode(node, exclude);
      var port := nodes[node].portSta;
      while port <= nodes[node].portEnd
        invariant forall q :: nodes[node].portSta <= q < port ==> q in usedPorts
      {
        if port !in usedPorts {
          LeastFreeIsUnique(Some(port), usedPorts, nodes[node].portSta, nodes[node].portEnd);
          return Some(port);
        }
        port := port + 1;
      }
      LeastFreeIsUnique(None, usedPorts, nodes[node].portSta, nodes[node].portEnd);
      p := None;
    }

    method Allocate(tunnel: Tunnel, specified: Option<int>, exclude: Option<int>) returns (r: Option<Allocation>)
      ensures r == AllocatePorts(Now(), tunnel, specified, exclude)
    {
      hide UsedPorts, AllocatePortForNode;
      var inPort := specified;
      if specified.Some? {
        if tunnel.inNodeId !in nodes { return None; }
        if specified.value < nodes[tunnel.inNodeId].portSta
            || specified.value > nodes[tunnel.inNodeId].portEnd { return None; }
        var usedPorts := GetAllUsedPortsOnNode(tunnel.inNodeId, exclude);
        if specified.value in usedPorts { return None; }
      } else {
        inPort := AllocatePort(tunnel.inNodeId, exclude);
        if inPort == None { return None; }
      }
      if tunnel.kind != TUNNEL_FORWARD { return Some(Allocation(inPort.value, 0)); }
      var outPort := AllocatePort(tunnel.outNodeId, exclude);
      r := if outPort == None then None else Some(Allocation(inPort.value, outPort.value));
    }

    /** The row is written before the nodes are asked. */
    method Create(id: int, d: NewForward, allowed: bool, synced: bool) returns (ok: bool)
      requires id !in forwards
      requires Sound(Now())
      modifies this`forwards
      ensures (Now(), ok) == CreateForward(old(Now()), id, d, allowed, synced)
      ensures Sound(Now())
    {
      hide Sound, AllocatePorts;
      ExecSound(Now(), CreateF(id, d, allowed, synced));
      if d.tunnelId !in tunnels || !tunnels[d.tunnelId].active || !allowed { return false; }
      var tunnel := tunnels[d.tunnelId];
      var ports := Allocate(tunnel, d.inPort, None);
      if ports == None { return false; }
      forwards := forwards[id := Forward(id, d.userId, d.tunnelId, ports.value.inPort, ports.value.outPort,
          d.remoteAddr, d.strategy, d.listenIp, Active)];
      if !RequiredNodes(Now(), tunnel) {
        forwards := forwards - {id};
        assert forwards == old(forwards);
        return false;
      }
      if !synced {
        forwards := forwards[id := forwards[id].(status := Error)];
      }
      assert forwards == CreateForward(old(Now()), id, d, allowed, synced).0.forwards;
      ok := synced;
    }

    method Update(id: int, d: Changes, allowed: bool, synced: bool) returns (ok: bool)
      requires Sound(Now())
      modifies this`forwards
      ensures (Now(), ok) == UpdateForward(old(Now()), id, d, allowed, synced)
      ensures Sound(Now())
    {
      hide Sound, AllocatePorts;
      ExecSound(Now(), UpdateF(id, d, allowed, synced));
      if !allowed || id !in forwards || d.tunnelId !in tunnels || !tunnels[d.tunnelId].active { return false; }
      var existing, tunnel := forwards[id], tunnels[d.tunnelId];
      var moved := existing.tunnelId != d.tunnelId;
      var updated := existing.(tunnelId := d.tunnelId, listenIp := d.listenIp);
      if moved || (d.inPort.Some? && d.inPort.value != existing.inPort) {
        var ports := Allocate(tunnel, d.inPort, Some(id));
        if ports == None { return false; }
        updated := updated.(inPort := ports.value.inPort, outPort := ports.value.outPort);
      }
      if !RequiredNodes(Now(), tunnel) { return false; }
      if moved || existing.listenIp != d.listenIp {
        if moved && existing.tunnelId !in tunnels { return false; }
        if !synced {
          forwards := forwards[id := updated.(status := Error)];
          return false;
        }
      } else {
        var addrChanged := existing.remoteAddr != d.remoteAddr || existing.strategy != d.strategy;
        if (existing.inPort != updated.inPort || !d.sameInterface || addrChanged) && !synced {
          forwards := forwards[id := existing.(status := Error)];
          return false;
        }
      }
      forwards := forwards[id := updated.(remoteAddr := d.remoteAddr, strategy := d.strategy, status := Active)];
      ok := true;
    }

    method Delete(id: int, allowed: bool, cleaned: bool) returns (ok: bool)
      requires Sound(Now())
      modifies this`forwards
      ensures (Now(), ok) == DeleteForward(old(Now()), id, allowed, cleaned)
      ensures Sound(Now())
    {
      hide Sound;
      ExecSound(Now(), DeleteF(id, allowed, cleaned));
      if id !in forwards || forwards[id].tunnelId !in tunnels || !allowed { return false; }
      if RequiredNodes(Now(), tunnels[forwards[id].tunnelId]) && !cleaned { return false; }
      forwards := forwards - {id};
      ok := true;
    }

    method AddTunnel(id: int, d: NewTunnel, outIp: string, nameFree: bool) returns (ok: bool)
      requires Sound(Now())
      requires id !in tunnels
      modifies this`tunnels
      ensures (Now(), ok) == CreateTunnel(old(Now()), id, d, outIp, nameFree)
      ensures Sound(Now())
    {
      hide Sound;
      ExecSound(Now(), CreateT(id, d, outIp, nameFree));
      if !nameFree || d.inNodeId !in nodes { return false; }
      var outNodeId := d.inNodeId;
      if d.kind == TUNNEL_FORWARD {
        if d.outNodeId == None || d.outNodeId.value == d.inNodeId { return false; }
        outNodeId := d.outNodeId.value;
        if outNodeId !in nodes { return false; }
      }
      tunnels := tunnels[id := Tunnel(id, d.inNodeId, outNodeId, d.kind, OrAny(d.tcpListenAddr),
          OrAny(d.udpListenAddr), outIp, true)];
      ok := true;
    }

    method ChangeTunnel(id: int, tcpListenAddr: string, udpListenAddr: string, nameFree: bool) returns (ok: bool)
      requires Sound(Now())
      modifies this`tunnels
      ensures (Now(), ok) == UpdateTunnel(old(Now()), id, tcpListenAddr, udpListenAddr, nameFree)
      ensures Sound(Now())
    {
      hide Sound;
      ExecSound(Now(), UpdateT(id, tcpListenAddr, udpListenAddr, nameFree));
      if id !in tunnels || !nameFree { return false; }
      tunnels := tunnels[id := tunnels[id].(tcpListenAddr := tcpListenAddr, udpListenAddr := udpListenAddr)];
      ok := true;
    }

    method RemoveTunnel(id: int) returns (ok: bool)
      requires Sound(Now())
      modifies this`tunnels
      ensures (Now(), ok) == DeleteTunnel(old(Now()), id)
      ensures Sound(Now())
    {
      hide Sound;
      ExecSound(Now(), DeleteT(id));
      if id !in tunnels || Carries(Now(), id) { return false; }
      tunnels := tunnels - {id};
      ok := true;
    }
  }
}
