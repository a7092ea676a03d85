/** What the handlers write to the rows, column by column, and exactly when they refuse
    (go-backend/service/forward.go, go-backend/service/tunnel.go). */
module PortRows {
  import opened Text
  import opened Rows
  import opened Ports

  /** A port of the node's range that no other forward takes there. */
  ghost predicate Available(db: Db, node: int, exclude: Option<int>, p: int) {
    && node in db.nodes && db.nodes[node].portSta <= p <= db.nodes[node].portEnd
    && !Taken(db, node, exclude, p)
  }

  ghost predicate SomeAvailable(db: Db, node: int, exclude: Option<int>) {
    exists p :: Available(db, node, exclude, p)
  }

  ghost predicate LeastAvailable(db: Db, node: int, exclude: Option<int>, p: int) {
    Available(db, node, exclude, p) && forall q :: Available(db, node, exclude, q) ==> p <= q
  }

  lemma AutomaticPort(db: Db, node: int, exclude: Option<int>)
    ensures var r := AllocatePortForNode(db, node, exclude);
            && (r.Some? <==> SomeAvailable(db, node, exclude))
            && (r.Some? ==> LeastAvailable(db, node, exclude, r.value))
  {
    hide AllocatePortForNode, Taken;
    AllocationIsLeast(db, node, exclude);
    var r := AllocatePortForNode(db, node, exclude);
    if r.Some? {
      assert Available(db, node, exclude, r.value);
    }
  }

  /** The ports asked for can be had: the entry port requested, or some entry port, and some exit port. */
  ghost predicate PortsCanBeHad(db: Db, t: Tunnel, specified: Option<int>, exclude: Option<int>) {
    && (if specified.Some? then Available(db, t.inNodeId, exclude, specified.value)
        else SomeAvailable(db, t.inNodeId, exclude))
    && (t.kind == TUNNEL_FORWARD ==> SomeAvailable(db, t.outNodeId, exclude))
  }

  /** The row has the entry port requested, or the least there is; and the least exit port, or none at all. */
  ghost predicate HasPorts(db: Db, t: Tunnel, specified: Option<int>, exclude: Option<int>, f: Forward) {
    && (if specified.Some? then f.inPort == specified.value && Available(db, t.inNodeId, exclude, f.inPort)
        else LeastAvailable(db, t.inNodeId, exclude, f.inPort))
    && (if t.kind == TUNNEL_FORWARD then LeastAvailable(db, t.outNodeId, exclude, f.outPort) else f.outPort == 0)
  }

  lemma AllocatedPorts(db: Db, t: Tunnel, specified: Option<int>, exclude: Option<int>, f: Forward)
    ensures var r := AllocatePorts(db, t, specified, exclude);
            && (r.Some? <==> PortsCanBeHad(db, t, specified, exclude))
            && (r == Some(Allocation(f.inPort, f.outPort)) ==>
                  HasPorts(db, t, specified, exclude, f) && RequiredNodes(db, t))
  {
    hide AllocatePortForNode, UsedPorts, Taken, SomeAvailable, LeastAvailable;
    AutomaticPort(db, t.inNodeId, exclude);
    AutomaticPort(db, t.outNodeId, exclude);
    AllocatedIsFree(db, t, specified, exclude);
    if specified.Some? {
      UsedIffTaken(db, t.inNodeId, exclude, specified.value);
    }
  }

  /** Nothing but the row of that id differs. */
  ghost predicate OnlyRow(db: Db, db': Db, id: int) {
    && db'.nodes == db.nodes && db'.tunnels == db.tunnels
    && forall i :: i != id ==>
         && (i in db'.forwards <==> i in db.forwards)
         && (i in db.forwards ==> db'.forwards[i] == db.forwards[i])
  }

  // ---------------------------------------------------------------- creating

  ghost predicate CreateProceeds(db: Db, d: NewForward, allowed: bool) {
    && allowed && d.tunnelId in db.tunnels && db.tunnels[d.tunnelId].active
    && PortsCanBeHad(db, db.tunnels[d.tunnelId], d.inPort, None)
  }

  /** A creation answers true if and only if it proceeds and the nodes accept; a row is written whenever it proceeds, as
      asked and in the error status when they do not. */
  lemma CreateWrites(db: Db, id: int, d: NewForward, allowed: bool, synced: bool)
    requires id !in db.forwards
    ensures var (db', ok) := CreateForward(db, id, d, allowed, synced);
            && (ok <==> CreateProceeds(db, d, allowed) && synced)
            && OnlyRow(db, db', id)
            && (id in db'.forwards <==> CreateProceeds(db, d, allowed))
    ensures var db' := CreateForward(db, id, d, allowed, synced).0;
            id in db'.forwards ==>
              var f := db'.forwards[id];
              && f.id == id && f.userId == d.userId && f.tunnelId == d.tunnelId && f.remoteAddr == d.remoteAddr
              && f.strategy == d.strategy && f.listenIp == d.listenIp
              && f.status == (if synced then Active else Error)
              && HasPorts(db, db.tunnels[d.tunnelId], d.inPort, None, f)
  {
    hide AllocatePorts, PortsCanBeHad, HasPorts, RequiredNodes;
    if d.tunnelId in db.tunnels {
      var db', t := CreateForward(db, id, d, allowed, synced).0, db.tunnels[d.tunnelId];
      var r := AllocatePorts(db, t, d.inPort, None);
      var f := Forward(id, d.userId, d.tunnelId, if r.Some? then r.value.inPort else 0,
          if r.Some? then r.value.outPort else 0, d.remoteAddr, d.strategy, d.listenIp,
          if synced then Active else Error);
      AllocatedPorts(db, t, d.inPort, None, f);
    }
  }

  // ---------------------------------------------------------------- updating

  /** The row stays on its tunnel and no other entry port is asked for. */
  predicate KeepsPorts(f: Forward, d: Changes) {
    f.tunnelId == d.tunnelId && (d.inPort == None || d.inPort.value == f.inPort)
  }

  ghost predicate UpdateProceeds(db: Db, id: int, d: Changes, allowed: bool) {
    && allowed && id in db.forwards && d.tunnelId in db.tunnels && db.tunnels[d.tunnelId].active
    && db.tunnels[d.tunnelId].inNodeId in db.nodes
    && (db.tunnels[d.tunnelId].kind == TUNNEL_FORWARD ==> db.tunnels[d.tunnelId].outNodeId in db.nodes)
    && db.forwards[id].tunnelId in db.tunnels
    && (KeepsPorts(db.forwards[id], d) || PortsCanBeHad(db, db.tunnels[d.tunnelId], d.inPort, Some(id)))
  }

  /** What the nodes see is as it was. */
  predicate NothingToDo(f: Forward, d: Changes) {
    KeepsPorts(f, d) && f.listenIp == d.listenIp && d.sameInterface && f.remoteAddr == d.remoteAddr
    && f.strategy == d.strategy
  }

  /** The ports a row has after an update that proceeds: those it had, or those asked for. */
  ghost predicate PortsAsAsked(db: Db, id: int, d: Changes, f: Forward)
    requires id in db.forwards && d.tunnelId in db.tunnels
  {
    if KeepsPorts(db.forwards[id], d)
    then f.inPort == db.forwards[id].inPort && f.outPort == db.forwards[id].outPort
    else HasPorts(db, db.tunnels[d.tunnelId], d.inPort, Some(id), f)
  }

  /** The ports the update goes on with are such. */
  lemma PortsForAsAsked(db: Db, id: int, d: Changes, f: Forward)
    requires id in db.forwards && d.tunnelId in db.tunnels
    ensures var r := PortsFor(db, id, d);
            && (r.Some? <==>
                  KeepsPorts(db.forwards[id], d) || PortsCanBeHad(db, db.tunnels[d.tunnelId], d.inPort, Some(id)))
            && (r == Some(Allocation(f.inPort, f.outPort)) ==> PortsAsAsked(db, id, d, f))
            && (r.Some? && d.inPort.Some? ==> r.value.inPort == d.inPort.value)
            && (KeepsPorts(db.forwards[id], d) ==> r.Some? && r.value.inPort == db.forwards[id].inPort)
  {
    hide AllocatePorts, PortsCanBeHad, HasPorts, UsedPorts, RequiredNodes;
    AllocatedIsFree(db, db.tunnels[d.tunnelId], d.inPort, Some(id));
    AllocatedPorts(db, db.tunnels[d.tunnelId], d.inPort, Some(id), f);
  }

  /** An update answers true if and only if it proceeds and the nodes accept or have nothing to do. */
  lemma UpdateAnswers(db: Db, id: int, d: Changes, allowed: bool, synced: bool)
    ensures var (db', ok) := UpdateForward(db, id, d, allowed, synced);
            && (ok <==> UpdateProceeds(db, id, d, allowed) && (synced || NothingToDo(db.forwards[id], d)))
            && OnlyRow(db, db', id) && db'.forwards.Keys == db.forwards.Keys
            && (!UpdateProceeds(db, id, d, allowed) ==> db' == db)
  {
    hide PortsFor, PortsCanBeHad;
    if id in db.forwards && d.tunnelId in db.tunnels {
      PortsForAsAsked(db, id, d, db.forwards[id]);
    }
  }

  /** What it writes: on success the row as asked, with its ports; when the nodes refuse, the new place alone if the
      services had to move there, or nothing at all but the error status. */
  lemma UpdateWrites(db: Db, id: int, d: Changes, allowed: bool, synced: bool)
    requires UpdateProceeds(db, id, d, allowed)
    ensures var (db', ok) := UpdateForward(db, id, d, allowed, synced); var f := db.forwards[id];
            && id in db'.forwards && db'.forwards[id].id == f.id && db'.forwards[id].userId == f.userId
            && (ok ==>
                  var f' := db'.forwards[id];
                  && f'.tunnelId == d.tunnelId && f'.remoteAddr == d.remoteAddr && f'.strategy == d.strategy
                  && f'.listenIp == d.listenIp && f'.status == Active && PortsAsAsked(db, id, d, f')
                  && (d.inPort.Some? ==> f'.inPort == d.inPort.value))
            && (!ok && (f.tunnelId != d.tunnelId || f.listenIp != d.listenIp) ==>
                  var f' := db'.forwards[id];
                  && f'.tunnelId == d.tunnelId && f'.listenIp == d.listenIp && PortsAsAsked(db, id, d, f')
                  && f'.remoteAddr == f.remoteAddr && f'.strategy == f.strategy && f'.status == Error)
            && (!ok && f.tunnelId == d.tunnelId && f.listenIp == d.listenIp ==>
                  db'.forwards[id] == f.(status := Error))
  {
    hide PortsFor, PortsCanBeHad, HasPorts;
    PortsForAsAsked(db, id, d, UpdateForward(db, id, d, allowed, synced).0.forwards[id]);
  }

  // ---------------------------------------------------------------- deleting

  /** A forward is deleted, and nothing else changes, if and only if it and its tunnel exist, the caller may, and its
      nodes removed its services, are unreachable or gone. */
  lemma DeleteWrites(db: Db, id: int, allowed: bool, cleaned: bool)
    ensures var (db', ok) := DeleteForward(db, id, allowed, cleaned);
            && OnlyRow(db, db', id)
            && (ok <==> id in db.forwards && id !in db'.forwards)
            && (!ok ==> db' == db)
            && (ok <==>
                  && id in db.forwards && db.forwards[id].tunnelId in db.tunnels && allowed
                  && var t := db.tunnels[db.forwards[id].tunnelId];
                     cleaned || t.inNodeId !in db.nodes || (t.kind == TUNNEL_FORWARD && t.outNodeId !in db.nodes))
  {
  }

  // ---------------------------------------------------------------- tunnels

  ghost predicate OnlyTunnel(db: Db, db': Db, id: int) {
    && db'.nodes == db.nodes && db'.forwards == db.forwards
    && forall i :: i != id ==>
         && (i in db'.tunnels <==> i in db.tunnels)
         && (i in db.tunnels ==> db'.tunnels[i] == db.tunnels[i])
  }

  /** A tunnel is made if and only if its name is free and its nodes exist, a tunnel forward leaving by another one than
      it enters; any other tunnel leaves where it enters. Without a listen address it listens on any. */
  lemma TunnelCreated(db: Db, id: int, d: NewTunnel, outIp: string, nameFree: bool)
    requires id !in db.tunnels
    ensures var (db', ok) := CreateTunnel(db, id, d, outIp, nameFree);
            && OnlyTunnel(db, db', id) && (ok <==> id in db'.tunnels)
            && (ok <==>
                  && nameFree && d.inNodeId in db.nodes
                  && (d.kind == TUNNEL_FORWARD ==>
                        d.outNodeId.Some? && d.outNodeId.value in db.nodes && d.outNodeId.value != d.inNodeId))
            && (ok ==>
                  var t := db'.tunnels[id];
                  && t.id == id && t.inNodeId == d.inNodeId && t.kind == d.kind && t.outIp == outIp && t.active
                  && (t.outNodeId == d.inNodeId <==> d.kind != TUNNEL_FORWARD)
                  && (d.kind == TUNNEL_FORWARD ==> Some(t.outNodeId) == d.outNodeId)
                  && (d.tcpListenAddr != "" ==> t.tcpListenAddr == d.tcpListenAddr)
                  && (d.udpListenAddr != "" ==> t.udpListenAddr == d.udpListenAddr)
                  && (d.tcpListenAddr == "" ==> t.tcpListenAddr == "::")
                  && (d.udpListenAddr == "" ==> t.udpListenAddr == "::"))
  {
  }

  /** A change of a tunnel rewrites its listen addresses, blank ones too, and moves it to no other node. */
  lemma TunnelChanged(db: Db, id: int, tcpListenAddr: string, udpListenAddr: string, nameFree: bool)
    ensures var (db', ok) := UpdateTunnel(db, id, tcpListenAddr, udpListenAddr, nameFree);
            && OnlyTunnel(db, db', id) && (ok <==> id in db.tunnels && nameFree) && (!ok ==> db' == db)
            && (ok ==>
                  && id in db'.tunnels
                  && db'.tunnels[id].tcpListenAddr == tcpListenAddr && db'.tunnels[id].udpListenAddr == udpListenAddr
                  && db.tunnels[id] == db'.tunnels[id].(tcpListenAddr := db.tunnels[id].tcpListenAddr,
                                                        udpListenAddr := db.tunnels[id].udpListenAddr))
  {
  }

  /** A tunnel is deleted if and only if it exists and no forward uses it. */
  lemma TunnelDeleted(db: Db, id: int)
    ensures var (db', ok) := DeleteTunnel(db, id);
            && OnlyTunnel(db, db', id) && (ok <==> id in db.tunnels && id !in db'.tunnels) && (!ok ==> db' == db)
            && (ok <==> id in db.tunnels && forall i | i in db.forwards :: db.forwards[i].tunnelId != id)
  {
  }
}
