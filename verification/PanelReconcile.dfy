/** The reconciliation as the panel runs it: loops over rows, one command after another, each changing
    the state of one connected node; Reconcile says what the run amounts to. */
module PanelReconcile {
  import opened Text
  import opened Rows
  import opened Names
  import opened NodeServices
  import opened Reconcile
  import opened ReconcileGroups
  import opened ReconcileRuns
  import opened ReconcileTheorems

  datatype Answer = NoAnswer | Answered(reply: Reply)

  class Panel {
    const db: Db
    var sites: Sites

    constructor (db: Db, sites: Sites)
      ensures this.db == db && this.sites == sites
    {
      this.db, this.sites := db, sites;
    }

    method AddService(id: int, cs: seq<ServiceConfig>, opens: nat -> bool, d: Delivery) returns (a: Answer)
      modifies this
      ensures id !in old(sites) || d == Unheard ==> a == NoAnswer && sites == old(sites)
      ensures id in old(sites) && d != Unheard ==>
                var (s, r) := Create(old(sites)[id].node, cs, opens);
                a == (if d == Delivered then Answered(r) else NoAnswer)
                    && sites == old(sites)[id := old(sites)[id].(node := s)]
    {
      if id !in sites || d == Unheard {
        return NoAnswer;
      }
      var (s, r) := Create(sites[id].node, cs, opens);
      sites := sites[id := sites[id].(node := s)];
      a := if d == Delivered then Answered(r) else NoAnswer;
    }

    method UpdateForwarder(id: int, updates: seq<ForwarderUpdate>, accepts: nat -> bool, d: Delivery)
      returns (a: Answer)
      modifies this
      ensures id !in old(sites) || d == Unheard ==> a == NoAnswer && sites == old(sites)
      ensures id in old(sites) && d != Unheard ==>
                var (s, r) := NodeServices.UpdateForwarder(old(sites)[id].node, updates, accepts);
                a == (if d == Delivered then Answered(r) else NoAnswer)
                    && sites == old(sites)[id := old(sites)[id].(node := s)]
    {
      if id !in sites || d == Unheard {
        return NoAnswer;
      }
      var (s, r) := NodeServices.UpdateForwarder(sites[id].node, updates, accepts);
      sites := sites[id := sites[id].(node := s)];
      a := if d == Delivered then Answered(r) else NoAnswer;
    }

    method PauseService(id: int, names: seq<string>, d: Delivery)
      modifies this
      ensures sites == PauseAt(old(sites), id, names, d)
    {
      if id in sites && d != Unheard {
        sites := sites[id := sites[id].(node := Pause(sites[id].node, names).0)];
      }
    }

    /** AddService, and the hot update of the forwarders when the services are already there; no answer ends it. */
    method PushGroup(id: int, cs: seq<ServiceConfig>, updates: seq<ForwarderUpdate>, w: Wire) returns (ok: bool)
      modifies this
      ensures (sites, ok) == SyncAt(old(sites), id, cs, updates, w)
    {
      hide Create, NodeServices.UpdateForwarder;
      var a := AddService(id, cs, w.opens, w.add);
      if id in sites {
        AddRefused(old(sites)[id].node, cs, w.opens);
        assert old(sites)[id := old(sites)[id].(node := old(sites)[id].node)] == old(sites);
      }
      if a == Answered(Ok) {
        return true;
      }
      if a != Answered(AlreadyExists) {
        return false;
      }
      assert sites == old(sites);
      if updates == [] {
        return true;
      }
      a := UpdateForwarder(id, updates, w.accepts, w.hot);
      return a == Answered(Ok);
    }

    method Gentle(j: Job, env: Env) returns (ok: bool)
      modifies this
      ensures (sites, ok) == GentleSync(old(sites), db.userTunnels, j, env)
    {
      hide SyncAt, WireOf, BaseName, ChainName, MainConfigs, MainUpdates, RelayConfigs, RelayUpdates;
      if j.t.kind == TUNNEL_FORWARD {
        var d := env.link(j.f.id, Relay, ChainVerb);
        if j.t.inNodeId !in sites || d == Unheard {
          return false;
        }
        var site := sites[j.t.inNodeId];
        var chain := ChainName(BaseName(db.userTunnels, j.f));
        assert sites[j.t.inNodeId := site] == sites;
        if chain !in site.chains {
          sites := sites[j.t.inNodeId := site.(chains := site.chains[chain := ChainTarget(j)])];
        }
        if d != Delivered {
          return false;
        }
        ok := PushGroup(j.t.outNodeId, RelayConfigs(db.userTunnels, j.f), RelayUpdates(db.userTunnels, j.f),
            WireOf(env, j.f.id, Relay));
        if !ok {
          return;
        }
      }
      ok := PushGroup(j.t.inNodeId, MainConfigs(db.userTunnels, j), MainUpdates(db.userTunnels, j),
          WireOf(env, j.f.id, Main));
    }

    /** One forward: push it, and keep it paused on this node when the panel has it paused. */
    method ReconcileForward(j: Job, node: int, env: Env)
      modifies this
      ensures sites == SyncJob(old(sites), db.userTunnels, node, j, env)
    {
      hide GentleSync, PauseAt, OperatedNames, RelayName, BaseName;
      var _ := Gentle(j, env);
      if j.f.status == Paused {
        var base := BaseName(db.userTunnels, j.f);
        if j.t.inNodeId == node {
          PauseService(node, OperatedNames(base, j.f), env.link(j.f.id, Main, PauseVerb));
        }
        if j.t.kind == TUNNEL_FORWARD && j.t.outNodeId == node {
          PauseService(node, [RelayName(base)], env.link(j.f.id, Relay, PauseVerb));
        }
      }
    }

    /** The loop over the forwards of one tunnel. */
    method ReconcileTunnel(t: Tunnel, node: int, env: Env, ghost before: Sites, ghost done: seq<Job>)
      requires sites == SyncAll(before, db.userTunnels, node, done, env)
      modifies this
      ensures sites == SyncAll(before, db.userTunnels, node, done + JobsOf(db.forwards, t), env)
    {
      hide SyncAll, SyncJob, JobsOf;
      NoJobs(t);
      assert db.forwards[..0] == [] && done + [] == done;
      for i := 0 to |db.forwards|
        invariant sites == SyncAll(before, db.userTunnels, node, done + JobsOf(db.forwards[..i], t), env)
      {
        var fwd := db.forwards[i];
        ghost var jobs := done + JobsOf(db.forwards[..i], t);
        OneMoreJob(db.forwards, i, t);
        if fwd.tunnelId == t.id {
          ReconcileForward(Job(fwd, t), node, env);
          SyncAllOneMore(before, db.userTunnels, node, jobs, Job(fwd, t), env);
          assert done + JobsOf(db.forwards[..i + 1], t) == jobs + [Job(fwd, t)];
        }
      }
      assert db.forwards[..|db.forwards|] == db.forwards;
    }

    method ReconcileForwards(node: int, env: Env)
      modifies this
      ensures sites == SyncAll(old(sites), db.userTunnels, node, Jobs(db, db.tunnels, node), env)
    {
      hide SyncAll, JobsOf;
      ghost var before := sites;
      SyncNothing(before, db.userTunnels, node, env);
      for i := 0 to |db.tunnels|
        invariant sites == SyncAll(before, db.userTunnels, node, Jobs(db, db.tunnels[..i], node), env)
      {
        assert db.tunnels[..i + 1][..i] == db.tunnels[..i];
        var t := db.tunnels[i];
        assert Jobs(db, db.tunnels[..i], node) + [] == Jobs(db, db.tunnels[..i], node);
        if OnNode(t, node) {
          if !NodesExist(db.nodes, t) {
            continue;
          }
          ReconcileTunnel(t, node, env, before, Jobs(db, db.tunnels[..i], node));
        }
      }
      assert db.tunnels[..|db.tunnels|] == db.tunnels;
    }

    /** Groups the node's panel-shaped names by forward id, in whatever order the node listed them. */
    method GroupByForward(names: set<string>) returns (byForward: map<int, seq<string>>)
      ensures forall n | n in names && ForwardIdOf(n).Some? ::
                ForwardIdOf(n).value in byForward && n in byForward[ForwardIdOf(n).value]
      ensures forall id, n | id in byForward && n in byForward[id] :: n in names && ForwardIdOf(n) == Some(id)
    {
      hide ForwardIdOf;
      byForward := map[];
      var todo := names;
      while todo != {}
        invariant todo <= names
        invariant forall n | n in names - todo && ForwardIdOf(n).Some? ::
                    ForwardIdOf(n).value in byForward && n in byForward[ForwardIdOf(n).value]
        invariant forall id, n | id in byForward && n in byForward[id] :: n in names && ForwardIdOf(n) == Some(id)
        decreases |todo|
      {
        var name :| name in todo;
        todo := todo - {name};
        var fid := ForwardIdOf(name);
        if fid.Some? {
          var listed := if fid.value in byForward then byForward[fid.value] else [];
          byForward := byForward[fid.value := listed + [name]];
        }
      }
    }

    method CollectOrphans(names: set<string>, live: set<int>) returns (orphanNames: seq<string>)
      ensures forall n :: n in orphanNames <==> n in names && ForwardIdOf(n).Some? && ForwardIdOf(n).value !in live
    {
      hide ForwardIdOf;
      var byForward := GroupByForward(names);
      var ids: set<int> := byForward.Keys;
      var todo: set<int> := ids - live;
      orphanNames := [];
      while todo != {}
        invariant todo <= ids - live
        invariant forall n | n in orphanNames :: n in names && ForwardIdOf(n).Some? && ForwardIdOf(n).value !in live
        invariant forall id, n | id in ids - live - todo && n in byForward[id] :: n in orphanNames
        decreases |todo|
      {
        SomeMember(todo);
        var fid :| fid in todo;
        todo := todo - {fid};
        orphanNames := orphanNames + byForward[fid];
      }
      forall n | n in names && ForwardIdOf(n).Some? && ForwardIdOf(n).value !in live ensures n in orphanNames {
        var id := ForwardIdOf(n).value;
        assert id in ids - live - todo && n in byForward[id];
      }
    }

    method CleanupOrphans(node: int, env: Env)
      requires AllCovered(sites)
      modifies this
      ensures sites == CleanAt(old(sites), db, node, env)
    {
      hide ForwardIdOf, Trim, LiveIds, Delete, CleanUp;
      if node !in sites || env.listing != Delivered {
        return;
      }
      ghost var s := sites[node].node;
      var live := LiveIds(db, node);
      var orphanNames := CollectOrphans(sites[node].node.registry.Keys, live);
      assert ToSet(orphanNames) == Orphans(s, live);
      if orphanNames == [] {
        CleanUpIdle(s, live);
        assert sites[node := sites[node].(node := s)] == sites;
        return;
      }
      if env.deletion != Unheard {
        DeletesAll(s, orphanNames);
        CleanUpDeletes(s, live);
        sites := sites[node := sites[node].(node := Delete(sites[node].node, orphanNames).0)];
      }
    }

    /** The service part of one reconciliation. */
    method ReconcileNode(node: int, env: Env)
      requires AllCovered(sites) && forall f | f in db.forwards :: IsId(f.id)
      modifies this
      ensures sites == Reconcile.ReconcileNode(db, old(sites), node, env)
    {
      hide SyncAll, Jobs, CleanUp, LiveIds;
      ReconcileForwards(node, env);
      SyncAllFrame(old(sites), db.userTunnels, node, Jobs(db, db.tunnels, node), env);
      CleanupOrphans(node, env);
    }
  }

  lemma AddRefused(s: NodeState, cs: seq<ServiceConfig>, opens: nat -> bool)
    ensures Create(s, cs, opens).1 != Ok ==> Create(s, cs, opens).0 == s
  {
    CreateEffect(s, cs, opens);
  }

  lemma NoJobs(t: Tunnel)
    ensures JobsOf([], t) == []
  {
  }

  lemma OneMoreJob(forwards: seq<Forward>, i: nat, t: Tunnel)
    requires i < |forwards|
    ensures JobsOf(forwards[..i + 1], t)
            == if forwards[i].tunnelId == t.id then JobsOf(forwards[..i], t) + [Job(forwards[i], t)]
                else JobsOf(forwards[..i], t)
  {
    assert forwards[..i + 1][..i] == forwards[..i];
  }

  lemma SyncAllOneMore(sites: Sites, uts: seq<UserTunnel>, node: int, jobs: seq<Job>, j: Job, env: Env)
    ensures SyncAll(sites, uts, node, jobs + [j], env)
              == SyncJob(SyncAll(sites, uts, node, jobs, env), uts, node, j, env)
  {
    hide SyncJob;
    assert (jobs + [j])[..|jobs|] == jobs;
  }

  lemma SyncNothing(sites: Sites, uts: seq<UserTunnel>, node: int, env: Env)
    ensures SyncAll(sites, uts, node, [], env) == sites
  {
  }

  lemma DeletesAll(s: NodeState, names: seq<string>)
    requires Covered(s) && names != [] && forall n | n in names :: n in s.registry
    ensures Delete(s, names) == (NodeState(s.registry - ToSet(names), Without(s.services, ToSet(names))), Ok)
  {
    hide Trim, TrimAll;
    TrimAllPlain(names);
    assert forall i :: 0 <= i < |names| ==> names[i] in names;
  }

  lemma CleanUpDeletes(s: NodeState, live: set<int>)
    requires Covered(s)
    ensures CleanUp(s, live) == NodeState(s.registry - Orphans(s, live), Without(s.services, Orphans(s, live)))
  {
    hide Trim, ForwardIdOf;
  }
}
