/** Reconciliation converges, settles, and never takes down what the panel still has. */
module ReconcileTheorems {
  import opened Text
  import opened Rows
  import opened Names
  import opened NodeServices
  import opened ReconcileFrames
  import opened Reconcile
  import opened ReconcileGroups
  import opened ReconcileRuns

  // ---------------------------------------------------------------- a settled forward is left alone

  /** Pushed, with nothing left for a hot update or for this node's pauses to do. */
  ghost predicate JobSettled(sites: Sites, uts: seq<UserTunnel>, node: int, j: Job) {
    JobPushed(sites, uts, j) && JobQuiet(sites, uts, j) && PausesQuiet(sites, uts, node, j)
  }

  lemma SyncAtIdle(sites: Sites, id: int, cs: seq<ServiceConfig>, updates: seq<ForwarderUpdate>, w: Wire)
    requires id in sites && cs != [] && Plain(NamesOf(cs)) && PlainUpdates(updates)
    requires !NoneThere(sites[id].node, NamesOf(cs)) && Idle(sites[id].node, updates)
    ensures SyncAt(sites, id, cs, updates, w).0 == sites
  {
    hide SyncGroup, Plain, Idle, PlainUpdates, NoneThere;
    SyncIdle(sites[id].node, cs, updates, w);
    assert sites[id := sites[id]] == sites;
  }

  ghost predicate RelayQuiet(sites: Sites, uts: seq<UserTunnel>, j: Job)
    requires Reachable(sites, j)
  {
    j.t.kind == TUNNEL_FORWARD ==> Idle(sites[j.t.outNodeId].node, RelayUpdates(uts, j.f))
  }

  /** The chain and the relay of a pushed forward are left alone, whatever fails. */
  lemma RelayIdle(sites: Sites, uts: seq<UserTunnel>, j: Job, env: Env)
    requires IsId(j.f.id) && JobPushed(sites, uts, j) && RelayQuiet(sites, uts, j)
    ensures SyncRelay(sites, uts, j, env).0 == sites
  {
    hide Trim, WireOf, BaseName, NameOf, SyncAt, MainNames, MainUpdates, RelayConfigs, RelayUpdates, ChainName, Idle,
         NoDup, Plain, PlainUpdates;
    RelayNamesOf(uts, j);
    UpdatesPlain(uts, j);
    if j.t.kind == TUNNEL_FORWARD {
      var chain := ChainName(BaseName(uts, j.f));
      assert WithChain(sites[j.t.inNodeId].chains, chain, ChainTarget(j)) == sites[j.t.inNodeId].chains;
      assert ChainAt(sites, j.t.inNodeId, chain, ChainTarget(j), env.link(j.f.id, Relay, ChainVerb)).0 == sites;
      assert RelayNames(uts, j)[0] in RelayNames(uts, j);
      SyncAtIdle(sites, j.t.outNodeId, RelayConfigs(uts, j.f), RelayUpdates(uts, j.f), WireOf(env, j.f.id, Relay));
    }
  }

  lemma GentleSyncIdle(sites: Sites, uts: seq<UserTunnel>, j: Job, env: Env)
    requires IsId(j.f.id) && JobPushed(sites, uts, j) && JobQuiet(sites, uts, j)
    ensures GentleSync(sites, uts, j, env).0 == sites
  {
    hide Trim, WireOf, BaseName, NameOf, SyncAt, SyncRelay, MainConfigs, MainUpdates, RelayUpdates, MainNames,
         RelayNames, ChainName, Idle, NoDup, Plain, PlainUpdates, AllRegistered, NoneThere;
    MainNamesOf(uts, j);
    UpdatesPlain(uts, j);
    RelayIdle(sites, uts, j, env);
    SyncAtIdle(sites, j.t.inNodeId, MainConfigs(uts, j), MainUpdates(uts, j), WireOf(env, j.f.id, Main));
  }

  lemma PauseAtIdle(sites: Sites, id: int, names: seq<string>, d: Delivery)
    requires Plain(names) && (id in sites ==> PauseQuiet(sites[id].node, names))
    ensures PauseAt(sites, id, names, d) == sites
  {
    hide Pause, Plain, PauseQuiet;
    if id in sites {
      PauseIdle(sites[id].node, names);
      assert sites[id := sites[id]] == sites;
    }
  }

  lemma PauseJobIdle(sites: Sites, uts: seq<UserTunnel>, node: int, j: Job, env: Env)
    requires IsId(j.f.id) && Reachable(sites, j) && PausesQuiet(sites, uts, node, j)
    ensures PauseJob(sites, uts, node, j, env) == sites
  {
    hide PauseAt, PauseQuiet, Plain, NoDup, OperatedNames, BaseName, RelayName, NameOf;
    OperatedPlain(uts, j);
    RelayNamesOf(uts, j);
    if j.f.status == Paused {
      if j.t.inNodeId == node {
        PauseAtIdle(sites, node, OperatedNames(BaseName(uts, j.f), j.f), env.link(j.f.id, Main, PauseVerb));
      }
      if j.t.kind == TUNNEL_FORWARD && j.t.outNodeId == node {
        PauseAtIdle(sites, node, RelayNames(uts, j), env.link(j.f.id, Relay, PauseVerb));
      }
    }
  }

  lemma SyncJobIdle(sites: Sites, uts: seq<UserTunnel>, node: int, j: Job, env: Env)
    requires IsId(j.f.id) && JobSettled(sites, uts, node, j)
    ensures SyncJob(sites, uts, node, j, env) == sites
  {
    hide GentleSync, PauseJob, PausesQuiet, JobQuiet, MainNone, Idle, AllRegistered;
    GentleSyncIdle(sites, uts, j, env);
    PauseJobIdle(sites, uts, node, j, env);
  }

  // ---------------------------------------------------------------- all forwards of a node

  ghost predicate DistinctIds(jobs: seq<Job>) {
    (forall j | j in jobs :: IsId(j.f.id)) && forall a, b :: 0 <= a < b < |jobs| ==> jobs[a].f.id != jobs[b].f.id
  }

  lemma {:induction false} SyncAllFrame(sites: Sites, uts: seq<UserTunnel>, node: int, jobs: seq<Job>, env: Env)
    requires forall j | j in jobs :: IsId(j.f.id)
    ensures SameNodes(sites, SyncAll(sites, uts, node, jobs, env))
    ensures AllCovered(sites) ==> AllCovered(SyncAll(sites, uts, node, jobs, env))
    ensures forall n | (forall j | j in jobs :: !NameOf(uts, j.f, n)) ::
              SitesAgree(sites, SyncAll(sites, uts, node, jobs, env), n)
  {
    hide SyncJob, NameOf, SameAt, Covered;
    if jobs != [] {
      var j, rest := jobs[|jobs| - 1], jobs[..|jobs| - 1];
      var mid := SyncAll(sites, uts, node, rest, env);
      SyncAllFrame(sites, uts, node, rest, env);
      assert j in jobs;
      SyncJobFrame(mid, uts, node, j, env);
      forall n | (forall j | j in jobs ::
          !NameOf(uts, j.f, n)) ensures SitesAgree(sites, SyncAll(sites, uts, node, jobs, env), n) {
        AgreeTransitive(sites, mid, SyncJob(mid, uts, node, j, env), n);
      }
    } else {
      forall n ensures SitesAgree(sites, sites, n) { SameAtReflexive(n); }
    }
  }

  /** Working on other forwards leaves the sites in agreement on this one. */
  lemma OthersAgree(sites: Sites, uts: seq<UserTunnel>, node: int, jobs: seq<Job>, j: Job, env: Env)
    requires (forall i | i in jobs :: IsId(i.f.id) && i.f.id != j.f.id) && IsId(j.f.id) && Reachable(sites, j)
    ensures AgreeOn(sites, SyncAll(sites, uts, node, jobs, env), uts, j)
  {
    hide SyncAll, NameOf, SitesAgree, AgreeOn;
    SyncAllFrame(sites, uts, node, jobs, env);
    var b := SyncAll(sites, uts, node, jobs, env);
    forall n | NameOf(uts, j.f, n) ensures SitesAgree(sites, b, n) {
      forall i | i in jobs ensures !NameOf(uts, i.f, n) {
        DistinctForwardsDistinctNames(uts, j.f, i.f, n);
      }
    }
    SitesAgreeOn(sites, b, uts, j);
  }

  lemma OneMoreAgrees(sites: Sites, uts: seq<UserTunnel>, node: int, last: Job, j: Job, env: Env)
    requires IsId(last.f.id) && IsId(j.f.id) && last.f.id != j.f.id && Reachable(sites, j)
    ensures AgreeOn(sites, SyncJob(sites, uts, node, last, env), uts, j)
  {
    hide SyncJob, NameOf, SitesAgree, AgreeOn;
    SyncJobFrame(sites, uts, node, last, env);
    var b := SyncJob(sites, uts, node, last, env);
    forall n | NameOf(uts, j.f, n) ensures SitesAgree(sites, b, n) {
      DistinctForwardsDistinctNames(uts, j.f, last.f, n);
    }
    SitesAgreeOn(sites, b, uts, j);
  }

  lemma SelfAgrees(sites: Sites, uts: seq<UserTunnel>, j: Job)
    requires Reachable(sites, j)
    ensures AgreeOn(sites, sites, uts, j)
  {
    hide NameOf;
  }

  ghost predicate JobDone(a: Sites, b: Sites, uts: seq<UserTunnel>, node: int, j: Job) {
    Outcome(a, b, uts, j, PausesMain(node, j), PausesRelay(node, j)) && PausesQuiet(b, uts, node, j)
  }

  lemma JobDoneFrame(a: Sites, a': Sites, b: Sites, b': Sites, uts: seq<UserTunnel>, node: int, j: Job)
    requires IsId(j.f.id) && AgreeOn(a, a', uts, j) && AgreeOn(b, b', uts, j) && JobDone(a', b, uts, node, j)
    ensures JobDone(a, b', uts, node, j)
  {
    hide AgreeOn, Outcome, PausesQuiet, PausesMain, PausesRelay, JobPushed, JobQuiet, SettlesAtOnce, MainThere,
         MainNone, MainAimed, MainUnstale, MainPaused, RelayPaused;
    AgreeReachable(b, b', uts, j);
    OutcomeFrame(a, a', b, b', uts, node, j, PausesMain(node, j), PausesRelay(node, j));
    AgreeFrame(b, b', uts, node, j);
  }

  lemma PushedReachable(sites: Sites, uts: seq<UserTunnel>, j: Job)
    requires JobPushed(sites, uts, j)
    ensures Reachable(sites, j) && !MainNone(sites, uts, j)
  {
  }

  lemma {:induction false} SyncAllOutcome(sites: Sites, uts: seq<UserTunnel>, node: int, jobs: seq<Job>, env: Env)
    requires AllCovered(sites) && AllAnswered(env) && DistinctIds(jobs)
    requires forall j | j in jobs :: Reachable(sites, j)
    ensures forall j | j in jobs :: JobDone(sites, SyncAll(sites, uts, node, jobs, env), uts, node, j)
  {
    hide SyncJob, NameOf, SitesAgree, AllCovered, Outcome, PausesQuiet, AllAnswered, AgreeOn, Reachable, JobDone,
         SameNodes, PausesMain, PausesRelay;
    if jobs != [] {
      var last, rest := jobs[|jobs| - 1], jobs[..|jobs| - 1];
      var mid := SyncAll(sites, uts, node, rest, env);
      assert last in jobs && forall j | j in rest :: j in jobs;
      SyncAllOutcome(sites, uts, node, rest, env);
      SyncAllFrame(sites, uts, node, rest, env);
      OthersAgree(sites, uts, node, rest, last, env);
      JobDoneLast(sites, mid, uts, node, last, env);
      forall j | j in rest ensures JobDone(sites, SyncJob(mid, uts, node, last, env), uts, node, j) {
        DoneReachable(sites, mid, uts, node, j);
        SelfAgrees(sites, uts, j);
        OneMoreAgrees(mid, uts, node, last, j, env);
        JobDoneFrame(sites, sites, mid, SyncJob(mid, uts, node, last, env), uts, node, j);
      }
    }
  }

  lemma DoneReachable(a: Sites, b: Sites, uts: seq<UserTunnel>, node: int, j: Job)
    requires JobDone(a, b, uts, node, j)
    ensures Reachable(a, j) && Reachable(b, j) && JobPushed(b, uts, j)
  {
  }

  lemma JobDoneLast(sites: Sites, mid: Sites, uts: seq<UserTunnel>, node: int, last: Job, env: Env)
    requires IsId(last.f.id) && AgreeOn(sites, mid, uts, last) && AllCovered(mid) && AllAnswered(env)
    ensures JobDone(sites, SyncJob(mid, uts, node, last, env), uts, node, last)
  {
    hide SyncJob, AgreeOn, Outcome, PausesQuiet, PausesMain, PausesRelay, AllCovered, AllAnswered, JobPushed;
    AgreeReachable(sites, mid, uts, last);
    SyncJobOutcome(mid, uts, node, last, env);
    var b := SyncJob(mid, uts, node, last, env);
    assert JobDone(mid, b, uts, node, last);
    DoneReachable(mid, b, uts, node, last);
    SelfAgrees(b, uts, last);
    JobDoneFrame(sites, mid, b, b, uts, node, last);
  }

  lemma {:induction false} SyncAllIdle(sites: Sites, uts: seq<UserTunnel>, node: int, jobs: seq<Job>, env: Env)
    requires forall j | j in jobs :: IsId(j.f.id) && JobSettled(sites, uts, node, j)
    ensures SyncAll(sites, uts, node, jobs, env) == sites
  {
    hide SyncJob, JobSettled;
    if jobs != [] {
      SyncAllIdle(sites, uts, node, jobs[..|jobs| - 1], env);
      assert jobs[|jobs| - 1] in jobs;
      SyncJobIdle(sites, uts, node, jobs[|jobs| - 1], env);
    }
  }

  // ---------------------------------------------------------------- the work list and the live ids

  ghost predicate GoodRows(db: Db) {
    && (forall f | f in db.forwards :: IsId(f.id))
    && (forall a, b :: 0 <= a < b < |db.forwards| ==> db.forwards[a].id != db.forwards[b].id)
    && (forall a, b :: 0 <= a < b < |db.tunnels| ==> db.tunnels[a].id != db.tunnels[b].id)
  }

  lemma {:induction false} JobsOfDistinct(forwards: seq<Forward>, t: Tunnel)
    requires forall a, b :: 0 <= a < b < |forwards| ==> forwards[a].id != forwards[b].id
    ensures forall a, b :: 0 <= a < b < |JobsOf(forwards, t)| ==>
              JobsOf(forwards, t)[a].f.id != JobsOf(forwards, t)[b].f.id
  {
    if forwards != [] {
      var f, rest := forwards[|forwards| - 1], forwards[..|forwards| - 1];
      JobsOfDistinct(rest, t);
      forall a | 0 <= a < |JobsOf(rest, t)| ensures JobsOf(rest, t)[a].f.id != f.id {
        assert JobsOf(rest, t)[a] in JobsOf(rest, t);
        var i :| 0 <= i < |rest| && rest[i] == JobsOf(rest, t)[a].f;
        assert forwards[i] == rest[i];
      }
    }
  }

  lemma {:induction false} JobsDistinct(db: Db, tunnels: seq<Tunnel>, node: int)
    requires GoodRows(db)
    requires forall a, b :: 0 <= a < b < |tunnels| ==> tunnels[a].id != tunnels[b].id
    ensures DistinctIds(Jobs(db, tunnels, node))
  {
    if tunnels != [] {
      var t, rest := tunnels[|tunnels| - 1], tunnels[..|tunnels| - 1];
      JobsDistinct(db, rest, node);
      JobsOfDistinct(db.forwards, t);
      var before, more := Jobs(db, rest, node), JobsOf(db.forwards, t);
      forall a, b | 0 <= a < |before| && 0 <= b < |more| ensures before[a].f.id != more[b].f.id {
        assert before[a] in before && more[b] in more;
        var i :| 0 <= i < |rest| && rest[i] == before[a].t;
        assert tunnels[i].id != t.id;
        SameRow(db.forwards, before[a].f, more[b].f);
      }
    }
  }

  lemma SameRow(forwards: seq<Forward>, f: Forward, g: Forward)
    requires forall a, b :: 0 <= a < b < |forwards| ==> forwards[a].id != forwards[b].id
    requires f in forwards && g in forwards
    ensures f.id == g.id ==> f == g
  {
    var a :| 0 <= a < |forwards| && forwards[a] == f;
    var b :| 0 <= b < |forwards| && forwards[b] == g;
  }

  lemma JobIsLive(db: Db, node: int, j: Job)
    requires j in Jobs(db, db.tunnels, node)
    ensures j.f.id in LiveIds(db, node)
  {
  }

  // ---------------------------------------------------------------- the clean-up

  lemma CleanUpFrame(s: NodeState, live: set<int>, n: string)
    requires ForwardIdOf(n) == None || ForwardIdOf(n).value in live
    ensures SameAt(s, CleanUp(s, live), n)
  {
    hide Trim, ForwardIdOf;
    WithoutFrame(s.services, Orphans(s, live), n);
  }

  lemma CleanUpClears(s: NodeState, live: set<int>)
    requires Covered(s)
    ensures Orphans(CleanUp(s, live), live) == {}
  {
    hide Trim, ForwardIdOf;
  }

  lemma {:induction false} WithoutNothing(services: seq<ServiceConfig>)
    ensures Without(services, {}) == services
  {
    if services != [] {
      WithoutNothing(services[..|services| - 1]);
    }
  }

  lemma CleanUpIdle(s: NodeState, live: set<int>)
    requires Orphans(s, live) == {}
    ensures CleanUp(s, live) == s
  {
    hide Orphans, Trim;
    WithoutNothing(s.services);
    assert s.registry - {} == s.registry;
  }

  // ---------------------------------------------------------------- convergence

  /** What holds before a run from which reconciliation converges: every node a forward needs is connected, and what
      the nodes have registered is configured. */
  ghost predicate Reconcilable(db: Db, sites: Sites, node: int) {
    && GoodRows(db) && AllCovered(sites) && node in sites
    && forall j | j in Jobs(db, db.tunnels, node) :: Reachable(sites, j)
  }

  /** Every listener of every forward is registered on its entry node, every relay on its exit node, paused ones are
      paused where a run of this node pauses them, and no panel-shaped name of a foreign forward is left. */
  ghost predicate Converged(db: Db, sites: Sites, node: int) {
    && node in sites && Orphans(sites[node].node, LiveIds(db, node)) == {}
    && forall j | j in Jobs(db, db.tunnels, node) ::
         && JobPushed(sites, db.userTunnels, j) && MainThere(sites, db.userTunnels, j)
         && (PausesMain(node, j) ==> MainPaused(sites, db.userTunnels, j))
         && (PausesRelay(node, j) ==> RelayPaused(sites, db.userTunnels, j))
  }

  lemma CleanAtAgrees(db: Db, sites: Sites, node: int, j: Job, env: Env)
    requires IsId(j.f.id) && Reachable(sites, j)
               && (j.f.id in LiveIds(db, node) || (j.t.inNodeId != node && j.t.outNodeId != node))
    requires j.t.kind != TUNNEL_FORWARD ==> j.f.id in LiveIds(db, node) || j.t.inNodeId != node
    ensures AgreeOn(sites, CleanAt(sites, db, node, env), db.userTunnels, j)
  {
    hide CleanUp, LiveIds, NameOf, SameAt, ForwardIdOf;
    var b := CleanAt(sites, db, node, env);
    forall k, n | k in sites && NameOf(db.userTunnels, j.f, n) && (k != node || j.f.id in LiveIds(db, node))
      ensures SameAt(sites[k].node, b[k].node, n)
    {
      NameOfForward(db.userTunnels, j.f, n);
      SameAtReflexive(n);
      if k == node {
        CleanUpFrame(sites[k].node, LiveIds(db, node), n);
      }
    }
  }

  /** What one answered run does to every forward of the node. */
  lemma ReconcileOutcome(db: Db, sites: Sites, node: int, env: Env)
    requires Reconcilable(db, sites, node) && AllAnswered(env)
    ensures var b := ReconcileNode(db, sites, node, env);
            && node in b && AllCovered(b) && Orphans(b[node].node, LiveIds(db, node)) == {}
            && forall j | j in Jobs(db, db.tunnels, node) :: JobDone(sites, b, db.userTunnels, node, j)
  {
    hide SyncAll, Jobs, LiveIds, CleanUp, Orphans, NameOf, JobDone, AgreeOn, Covered, SameAt, ForwardIdOf, Trim,
         Reachable;
    var uts, jobs := db.userTunnels, Jobs(db, db.tunnels, node);
    var synced := SyncAll(sites, uts, node, jobs, env);
    JobsDistinct(db, db.tunnels, node);
    SyncAllOutcome(sites, uts, node, jobs, env);
    SyncAllFrame(sites, uts, node, jobs, env);
    CleanUpClears(synced[node].node, LiveIds(db, node));
    CleanUpCovered(synced[node].node, LiveIds(db, node));
    var b := ReconcileNode(db, sites, node, env);
    forall j | j in jobs ensures JobDone(sites, b, uts, node, j) {
      DoneReachable(sites, synced, uts, node, j);
      JobIsLive(db, node, j);
      CleanAtAgrees(db, synced, node, j, env);
      SelfAgrees(sites, uts, j);
      JobDoneFrame(sites, sites, synced, b, uts, node, j);
    }
  }

  lemma CleanUpCovered(s: NodeState, live: set<int>)
    requires Covered(s)
    ensures Covered(CleanUp(s, live))
  {
    hide Trim, ForwardIdOf, Orphans;
    WithoutNames(s.services, Orphans(s, live));
  }

  /** The listeners were all there, or none of them was: what a push can complete. */
  ghost predicate Completable(sites: Sites, uts: seq<UserTunnel>, j: Job)
    requires Reachable(sites, j)
  {
    MainThere(sites, uts, j) || MainNone(sites, uts, j)
  }

  /** With every command answered, one run registers every relay and every listener of every forward of the node, pauses
      what this node's runs pause, and leaves no panel-shaped name of a foreign forward, if and only if no forward's
      listeners were there in part. Old configuration entries do not matter. */
  lemma ReconcileConverges(db: Db, sites: Sites, node: int, env: Env)
    requires Reconcilable(db, sites, node) && AllAnswered(env)
    ensures Converged(db, ReconcileNode(db, sites, node, env), node) <==>
            forall j | j in Jobs(db, db.tunnels, node) :: Completable(sites, db.userTunnels, j)
  {
    hide ReconcileNode, Jobs, LiveIds, Orphans, JobPushed, MainPaused, RelayPaused, PausesMain, JobQuiet,
         SettlesAtOnce, MainThere, MainNone, MainAimed, MainUnstale, PausesQuiet;
    ReconcileOutcome(db, sites, node, env);
    var uts, b := db.userTunnels, ReconcileNode(db, sites, node, env);
    forall j | j in Jobs(db, db.tunnels, node)
      ensures JobPushed(b, uts, j) && Reachable(b, j) && (MainThere(b, uts, j) <==> Completable(sites, uts, j))
      ensures MainThere(b, uts, j) && PausesMain(node, j) ==> MainPaused(b, uts, j)
      ensures PausesRelay(node, j) ==> RelayPaused(b, uts, j)
    {
      DoneReachable(sites, b, uts, node, j);
    }
  }

  /** In particular a run fills nodes that have just started with nothing on them. */
  lemma EmptyNodesConverge(db: Db, sites: Sites, node: int, env: Env)
    requires GoodRows(db) && AllAnswered(env) && node in sites
    requires forall id | id in sites :: sites[id].node == NodeState(map[], [])
    requires forall j | j in Jobs(db, db.tunnels, node) :: Reachable(sites, j)
    ensures Converged(db, ReconcileNode(db, sites, node, env), node)
  {
    hide Jobs, MainNames, RelayNames, Converged, ReconcileNode;
    assert Reconcilable(db, sites, node);
    ReconcileConverges(db, sites, node, env);
  }

  /** Each forward by itself: its relay is registered after the run, and its listeners are if and only if all of them
      were before or none of them was. */
  lemma ReconcileRegisters(db: Db, sites: Sites, node: int, env: Env, j: Job)
    requires Reconcilable(db, sites, node) && AllAnswered(env) && j in Jobs(db, db.tunnels, node)
    ensures var b := ReconcileNode(db, sites, node, env);
            && Reachable(sites, j) && JobPushed(b, db.userTunnels, j)
            && (MainThere(b, db.userTunnels, j) <==> Completable(sites, db.userTunnels, j))
  {
    hide ReconcileNode, Jobs, LiveIds, Orphans, JobPushed, MainPaused, RelayPaused, PausesMain, PausesRelay, JobQuiet,
         SettlesAtOnce, MainThere, MainNone, MainAimed, MainUnstale, PausesQuiet;
    ReconcileOutcome(db, sites, node, env);
    DoneReachable(sites, ReconcileNode(db, sites, node, env), db.userTunnels, node, j);
  }

  /** After a run the listeners of a forward are paused if and only if they were before, or they are registered and this
      is the entry node of a paused forward whose listen list governs; and its relay is if and only if it was before, or
      this is the exit node of a paused forward. In particular a run of one end never pauses the other. */
  lemma ReconcilePauses(db: Db, sites: Sites, node: int, env: Env, j: Job)
    requires Reconcilable(db, sites, node) && AllAnswered(env) && j in Jobs(db, db.tunnels, node)
    ensures var b := ReconcileNode(db, sites, node, env);
            && Reachable(sites, j) && Reachable(b, j)
            && (MainPaused(b, db.userTunnels, j) <==>
                  || MainPaused(sites, db.userTunnels, j)
                  || (Completable(sites, db.userTunnels, j)
                      && j.f.status == Paused && j.t.inNodeId == node && ListenGoverned(j.f, j.t)))
            && (j.t.kind == TUNNEL_FORWARD ==>
                  (RelayPaused(b, db.userTunnels, j) <==>
                     RelayPaused(sites, db.userTunnels, j) || (j.f.status == Paused && j.t.outNodeId == node)))
  {
    hide ReconcileNode, Jobs, LiveIds, Orphans, JobPushed, MainPaused, RelayPaused, JobQuiet, SettlesAtOnce,
         MainThere, MainNone, MainAimed, MainUnstale, PausesQuiet, ListenGoverned;
    ReconcileOutcome(db, sites, node, env);
    DoneReachable(sites, ReconcileNode(db, sites, node, env), db.userTunnels, node, j);
  }

  /** After a run the listeners of a port forward are on the panel's target if and only if none of them was there and no
      old entry of theirs forwards elsewhere, or all of them were and it listens on one address or was on target before:
      the hot update of several addresses names none of them. */
  lemma ReconcileAims(db: Db, sites: Sites, node: int, env: Env, j: Job)
    requires Reconcilable(db, sites, node) && AllAnswered(env) && j in Jobs(db, db.tunnels, node)
               && j.t.kind == PORT_FORWARD
    ensures var b := ReconcileNode(db, sites, node, env);
            && Reachable(sites, j) && Reachable(b, j)
            && (MainAimed(b, db.userTunnels, j) <==>
                  || (MainNone(sites, db.userTunnels, j) && MainUnstale(sites, db.userTunnels, j))
                  || (MainThere(sites, db.userTunnels, j) && (OneAddress(j) || MainAimed(sites, db.userTunnels, j))))
  {
    hide ReconcileNode, Jobs, LiveIds, Orphans, JobPushed, MainPaused, RelayPaused, JobQuiet, SettlesAtOnce,
         MainThere, MainNone, MainAimed, MainUnstale, PausesQuiet, OneAddress, PausesMain, PausesRelay;
    ReconcileOutcome(db, sites, node, env);
    DoneReachable(sites, ReconcileNode(db, sites, node, env), db.userTunnels, node, j);
  }

  // ---------------------------------------------------------------- listeners that are there in part

  /** Two sites register the same of a forward's listeners. */
  ghost predicate SameThere(a: Sites, b: Sites, uts: seq<UserTunnel>, j: Job) {
    && Reachable(a, j) && Reachable(b, j)
    && forall n | n in MainNames(uts, j) :: n in a[j.t.inNodeId].node.registry <==> n in b[j.t.inNodeId].node.registry
  }

  lemma SameThereNone(a: Sites, b: Sites, uts: seq<UserTunnel>, j: Job)
    requires SameThere(a, b, uts, j)
    ensures MainNone(a, uts, j) <==> MainNone(b, uts, j)
  {
    hide MainNames;
  }

  lemma SameThereTransitive(a: Sites, b: Sites, c: Sites, uts: seq<UserTunnel>, j: Job)
    requires SameThere(a, b, uts, j) && SameThere(b, c, uts, j)
    ensures SameThere(a, c, uts, j)
  {
    hide MainNames;
  }

  lemma AgreeThere(a: Sites, b: Sites, uts: seq<UserTunnel>, j: Job)
    requires IsId(j.f.id) && AgreeOn(a, b, uts, j)
    ensures SameThere(a, b, uts, j)
  {
    hide MainNames, NameOf;
    JobNames(uts, j);
    forall n | n in MainNames(uts, j) ensures n in a[j.t.inNodeId].node.registry <==>
        n in b[j.t.inNodeId].node.registry {
      assert SameAt(a[j.t.inNodeId].node, b[j.t.inNodeId].node, n);
    }
  }

  /** Once a listener of the forward is there, its own push adds and removes none, whatever fails. */
  lemma SyncJobKeepsThere(sites: Sites, uts: seq<UserTunnel>, node: int, j: Job, env: Env)
    requires IsId(j.f.id) && Reachable(sites, j) && !MainNone(sites, uts, j)
    ensures SameThere(sites, SyncJob(sites, uts, node, j, env), uts, j)
  {
    hide MainConfigs, MainUpdates, MainNames, RelayNames, WireOf, SyncGroup, SyncRelay, PauseJob, SitesAgree,
         NoneThere, Plain, NoDup, NameOf, BaseName;
    var relayed := SyncRelay(sites, uts, j, env).0;
    MainNamesOf(uts, j);
    NamesApart(uts, j);
    SyncRelayFrame(sites, uts, j, env);
    forall n | n in MainNames(uts, j)
      ensures n in sites[j.t.inNodeId].node.registry <==> n in relayed[j.t.inNodeId].node.registry
    {
      AgreeRegistered(sites, relayed, j.t.inNodeId, n);
    }
    SameThereNone(sites, relayed, uts, j);
    PartKeepsKeys(relayed[j.t.inNodeId].node, MainConfigs(uts, j), MainUpdates(uts, j), WireOf(env, j.f.id, Main));
    PauseJobFrame(GentleSync(sites, uts, j, env).0, uts, node, j, env);
  }

  lemma AgreeRegistered(a: Sites, b: Sites, id: int, n: string)
    requires SitesAgree(a, b, n) && id in a
    ensures id in b && (n in a[id].node.registry <==> n in b[id].node.registry)
  {
    hide FirstEntry;
  }

  lemma {:induction false} SyncAllKeepsThere(sites: Sites, uts: seq<UserTunnel>, node: int, jobs: seq<Job>, j: Job,
      env: Env)
    requires DistinctIds(jobs) && j in jobs && Reachable(sites, j) && !MainNone(sites, uts, j)
    ensures SameThere(sites, SyncAll(sites, uts, node, jobs, env), uts, j)
  {
    hide SyncJob, SameThere, MainNone, Reachable, AgreeOn;
    var last, rest := jobs[|jobs| - 1], jobs[..|jobs| - 1];
    var mid := SyncAll(sites, uts, node, rest, env);
    assert jobs == rest + [last];
    if j == last {
      OthersAgree(sites, uts, node, rest, j, env);
      AgreeThere(sites, mid, uts, j);
      AgreeReachable(sites, mid, uts, j);
      SameThereNone(sites, mid, uts, j);
      SyncJobKeepsThere(mid, uts, node, j, env);
      SameThereTransitive(sites, mid, SyncJob(mid, uts, node, j, env), uts, j);
    } else {
      SyncAllKeepsThere(sites, uts, node, rest, j, env);
      ThereReachable(sites, mid, uts, j);
      OneMoreAgrees(mid, uts, node, last, j, env);
      AgreeThere(mid, SyncJob(mid, uts, node, last, env), uts, j);
      SameThereTransitive(sites, mid, SyncJob(mid, uts, node, last, env), uts, j);
    }
  }

  lemma ThereReachable(a: Sites, b: Sites, uts: seq<UserTunnel>, j: Job)
    requires SameThere(a, b, uts, j)
    ensures Reachable(a, j) && Reachable(b, j)
  {
  }

  lemma RunKeepsThere(db: Db, sites: Sites, node: int, env: Env, j: Job)
    requires GoodRows(db) && j in Jobs(db, db.tunnels, node) && Reachable(sites, j)
               && !MainNone(sites, db.userTunnels, j)
    ensures SameThere(sites, ReconcileNode(db, sites, node, env), db.userTunnels, j)
  {
    hide SyncAll, Jobs, LiveIds, CleanAt, SameThere, MainNone, AgreeOn;
    var synced := SyncAll(sites, db.userTunnels, node, Jobs(db, db.tunnels, node), env);
    JobsDistinct(db, db.tunnels, node);
    SyncAllKeepsThere(sites, db.userTunnels, node, Jobs(db, db.tunnels, node), j, env);
    ThereReachable(sites, synced, db.userTunnels, j);
    JobIsLive(db, node, j);
    CleanAtAgrees(db, synced, node, j, env);
    AgreeThere(synced, CleanAt(synced, db, node, env), db.userTunnels, j);
    SameThereTransitive(sites, synced, CleanAt(synced, db, node, env), db.userTunnels, j);
  }

  function Runs(db: Db, sites: Sites, node: int, envs: seq<Env>): Sites {
    if envs == [] then sites
    else ReconcileNode(db, Runs(db, sites, node, envs[..|envs| - 1]), node, envs[|envs| - 1])
  }

  /** Listeners that are there in part stay so: however often the node is reconciled, and whatever fails or succeeds, no
      run adds the missing ones, and none takes the others away. */
  lemma {:induction false} PartIsNeverRepaired(db: Db, sites: Sites, node: int, envs: seq<Env>, j: Job)
    requires GoodRows(db) && j in Jobs(db, db.tunnels, node) && Reachable(sites, j)
               && !Completable(sites, db.userTunnels, j)
    ensures SameThere(sites, Runs(db, sites, node, envs), db.userTunnels, j)
    ensures !Completable(Runs(db, sites, node, envs), db.userTunnels, j)
    decreases |envs|
  {
    hide ReconcileNode, Jobs, SameThere, MainNone, MainThere;
    if envs == [] {
      SelfThere(sites, db.userTunnels, j);
    } else {
      var before := Runs(db, sites, node, envs[..|envs| - 1]);
      PartIsNeverRepaired(db, sites, node, envs[..|envs| - 1], j);
      ThereReachable(sites, before, db.userTunnels, j);
      RunKeepsThere(db, before, node, envs[|envs| - 1], j);
      SameThereTransitive(sites, before, Runs(db, sites, node, envs), db.userTunnels, j);
    }
    SameThereCompletable(sites, Runs(db, sites, node, envs), db.userTunnels, j);
  }

  /** A forward on one address whose tcp listener alone is there, as a failed update leaves it. */
  function HalfForward(): Job {
    Job(Forward(1, 1, 1, 80, 0, "r", "", "", Active), Tunnel(1, 1, 1, PORT_FORWARD, "", "", "", true))
  }

  lemma HalfIsNotCompletable()
    ensures var j := HalfForward();
            var sites: Sites := map[1 := Site(OldListener(TcpName(BaseName([], j.f))), map[])];
            Reachable(sites, j) && !Completable(sites, [], j)
  {
    hide TcpName, UdpName, BaseName;
    var j := HalfForward();
    var base := BaseName([], j.f);
    SuffixesDiffer(base, base);
    assert MainNames([], j) == [TcpName(base), UdpName(base)];
    assert MainNames([], j)[0] in MainNames([], j) && MainNames([], j)[1] in MainNames([], j);
  }

  lemma SelfThere(sites: Sites, uts: seq<UserTunnel>, j: Job)
    requires Reachable(sites, j)
    ensures SameThere(sites, sites, uts, j)
  {
  }

  lemma SameThereCompletable(a: Sites, b: Sites, uts: seq<UserTunnel>, j: Job)
    requires SameThere(a, b, uts, j)
    ensures Completable(a, uts, j) <==> Completable(b, uts, j)
  {
    hide MainNames;
  }

  // ---------------------------------------------------------------- running again

  /** From a state where nothing is left to do, a run changes nothing on any node, whatever fails. */
  lemma ReconcileIdle(db: Db, sites: Sites, node: int, env: Env)
    requires GoodRows(db) && node in sites && Orphans(sites[node].node, LiveIds(db, node)) == {}
    requires forall j | j in Jobs(db, db.tunnels, node) :: JobSettled(sites, db.userTunnels, node, j)
    ensures ReconcileNode(db, sites, node, env) == sites
  {
    hide SyncAll, Jobs, LiveIds, CleanUp, Orphans, JobSettled;
    JobsDistinct(db, db.tunnels, node);
    SyncAllIdle(sites, db.userTunnels, node, Jobs(db, db.tunnels, node), env);
    CleanUpIdle(sites[node].node, LiveIds(db, node));
    assert sites[node := sites[node]] == sites;
  }

  /** A hot update of the listeners has nothing to do if and only if there is no plain tcp listener, or the plain
      listeners are on target. */
  lemma QuietMeans(sites: Sites, uts: seq<UserTunnel>, j: Job)
    requires Reachable(sites, j) && j.t.kind == PORT_FORWARD && IsId(j.f.id)
    ensures var s, tcp, udp := sites[j.t.inNodeId].node, TcpName(BaseName(uts, j.f)), UdpName(BaseName(uts, j.f));
            Idle(s, MainUpdates(uts, j)) <==>
              || tcp !in s.registry
              || (udp !in s.registry && s.registry[tcp].forwarder == Target(j.f))
              || (udp in s.registry && Aimed(s, [tcp, udp], Target(j.f)))
  {
    hide TcpName, UdpName, BaseName, FirstEntry, Target;
    var s, us := sites[j.t.inNodeId].node, MainUpdates(uts, j);
    assert us[0] in us && us[1] in us;
    assert us == [us[0], us[1]];
    assert Reached(s, us, 0) <==> us[0].name in s.registry;
    assert Reached(s, us, 1) <==> us[0].name in s.registry && us[1].name in s.registry;
    assert AllThere(s, us) <==> us[0].name in s.registry && us[1].name in s.registry;
  }

  /** A hot update of the listeners or of the relay would redirect something. */
  ghost predicate Restless(sites: Sites, uts: seq<UserTunnel>, j: Job) {
    Reachable(sites, j) && !JobQuiet(sites, uts, j)
  }

  lemma {:induction false} SyncAllRedirects(sites: Sites, uts: seq<UserTunnel>, node: int, jobs: seq<Job>, j0: Job,
      env: Env)
    returns (id: int, n: string, j: Job)
    requires AllCovered(sites) && AllAnswered(env) && DistinctIds(jobs)
    requires forall i | i in jobs :: JobPushed(sites, uts, i) && PausesQuiet(sites, uts, node, i)
    requires j0 in jobs && Restless(sites, uts, j0)
    ensures Redirected(sites, SyncAll(sites, uts, node, jobs, env), id, n)
    ensures j in jobs && NameOf(uts, j.f, n)
    decreases |jobs|
  {
    hide SyncJob, NameOf, SitesAgree, AllCovered, PausesQuiet, JobPushed, Restless, AllAnswered, Redirected;
    var last, rest := jobs[|jobs| - 1], jobs[..|jobs| - 1];
    assert jobs == rest + [last];
    assert last in jobs && forall i | i in rest :: i in jobs;
    var mid := SyncAll(sites, uts, node, rest, env);
    if i :| i in rest && Restless(sites, uts, i) {
      id, n, j := SyncAllRedirects(sites, uts, node, rest, i, env);
      SyncJobFrame(mid, uts, node, last, env);
      DistinctForwardsDistinctNames(uts, j.f, last.f, n);
      TargetKept(sites, mid, SyncJob(mid, uts, node, last, env), id, n);
    } else {
      forall i | i in rest ensures JobSettled(sites, uts, node, i) {
        NotRestless(sites, uts, node, i);
      }
      SyncAllIdle(sites, uts, node, rest, env);
      assert j0 == last;
      id, n := SyncJobRedirects(sites, uts, node, last, env);
      j := last;
    }
  }

  lemma NotRestless(sites: Sites, uts: seq<UserTunnel>, node: int, j: Job)
    requires JobPushed(sites, uts, j) && PausesQuiet(sites, uts, node, j) && !Restless(sites, uts, j)
    ensures JobSettled(sites, uts, node, j)
  {
    hide JobQuiet, PausesQuiet, MainNone;
  }

  ghost predicate Redirected(a: Sites, b: Sites, id: int, n: string) {
    id in a && id in b && !SameTarget(a[id].node, b[id].node, n)
  }

  lemma TargetKept(a: Sites, b: Sites, c: Sites, id: int, n: string)
    requires SitesAgree(b, c, n) && Redirected(a, b, id, n)
    ensures Redirected(a, c, id, n)
  {
    hide FirstEntry;
    SameAtBoth(b[id].node, c[id].node, n);
  }

  /** The hot update a run sends for a pushed forward: the relay's, or the listeners'. */
  function HotUpdates(uts: seq<UserTunnel>, j: Job): seq<ForwarderUpdate> {
    if j.t.kind == TUNNEL_FORWARD then RelayUpdates(uts, j.f) else MainUpdates(uts, j)
  }

  function HotConfigs(uts: seq<UserTunnel>, j: Job): seq<ServiceConfig> {
    if j.t.kind == TUNNEL_FORWARD then RelayConfigs(uts, j.f) else MainConfigs(uts, j)
  }

  function HotNode(j: Job): int { if j.t.kind == TUNNEL_FORWARD then j.t.outNodeId else j.t.inNodeId }

  function HotWire(j: Job, env: Env): Wire { WireOf(env, j.f.id, if j.t.kind == TUNNEL_FORWARD then Relay else Main) }

  function WithNode(sites: Sites, id: int, s: NodeState): Sites
    requires id in sites
  {
    sites[id := sites[id].(node := s)]
  }

  lemma HotShape(sites: Sites, uts: seq<UserTunnel>, j: Job)
    requires IsId(j.f.id) && JobPushed(sites, uts, j)
    ensures var cs := HotConfigs(uts, j);
            && HotNode(j) in sites && cs != [] && Plain(NamesOf(cs)) && NoDup(NamesOf(cs))
            && !NoneThere(sites[HotNode(j)].node, NamesOf(cs)) && PlainUpdates(HotUpdates(uts, j))
    ensures forall u | u in HotUpdates(uts, j) :: NameOf(uts, j.f, u.name)
    ensures JobQuiet(sites, uts, j) <==> Idle(sites[HotNode(j)].node, HotUpdates(uts, j))
  {
    hide Trim, BaseName, NameOf, MainConfigs, MainNames, RelayConfigs, RelayUpdates, ChainName, Idle, Plain, NoDup,
         PlainUpdates;
    MainNamesOf(uts, j);
    RelayNamesOf(uts, j);
    UpdatesPlain(uts, j);
    JobNames(uts, j);
    assert RelayNames(uts, j)[0] in RelayNames(uts, j);
    NothingIdle(sites[j.t.inNodeId].node);
  }

  /** A push from a pushed state changes one node, and it by the push of the group that gets the hot update. */
  lemma GentleFromPushed(sites: Sites, uts: seq<UserTunnel>, j: Job, env: Env)
    requires IsId(j.f.id) && JobPushed(sites, uts, j)
    ensures var b, s := GentleSync(sites, uts, j, env).0, sites[HotNode(j)].node;
            || b == sites
            || b == WithNode(sites, HotNode(j), SyncGroup(s, HotConfigs(uts, j), HotUpdates(uts, j), HotWire(j, env)).0)
    ensures AllAnswered(env) ==>
              GentleSync(sites, uts, j, env).0
              == WithNode(sites, HotNode(j),
                          SyncGroup(sites[HotNode(j)].node, HotConfigs(uts, j), HotUpdates(uts, j), HotWire(j, env)).0)
  {
    hide Trim, BaseName, MainConfigs, MainNames, RelayConfigs, RelayUpdates, ChainName, WireOf, SyncGroup, NoneThere,
         AllRegistered, Plain, NoDup, PlainUpdates, NameOf;
    if j.t.kind == TUNNEL_FORWARD {
      var chain := ChainName(BaseName(uts, j.f));
      var s, r := sites[j.t.outNodeId].node,
          SyncGroup(sites[j.t.outNodeId].node, RelayConfigs(uts, j.f), RelayUpdates(uts, j.f),
              WireOf(env, j.f.id, Relay)).0;
      assert WithChain(sites[j.t.inNodeId].chains, chain, ChainTarget(j)) == sites[j.t.inNodeId].chains;
      assert ChainAt(sites, j.t.inNodeId, chain, ChainTarget(j), env.link(j.f.id, Relay, ChainVerb)).0 == sites;
      HotShape(sites, uts, j);
      PartKeepsKeys(s, RelayConfigs(uts, j.f), RelayUpdates(uts, j.f), WireOf(env, j.f.id, Relay));
      var relayed := SyncRelay(sites, uts, j, env).0;
      assert relayed == sites || relayed == WithNode(sites, j.t.outNodeId, r);
      MainLeftAlone(sites, relayed, uts, j, env);
      if AllAnswered(env) {
        RelayAnswers(sites, uts, j, env);
      }
    } else {
      NoRelay(sites, uts, j, env);
    }
  }

  lemma RelayAnswers(sites: Sites, uts: seq<UserTunnel>, j: Job, env: Env)
    requires IsId(j.f.id) && JobPushed(sites, uts, j) && AllAnswered(env) && j.t.kind == TUNNEL_FORWARD
    ensures SyncRelay(sites, uts, j, env).0
            == WithNode(sites, j.t.outNodeId,
                        SyncGroup(sites[j.t.outNodeId].node, RelayConfigs(uts, j.f), RelayUpdates(uts, j.f),
                            WireOf(env, j.f.id, Relay)).0)
  {
    hide Trim, BaseName, RelayConfigs, RelayUpdates, RelayNames, MainNames, ChainName, WireOf, SyncGroup, NoneThere,
         AllRegistered;
    var chain := ChainName(BaseName(uts, j.f));
    assert WithChain(sites[j.t.inNodeId].chains, chain, ChainTarget(j)) == sites[j.t.inNodeId].chains;
    assert ChainAt(sites, j.t.inNodeId, chain, ChainTarget(j), Delivered).0 == sites;
  }

  /** Listeners of a tunnel forward that are there get no hot update. */
  lemma MainLeftAlone(sites: Sites, relayed: Sites, uts: seq<UserTunnel>, j: Job, env: Env)
    requires IsId(j.f.id) && JobPushed(sites, uts, j) && j.t.kind == TUNNEL_FORWARD && j.t.inNodeId in relayed
    requires relayed[j.t.inNodeId].node.registry.Keys == sites[j.t.inNodeId].node.registry.Keys
    ensures SyncMain(relayed, uts, j, env).0 == relayed
  {
    hide Trim, BaseName, MainConfigs, RelayUpdates, RelayNames, ChainName, WireOf, SyncGroup, AllRegistered, Plain,
         NoDup, NameOf;
    MainNamesOf(uts, j);
    var s := relayed[j.t.inNodeId].node;
    NothingIdle(s);
    NoUpdatesPlain();
    SyncIdle(s, MainConfigs(uts, j), [], WireOf(env, j.f.id, Main));
    assert relayed[j.t.inNodeId := relayed[j.t.inNodeId]] == relayed;
  }

  lemma NoUpdatesPlain()
    ensures PlainUpdates([])
  {
  }

  lemma SyncJobRedirects(sites: Sites, uts: seq<UserTunnel>, node: int, j: Job, env: Env) returns (id: int, n: string)
    requires IsId(j.f.id) && AllCovered(sites) && AllAnswered(env)
    requires JobPushed(sites, uts, j) && PausesQuiet(sites, uts, node, j) && Restless(sites, uts, j)
    ensures Redirected(sites, SyncJob(sites, uts, node, j, env), id, n) && NameOf(uts, j.f, n)
  {
    hide NameOf, SyncGroup, HotUpdates, HotConfigs, HotNode, HotWire, JobQuiet, JobPushed, Idle, NoneThere,
         SameTarget, Covered, Plain, NoDup, PlainUpdates, PausesQuiet, PauseJob, GentleSync, Answered, AllAnswered;
    HotShape(sites, uts, j);
    GentleFromPushed(sites, uts, j, env);
    assert Answered(HotWire(j, env)) by { HotWireAnswered(j, env); }
    id := HotNode(j);
    var s, cs, updates, w := sites[id].node, HotConfigs(uts, j), HotUpdates(uts, j), HotWire(j, env);
    SyncRegisters(s, cs, updates, w);
    NothingIdle(s);
    assert Always(w.accepts) by { AnsweredAccepts(w); }
    n := HotUpdateRedirects(s, updates, w.accepts);
    var synced := GentleSync(sites, uts, j, env).0;
    assert synced[id].node == UpdateForwarder(s, updates, w.accepts).0;
    GentlePausesQuiet(sites, uts, node, j, env);
    PauseJobIdle(synced, uts, node, j, env);
  }

  lemma HotWireAnswered(j: Job, env: Env)
    requires AllAnswered(env)
    ensures Answered(HotWire(j, env))
  {
  }

  lemma AnsweredAccepts(w: Wire)
    requires Answered(w)
    ensures Always(w.accepts)
  {
  }

  /** A push from a pushed state pauses and resumes nothing, on any node. */
  lemma GentlePausesQuiet(sites: Sites, uts: seq<UserTunnel>, node: int, j: Job, env: Env)
    requires IsId(j.f.id) && JobPushed(sites, uts, j) && PausesQuiet(sites, uts, node, j)
    ensures var b := GentleSync(sites, uts, j, env).0;
            && b.Keys == sites.Keys && Reachable(b, j) && PausesQuiet(b, uts, node, j)
            && (forall k, n | k in sites :: SamePause(sites[k].node, b[k].node, n))
            && (forall n | forall u | u in HotUpdates(uts, j) :: u.name != n :: SitesAgree(sites, b, n))
  {
    hide GentleSync, HotConfigs, HotUpdates, HotNode, HotWire, NoneThere, SamePause, SitesAgree, PausesQuiet, Plain,
         NoDup, PlainUpdates, NameOf, JobPushed, WithNode, JobQuiet;
    PushedReachable(sites, uts, j);
    HotShape(sites, uts, j);
    GentleFromPushed(sites, uts, j, env);
    NothingTouched(sites);
    PushTouches(sites, HotNode(j), HotConfigs(uts, j), HotUpdates(uts, j), HotWire(j, env));
    QuietKept(sites, GentleSync(sites, uts, j, env).0, uts, node, j);
  }

  lemma NothingTouched(sites: Sites)
    ensures forall k, n | k in sites :: SamePause(sites[k].node, sites[k].node, n)
    ensures forall n :: SitesAgree(sites, sites, n)
  {
    hide SamePause, SameAt;
    forall k, n | k in sites ensures SamePause(sites[k].node, sites[k].node, n) {
      SamePauseReflexive(n);
    }
    forall n ensures SitesAgree(sites, sites, n) {
      SameAtReflexive(n);
    }
  }

  lemma PushTouches(sites: Sites, id: int, cs: seq<ServiceConfig>, updates: seq<ForwarderUpdate>, w: Wire)
    requires id in sites && cs != [] && Plain(NamesOf(cs)) && PlainUpdates(updates)
               && !NoneThere(sites[id].node, NamesOf(cs))
    ensures var b := WithNode(sites, id, SyncGroup(sites[id].node, cs, updates, w).0);
            && b.Keys == sites.Keys
            && (forall k, n | k in sites :: SamePause(sites[k].node, b[k].node, n))
            && (forall n | forall u | u in updates :: u.name != n :: SitesAgree(sites, b, n))
  {
    hide SamePause, SameAt, SyncGroup, Plain, PlainUpdates, NoneThere;
    var b := WithNode(sites, id, SyncGroup(sites[id].node, cs, updates, w).0);
    NothingTouched(sites);
    forall k, n | k in sites ensures SamePause(sites[k].node, b[k].node, n) {
      PushKeepsPause(sites[id].node, cs, updates, w, n);
    }
    forall n | forall u | u in updates :: u.name != n ensures SitesAgree(sites, b, n) {
      ForeignUntouched(sites[id].node, cs, updates, w, n);
      SameAtReflexive(n);
    }
  }

  lemma QuietKept(a: Sites, b: Sites, uts: seq<UserTunnel>, node: int, j: Job)
    requires Reachable(a, j) && b.Keys == a.Keys && PausesQuiet(a, uts, node, j)
    requires forall k, n | k in a :: SamePause(a[k].node, b[k].node, n)
    ensures Reachable(b, j) && PausesQuiet(b, uts, node, j)
  {
    hide SamePause, PauseQuiet, OperatedNames, BaseName, RelayNames;
    QuietFrame(a[j.t.inNodeId].node, b[j.t.inNodeId].node, OperatedNames(BaseName(uts, j.f), j.f));
    if j.t.kind == TUNNEL_FORWARD {
      QuietFrame(a[j.t.outNodeId].node, b[j.t.outNodeId].node, RelayNames(uts, j));
    }
  }

  lemma SamePauseReflexive(n: string)
    ensures forall s: NodeState :: SamePause(s, s, n)
  {
  }

  lemma PushKeepsPause(s: NodeState, cs: seq<ServiceConfig>, updates: seq<ForwarderUpdate>, w: Wire, n: string)
    requires cs != [] && Plain(NamesOf(cs)) && !NoneThere(s, NamesOf(cs))
    ensures SamePause(s, SyncGroup(s, cs, updates, w).0, n)
  {
    hide Create, UpdateForwarder, FirstEntry, Plain;
    CreateRefused(s, cs, w.opens);
    HotUpdateKeepsPause(s, updates, w.accepts, n);
  }

  lemma QuietFrame(s: NodeState, s': NodeState, names: seq<string>)
    requires forall n | n in names :: SamePause(s, s', n)
    ensures PauseQuiet(s, names) <==> PauseQuiet(s', names)
  {
    hide SamePause, PausedAt, AllRegistered;
    PausedFrame(s, s', names);
  }

  /** A second run changes nothing, whatever fails in it, if every forward settles at once; otherwise an answered second
      run redirects something. */
  lemma ReconcileIdempotent(db: Db, sites: Sites, node: int, env: Env, again: Env)
    requires Reconcilable(db, sites, node) && AllAnswered(env)
    ensures forall j | j in Jobs(db, db.tunnels, node) :: Reachable(sites, j)
    ensures var once := ReconcileNode(db, sites, node, env);
            && ((forall j | j in Jobs(db, db.tunnels, node) :: SettlesAtOnce(sites, db.userTunnels, j)) ==>
                  ReconcileNode(db, once, node, again) == once)
            && (AllAnswered(again) && ReconcileNode(db, once, node, again) == once ==>
                  forall j | j in Jobs(db, db.tunnels, node) :: SettlesAtOnce(sites, db.userTunnels, j))
  {
    hide ReconcileNode, Jobs, LiveIds, Orphans, JobPushed, MainPaused, RelayPaused, PausesMain, PausesRelay, JobQuiet,
         SettlesAtOnce, MainThere, MainNone, MainAimed, MainUnstale, PausesQuiet, OneAddress, Reachable;
    ReconcileOutcome(db, sites, node, env);
    var once, jobs := ReconcileNode(db, sites, node, env), Jobs(db, db.tunnels, node);
    forall j | j in jobs ensures Reachable(once, j)
        && (JobQuiet(once, db.userTunnels, j) <==> SettlesAtOnce(sites, db.userTunnels, j)) {
      DoneReachable(sites, once, db.userTunnels, node, j);
    }
    if forall j | j in jobs :: SettlesAtOnce(sites, db.userTunnels, j) {
      ReconcileIdle(db, once, node, again);
    } else if AllAnswered(again) {
      var j :| j in jobs && !SettlesAtOnce(sites, db.userTunnels, j);
      SecondRunRedirects(db, once, node, again, j);
    }
  }

  lemma SecondRunRedirects(db: Db, once: Sites, node: int, env: Env, j0: Job)
    requires GoodRows(db) && AllCovered(once) && AllAnswered(env) && node in once
    requires forall j | j in Jobs(db, db.tunnels, node) ::
               JobPushed(once, db.userTunnels, j) && PausesQuiet(once, db.userTunnels, node, j)
    requires j0 in Jobs(db, db.tunnels, node) && Restless(once, db.userTunnels, j0)
    ensures ReconcileNode(db, once, node, env) != once
  {
    hide SyncAll, Jobs, LiveIds, NameOf, JobPushed, PausesQuiet, AllCovered, Redirected, ForwardIdOf, AllAnswered,
         CleanAt, Restless, SitesAgree;
    JobsDistinct(db, db.tunnels, node);
    var jobs := Jobs(db, db.tunnels, node);
    var id, n, j := SyncAllRedirects(once, db.userTunnels, node, jobs, j0, env);
    var synced := SyncAll(once, db.userTunnels, node, jobs, env);
    JobIsLive(db, node, j);
    NameOfForward(db.userTunnels, j.f, n);
    LiveNameKept(db, synced, node, env, n);
    TargetKept(once, synced, CleanAt(synced, db, node, env), id, n);
    NotRedirected(once, id, n);
  }

  lemma LiveNameKept(db: Db, sites: Sites, node: int, env: Env, n: string)
    requires ForwardIdOf(n).Some? && ForwardIdOf(n).value in LiveIds(db, node)
    ensures SitesAgree(sites, CleanAt(sites, db, node, env), n)
  {
    hide CleanUp, LiveIds, SameAt, ForwardIdOf;
    SameAtReflexive(n);
    if node in sites {
      CleanUpFrame(sites[node].node, LiveIds(db, node), n);
    }
  }

  lemma NotRedirected(sites: Sites, id: int, n: string)
    ensures !Redirected(sites, sites, id, n)
  {
    hide FirstEntry;
  }

  /** A forward that was changed from one address to two, with its old tcp listener left over and pointing elsewhere. */
  function ChangedForward(): Job {
    Job(Forward(1, 1, 1, 80, 0, "r", "", "a,b", Active), Tunnel(1, 1, 1, PORT_FORWARD, "", "", "", true))
  }

  function OldListener(n: string): NodeState {
    NodeState(map[n := Instance(true, "", None, None)], [ServiceConfig(n, "", None, None, map[])])
  }

  lemma ChangedForwardShape(uts: seq<UserTunnel>)
    ensures !OneAddress(ChangedForward()) && IsId(ChangedForward().f.id)
    ensures var base := BaseName(uts, ChangedForward().f);
            && TcpName(base) !in MainNames(uts, ChangedForward())
            && TcpName(base) != "" && Trim(TcpName(base)) == TcpName(base)
  {
    hide Trim, TcpName, UdpName, BaseName, ListenIps, Suffixed;
    var j := ChangedForward();
    var base := BaseName(uts, j.f);
    TwoParts();
    PlainNameNotSuffixed(base, 2);
    assert TcpName(base) in GroupNames(base, 1);
    NameOfForward(uts, j.f, TcpName(base));
  }

  lemma OldListenerAlone(n: string)
    requires n != "" && Trim(n) == n
    ensures Covered(OldListener(n))
  {
    hide Trim;
    assert NamesOf(OldListener(n).services)[0] == n;
  }

  /** Then the first run adds the new listeners, and the second redirects the old one. */
  lemma LeftoverIsRedirected(env: Env, again: Env)
    requires AllAnswered(env) && AllAnswered(again)
    ensures var j := ChangedForward();
            var db := Db({1}, [j.t], [j.f], []);
            var sites: Sites := map[1 := Site(OldListener(TcpName(BaseName([], j.f))), map[])];
            && Reconcilable(db, sites, 1)
            && ReconcileNode(db, ReconcileNode(db, sites, 1, env), 1, again) != ReconcileNode(db, sites, 1, env)
  {
    hide Trim, TcpName, UdpName, BaseName, Jobs, MainNames, Covered, ReconcileNode, Idle, AllAnswered, OneAddress,
         Target;
    var j := ChangedForward();
    var db := Db({1}, [j.t], [j.f], []);
    var base := BaseName([], j.f);
    var sites: Sites := map[1 := Site(OldListener(TcpName(base)), map[])];
    ChangedForwardShape([]);
    OldListenerAlone(TcpName(base));
    assert j.t in db.tunnels && j.f in db.forwards;
    assert forall i :: i in Jobs(db, db.tunnels, 1) <==> i == j;
    QuietMeans(sites, [], j);
    SuffixesDiffer(base, base);
    assert Target(j.f) != None by { TargetSome(j.f); }
    assert !SettlesAtOnce(sites, [], j);
    ReconcileIdempotent(db, sites, 1, env, again);
  }

  lemma TargetSome(f: Forward)
    ensures Target(f) != None
  {
  }

  lemma PushedSettles(sites: Sites, uts: seq<UserTunnel>, j: Job)
    requires JobPushed(sites, uts, j)
    ensures Reachable(sites, j) && SettlesAtOnce(sites, uts, j)
  {
    hide MainNames, Idle, NoStale, RelayUpdates, MainUpdates, ChainName, BaseName, OneAddress, RelayName;
    assert RelayNames(uts, j)[0] in RelayNames(uts, j);
  }

  /** A third run never changes anything, whatever fails in it. */
  lemma ThirdRunIdle(db: Db, sites: Sites, node: int, env: Env, again: Env, third: Env)
    requires Reconcilable(db, sites, node) && AllAnswered(env) && AllAnswered(again)
    ensures var twice := ReconcileNode(db, ReconcileNode(db, sites, node, env), node, again);
            ReconcileNode(db, twice, node, third) == twice
  {
    hide ReconcileNode, Jobs, LiveIds, Orphans, JobPushed, JobDone, Reachable, AllAnswered, SettlesAtOnce;
    ReconcileOutcome(db, sites, node, env);
    var once := ReconcileNode(db, sites, node, env);
    forall j | j in Jobs(db, db.tunnels, node) ensures Reachable(once, j) && SettlesAtOnce(once, db.userTunnels, j) {
      DoneReachable(sites, once, db.userTunnels, node, j);
      PushedSettles(once, db.userTunnels, j);
    }
    ReconcileIdempotent(db, once, node, again, third);
  }

  /** A name that the hot update of a forward carries which does not settle at once. */
  ghost predicate Unsettled(sites: Sites, uts: seq<UserTunnel>, jobs: seq<Job>, n: string)
    requires forall j | j in jobs :: Reachable(sites, j)
  {
    exists j, u :: j in jobs && !SettlesAtOnce(sites, uts, j) && u in HotUpdates(uts, j) && u.name == n
  }

  ghost predicate RestlessName(sites: Sites, uts: seq<UserTunnel>, jobs: seq<Job>, n: string) {
    exists j, u :: j in jobs && Restless(sites, uts, j) && u in HotUpdates(uts, j) && u.name == n
  }

  lemma {:induction false} SyncAllTouches(sites: Sites, uts: seq<UserTunnel>, node: int, jobs: seq<Job>, env: Env)
    requires DistinctIds(jobs)
    requires forall j | j in jobs :: JobPushed(sites, uts, j) && PausesQuiet(sites, uts, node, j)
    ensures var b := SyncAll(sites, uts, node, jobs, env);
            && b.Keys == sites.Keys
            && (forall k, n | k in sites :: SamePause(sites[k].node, b[k].node, n))
            && (forall n | !RestlessName(sites, uts, jobs, n) :: SitesAgree(sites, b, n))
  {
    hide SyncJob, NameOf, PausesQuiet, JobPushed, Restless, SameAt, SamePause, HotUpdates, AgreeOn;
    if jobs != [] {
      var last, rest := jobs[|jobs| - 1], jobs[..|jobs| - 1];
      var mid, b := SyncAll(sites, uts, node, rest, env), SyncAll(sites, uts, node, jobs, env);
      assert last in jobs && forall j | j in rest :: j in jobs;
      SyncAllTouches(sites, uts, node, rest, env);
      PushedReachable(sites, uts, last);
      OthersAgree(sites, uts, node, rest, last, env);
      AgreeReachable(sites, mid, uts, last);
      RestlessFrame(sites, mid, uts, node, last);
      SyncJobTouches(mid, uts, node, last, env);
      forall k, n | k in sites ensures SamePause(sites[k].node, b[k].node, n) {
        SamePauseTransitive(sites[k].node, mid[k].node, b[k].node, n);
      }
      forall n | !RestlessName(sites, uts, jobs, n) ensures SitesAgree(sites, b, n) {
        assert Restless(sites, uts, last) ==> forall u | u in HotUpdates(uts, last) :: u.name != n;
        assert !RestlessName(sites, uts, rest, n);
        AgreeTransitive(sites, mid, b, n);
      }
    } else {
      NothingTouched(sites);
    }
  }

  lemma RestlessFrame(a: Sites, b: Sites, uts: seq<UserTunnel>, node: int, j: Job)
    requires IsId(j.f.id) && AgreeOn(a, b, uts, j) && JobPushed(a, uts, j) && PausesQuiet(a, uts, node, j)
    ensures JobPushed(b, uts, j) && PausesQuiet(b, uts, node, j) && (Restless(a, uts, j) <==> Restless(b, uts, j))
  {
    hide JobPushed, JobQuiet, PausesQuiet, AgreeOn, MainThere, MainNone, MainAimed, MainUnstale, MainPaused,
         RelayPaused, SettlesAtOnce;
    AgreeReachable(a, b, uts, j);
    AgreeFrame(a, b, uts, node, j);
  }

  lemma SamePauseTransitive(a: NodeState, b: NodeState, c: NodeState, n: string)
    requires SamePause(a, b, n) && SamePause(b, c, n)
    ensures SamePause(a, c, n)
  {
    hide FirstEntry;
  }

  lemma SyncJobTouches(sites: Sites, uts: seq<UserTunnel>, node: int, j: Job, env: Env)
    requires IsId(j.f.id) && JobPushed(sites, uts, j) && PausesQuiet(sites, uts, node, j)
    ensures var b := SyncJob(sites, uts, node, j, env);
            && b.Keys == sites.Keys
            && (forall k, n | k in sites :: SamePause(sites[k].node, b[k].node, n))
            && (forall n | Restless(sites, uts, j) ==> forall u | u in HotUpdates(uts, j) :: u.name != n ::
                  SitesAgree(sites, b, n))
  {
    hide GentleSync, PauseJob, NameOf, PausesQuiet, JobPushed, Restless, SameAt, SamePause, HotUpdates;
    if Restless(sites, uts, j) {
      GentlePausesQuiet(sites, uts, node, j, env);
      PushedReachable(sites, uts, j);
      PauseJobIdle(GentleSync(sites, uts, j, env).0, uts, node, j, env);
    } else {
      NotRestless(sites, uts, node, j);
      SyncJobIdle(sites, uts, node, j, env);
      NothingTouched(sites);
    }
  }

  /** After an answered first run, a second one, whatever fails in it, registers, unregisters, pauses and resumes
      nothing on any node, and touches no service but those that the hot update of a forward names which does not
      settle at once. */
  lemma SecondRunTouches(db: Db, sites: Sites, node: int, env: Env, again: Env)
    requires Reconcilable(db, sites, node) && AllAnswered(env)
    ensures forall j | j in Jobs(db, db.tunnels, node) :: Reachable(sites, j)
    ensures var once := ReconcileNode(db, sites, node, env);
            var twice := ReconcileNode(db, once, node, again);
            && twice.Keys == once.Keys
            && (forall k, n | k in once :: SamePause(once[k].node, twice[k].node, n))
            && (forall n | !Unsettled(sites, db.userTunnels, Jobs(db, db.tunnels, node), n) ::
                  SitesAgree(once, twice, n))
  {
    hide SyncAll, Jobs, LiveIds, CleanUp, Orphans, JobPushed, JobQuiet, SettlesAtOnce, MainThere, MainNone, MainAimed,
         MainUnstale, MainPaused, RelayPaused, PausesQuiet, PausesMain, PausesRelay, NameOf, SameAt, SamePause,
         HotUpdates, OneAddress;
    ReconcileOutcome(db, sites, node, env);
    JobsDistinct(db, db.tunnels, node);
    var once, jobs := ReconcileNode(db, sites, node, env), Jobs(db, db.tunnels, node);
    SyncAllTouches(once, db.userTunnels, node, jobs, again);
    var synced := SyncAll(once, db.userTunnels, node, jobs, again);
    NoOrphansLeft(once[node].node, synced[node].node, LiveIds(db, node));
    CleanUpIdle(synced[node].node, LiveIds(db, node));
    assert synced[node := synced[node].(node := synced[node].node)] == synced;
    forall n | RestlessName(once, db.userTunnels, jobs, n) ensures Unsettled(sites, db.userTunnels, jobs, n) {
      var j, u :| j in jobs && Restless(once, db.userTunnels, j) && u in HotUpdates(db.userTunnels, j) && u.name == n;
      assert !SettlesAtOnce(sites, db.userTunnels, j);
    }
  }

  lemma NoOrphansLeft(s: NodeState, s': NodeState, live: set<int>)
    requires Orphans(s, live) == {} && forall n :: SamePause(s, s', n)
    ensures Orphans(s', live) == {}
  {
    hide ForwardIdOf, FirstEntry;
    forall n ensures n in Orphans(s', live) ==> n in Orphans(s, live) {
      assert SamePause(s, s', n);
    }
  }

  // ---------------------------------------------------------------- both ends of a tunnel forward

  /** A run of one node leaves another as fit for a run as it was. */
  lemma StaysReconcilable(db: Db, sites: Sites, first: int, second: int, env: Env)
    requires Reconcilable(db, sites, first) && Reconcilable(db, sites, second) && AllAnswered(env)
    ensures Reconcilable(db, ReconcileNode(db, sites, first, env), second)
  {
    hide SyncAll, Jobs, LiveIds, Orphans, JobDone, AllCovered, AllAnswered, CleanUp, SitesAgree;
    ReconcileOutcome(db, sites, first, env);
    JobsDistinct(db, db.tunnels, first);
    SyncAllFrame(sites, db.userTunnels, first, Jobs(db, db.tunnels, first), env);
  }

  /** Reconciling both ends in turn, in either order, leaves the relay of a paused tunnel forward paused, and its
      listeners if and only if they were, or all of them or none of them were there. */
  lemma BothEndsPaused(db: Db, sites: Sites, first: int, second: int, env: Env, again: Env, j: Job)
    requires Reconcilable(db, sites, first) && Reconcilable(db, sites, second) && AllAnswered(env) && AllAnswered(again)
    requires j in Jobs(db, db.tunnels, first) && j.t.kind == TUNNEL_FORWARD && j.f.status == Paused
               && ListenGoverned(j.f, j.t)
    requires {first, second} == {j.t.inNodeId, j.t.outNodeId}
    ensures var b := ReconcileNode(db, ReconcileNode(db, sites, first, env), second, again);
            && Reachable(sites, j) && Reachable(b, j) && RelayPaused(b, db.userTunnels, j)
            && (MainPaused(b, db.userTunnels, j) <==>
                  MainPaused(sites, db.userTunnels, j) || Completable(sites, db.userTunnels, j))
  {
    hide ReconcileNode, Reconcilable, MainPaused, RelayPaused, AllAnswered, ListenGoverned, MainThere, MainNone,
         JobPushed;
    var once := ReconcileNode(db, sites, first, env);
    JobOfBoth(db, first, second, j);
    ReconcilePauses(db, sites, first, env, j);
    ReconcileRegisters(db, sites, first, env, j);
    PushedReachable(once, db.userTunnels, j);
    StaysReconcilable(db, sites, first, second, env);
    ReconcilePauses(db, once, second, again, j);
    assert first in {j.t.inNodeId, j.t.outNodeId} && second in {j.t.inNodeId, j.t.outNodeId};
    assert j.t.inNodeId in {first, second} && j.t.outNodeId in {first, second};
  }

  lemma JobOfBoth(db: Db, first: int, second: int, j: Job)
    requires j in Jobs(db, db.tunnels, first) && {first, second} == {j.t.inNodeId, j.t.outNodeId}
    ensures j in Jobs(db, db.tunnels, second)
  {
    hide Jobs;
    assert second in {j.t.inNodeId, j.t.outNodeId};
  }

  // ---------------------------------------------------------------- safety under every failure

  ghost predicate NothingLost(sites: Sites, sites': Sites) {
    sites.Keys == sites'.Keys && forall id | id in sites ::
        sites[id].node.registry.Keys <= sites'[id].node.registry.Keys
  }

  lemma SyncAtLosesNothing(sites: Sites, id: int, cs: seq<ServiceConfig>, updates: seq<ForwarderUpdate>, w: Wire)
    ensures NothingLost(sites, SyncAt(sites, id, cs, updates, w).0)
  {
    hide Create, UpdateForwarder, Trim, TrimAll;
    if id in sites {
      CreateEffect(sites[id].node, cs, w.opens);
      UpdateForwarderEffect(sites[id].node, updates, w.accepts);
    }
  }

  lemma SyncJobLosesNothing(sites: Sites, uts: seq<UserTunnel>, node: int, j: Job, env: Env)
    requires IsId(j.f.id)
    ensures NothingLost(sites, SyncJob(sites, uts, node, j, env))
  {
    hide SyncAt, PauseJob, WireOf, BaseName, ChainName, MainConfigs, MainUpdates, RelayConfigs, RelayUpdates, NameOf,
         ChainTarget, WithChain, SitesAgree, AllCovered, Grown;
    var chained := ChainAt(sites, j.t.inNodeId, ChainName(BaseName(uts, j.f)), ChainTarget(j),
        env.link(j.f.id, Relay, ChainVerb)).0;
    var relayed := SyncRelay(sites, uts, j, env).0;
    SyncAtLosesNothing(chained, j.t.outNodeId, RelayConfigs(uts, j.f), RelayUpdates(uts, j.f),
        WireOf(env, j.f.id, Relay));
    SyncAtLosesNothing(relayed, j.t.inNodeId, MainConfigs(uts, j), MainUpdates(uts, j), WireOf(env, j.f.id, Main));
    PauseJobFrame(GentleSync(sites, uts, j, env).0, uts, node, j, env);
  }

  lemma {:induction false} SyncAllLosesNothing(sites: Sites, uts: seq<UserTunnel>, node: int, jobs: seq<Job>, env: Env)
    requires forall j | j in jobs :: IsId(j.f.id)
    ensures NothingLost(sites, SyncAll(sites, uts, node, jobs, env))
  {
    hide SyncJob;
    if jobs != [] {
      SyncAllLosesNothing(sites, uts, node, jobs[..|jobs| - 1], env);
      assert jobs[|jobs| - 1] in jobs;
      SyncJobLosesNothing(SyncAll(sites, uts, node, jobs[..|jobs| - 1], env), uts, node, jobs[|jobs| - 1], env);
    }
  }

  /** Whatever is refused, lost or left unanswered, whichever nodes are offline: the only services a run unregisters
      are, on the node itself, panel-shaped names of forwards the node does not have; the registry stays covered. */
  lemma ReconcileSafe(db: Db, sites: Sites, node: int, env: Env)
    requires GoodRows(db)
    ensures ReconcileNode(db, sites, node, env).Keys == sites.Keys
    ensures forall id, n | id in sites && n in sites[id].node.registry
              && n !in ReconcileNode(db, sites, node, env)[id].node.registry ::
              id == node && ForwardIdOf(n).Some? && ForwardIdOf(n).value !in LiveIds(db, node)
    ensures AllCovered(sites) ==> AllCovered(ReconcileNode(db, sites, node, env))
  {
    hide SyncAll, Jobs, LiveIds, ForwardIdOf, Trim, SitesAgree;
    SyncAllLosesNothing(sites, db.userTunnels, node, Jobs(db, db.tunnels, node), env);
    SyncAllFrame(sites, db.userTunnels, node, Jobs(db, db.tunnels, node), env);
    var synced := SyncAll(sites, db.userTunnels, node, Jobs(db, db.tunnels, node), env);
    if node in synced {
      WithoutNames(synced[node].node.services, Orphans(synced[node].node, LiveIds(db, node)));
    }
  }

  // ---------------------------------------------------------------- forwards on several addresses

  /** A push of a port forward on several addresses some of which is there leaves its listeners as they are, whatever
      is answered and whatever else is on the node: the hot update names plain listeners, which are not its own. */
  lemma MultiAddressNotUpdated(s: NodeState, uts: seq<UserTunnel>, j: Job, w: Wire, n: string)
    requires IsId(j.f.id) && !OneAddress(j) && !NoneThere(s, MainNames(uts, j)) && n in MainNames(uts, j)
    ensures SameAt(s, SyncGroup(s, MainConfigs(uts, j), MainUpdates(uts, j), w).0, n)
  {
    hide Trim, BaseName, MainConfigs, MainUpdates, MainNames, NameOf, NoDup, Plain, PlainUpdates, SyncGroup, SameAt,
         OneAddress, NoneThere;
    MainNamesOf(uts, j);
    UpdatesPlain(uts, j);
    MainUpdateReach(uts, j);
    ForeignUntouched(s, MainConfigs(uts, j), MainUpdates(uts, j), w, n);
  }

  /** A pause of a forward that is there and running leaves its listeners running if and only if its listen list does
      not govern: it then names plain listeners, which are not its own. */
  lemma UngovernedNotPaused(s: NodeState, uts: seq<UserTunnel>, j: Job)
    requires IsId(j.f.id) && Covered(s) && AllRegistered(s, MainNames(uts, j))
    requires forall n | n in MainNames(uts, j) :: s.registry[n].open
    ensures var b := Pause(s, OperatedNames(BaseName(uts, j.f), j.f)).0;
            && AllRegistered(b, MainNames(uts, j))
            && ((forall n | n in MainNames(uts, j) :: b.registry[n].open) <==> !ListenGoverned(j.f, j.t))
            && ((exists n :: n in MainNames(uts, j) && b.registry[n].open) <==> !ListenGoverned(j.f, j.t))
  {
    hide Trim, TrimAll, BaseName, MainNames, OperatedNames, NameOf, ListenGoverned, Pause, Plain, FirstEntry;
    var operated := OperatedNames(BaseName(uts, j.f), j.f);
    OperatedPlain(uts, j);
    OperatedAreMain(uts, j);
    TrimAllPlain(operated);
    PauseEffect(s, operated);
    MainNonEmpty(uts, j);
    assert MainNames(uts, j)[0] in MainNames(uts, j);
    if ListenGoverned(j.f, j.t) {
      PausePauses(s, operated);
    } else {
      forall n | n in MainNames(uts, j) ensures SameAt(s, Pause(s, operated).0, n) {
        PauseFrame(s, operated, n);
      }
    }
  }

  lemma MainNonEmpty(uts: seq<UserTunnel>, j: Job)
    ensures MainNames(uts, j) != []
  {
    LengthTellsNames(BaseName(uts, j.f), |ListenIps(Governing(j.f, j.t))|);
  }
}
