/** Where the services of a forward listen after a reconciliation, and where its chain leads. */
module ReconcilePlaces {
  import opened Text
  import opened Rows
  import opened Names
  import opened NodeServices
  import opened NodeEffects
  import opened ReconcileFrames
  import opened Reconcile
  import opened ReconcileGroups
  import opened ReconcileRuns
  import opened ReconcileTheorems

  // ---------------------------------------------------------------- one group

  /** Every service of the group listens and is configured where its configuration says, with its chain. */
  ghost predicate Placed(s: NodeState, cs: seq<ServiceConfig>) {
    forall c | c in cs ::
      && c.name in s.registry && s.registry[c.name].addr == c.addr && s.registry[c.name].chain == c.chain
      && FirstEntry(s.services, c.name).Some?
      && FirstEntry(s.services, c.name).value.addr == c.addr && FirstEntry(s.services, c.name).value.chain == c.chain
  }

  /** What is still configured under the names of the group is configured there. */
  ghost predicate NoneMisplaced(s: NodeState, cs: seq<ServiceConfig>) {
    forall c | c in cs && FirstEntry(s.services, c.name).Some? ::
      FirstEntry(s.services, c.name).value.addr == c.addr && FirstEntry(s.services, c.name).value.chain == c.chain
  }

  /** Two states agree on where a name listens. */
  ghost predicate SamePlace(s: NodeState, s': NodeState, n: string) {
    && (n in s.registry <==> n in s'.registry)
    && (n in s.registry ==>
          s'.registry[n].addr == s.registry[n].addr && s'.registry[n].chain == s.registry[n].chain)
    && (FirstEntry(s.services, n).Some? <==> FirstEntry(s'.services, n).Some?)
    && (FirstEntry(s.services, n).Some? ==>
          && FirstEntry(s'.services, n).value.addr == FirstEntry(s.services, n).value.addr
          && FirstEntry(s'.services, n).value.chain == FirstEntry(s.services, n).value.chain)
  }

  lemma PlacedFrame(s: NodeState, s': NodeState, cs: seq<ServiceConfig>)
    requires forall n | n in NamesOf(cs) :: SamePlace(s, s', n)
    ensures Placed(s, cs) <==> Placed(s', cs)
    ensures NoneMisplaced(s, cs) <==> NoneMisplaced(s', cs)
    ensures NoneThere(s, NamesOf(cs)) <==> NoneThere(s', NamesOf(cs))
  {
    hide FirstEntry;
    forall c | c in cs ensures SamePlace(s, s', c.name) {
      NameListed(cs, c);
    }
  }

  lemma NameListed(cs: seq<ServiceConfig>, c: ServiceConfig)
    requires c in cs
    ensures c.name in NamesOf(cs)
  {
    var i :| 0 <= i < |cs| && cs[i] == c;
    assert NamesOf(cs)[i] == c.name;
  }

  lemma SameIsPlace(s: NodeState, s': NodeState, n: string)
    requires SameAt(s, s', n)
    ensures SamePlace(s, s', n)
  {
    hide FirstEntry;
  }

  /** An edit that is no replacement moves no entry. */
  lemma EditKeepsPlace(services: seq<ServiceConfig>, m: string, e: Edit, n: string)
    requires !e.Replace?
    ensures var a, b := FirstEntry(services, n), FirstEntry(EditFirst(services, m, e), n);
            (a.Some? <==> b.Some?) && (a.Some? ==> b.value.addr == a.value.addr && b.value.chain == a.value.chain)
  {
    FindInSameNames(services, EditFirst(services, m, e), n);
  }

  lemma {:induction false} EditsKeepPlace(services: seq<ServiceConfig>, names: seq<string>, e: Edit, n: string)
    requires !e.Replace?
    ensures var a, b := FirstEntry(services, n), FirstEntry(EditAll(services, names, e), n);
            (a.Some? <==> b.Some?) && (a.Some? ==> b.value.addr == a.value.addr && b.value.chain == a.value.chain)
  {
    hide FirstEntry, EditFirst;
    if names != [] {
      EditsKeepPlace(services, names[..|names| - 1], e, n);
      EditKeepsPlace(EditAll(services, names[..|names| - 1], e), names[|names| - 1], e, n);
    }
  }

  lemma {:induction false} ForwardersKeepPlace(services: seq<ServiceConfig>, updates: seq<ForwarderUpdate>, n: string)
    ensures var a, b := FirstEntry(services, n), FirstEntry(SetForwarderAll(services, updates), n);
            (a.Some? <==> b.Some?) && (a.Some? ==> b.value.addr == a.value.addr && b.value.chain == a.value.chain)
  {
    hide FirstEntry, EditFirst;
    if updates != [] {
      var rest, u := updates[..|updates| - 1], updates[|updates| - 1];
      ForwardersKeepPlace(services, rest, n);
      EditKeepsPlace(SetForwarderAll(services, rest), u.name, SetForwarder(u.forwarder), n);
    }
  }

  lemma {:induction false} TargetsKeepPlace(registry: map<string, Instance>, updates: seq<ForwarderUpdate>, n: string)
    requires n in registry
    ensures n in SetTargets(registry, updates)
    ensures SetTargets(registry, updates)[n].addr == registry[n].addr
    ensures SetTargets(registry, updates)[n].chain == registry[n].chain
  {
    hide Trim;
    if updates != [] {
      TargetsKeepPlace(registry, updates[..|updates| - 1], n);
    }
  }

  /** Neither a hot update nor a pause moves a service, on any outcome. */
  lemma UpdateKeepsPlace(s: NodeState, updates: seq<ForwarderUpdate>, accepts: nat -> bool, n: string)
    ensures SamePlace(s, UpdateForwarder(s, updates, accepts).0, n)
  {
    hide FirstEntry, SetTargets, SetForwarderAll, FirstRejected, CheckForwarder;
    UpdateForwarderEffect(s, updates, accepts);
    var k := FirstRejected(s.registry, updates, accepts);
    ForwardersKeepPlace(s.services, updates, n);
    if n in s.registry {
      TargetsKeepPlace(s.registry, updates, n);
      if k < |updates| {
        TargetsKeepPlace(s.registry, updates[..k], n);
      }
    }
  }

  lemma PauseKeepsPlace(s: NodeState, names: seq<string>, n: string)
    ensures SamePlace(s, Pause(s, names).0, n)
  {
    hide FirstEntry, TrimAll, EditAll, FirstUnconfigured, CheckPresent;
    EditsKeepPlace(s.services, TrimAll(names), MarkPaused, n);
  }

  /** A new group listens where it is configured to, and is configured there unless an old entry is not. */
  lemma CreatePlaces(s: NodeState, cs: seq<ServiceConfig>, opens: nat -> bool)
    requires cs != [] && Plain(NamesOf(cs)) && NoDup(NamesOf(cs)) && Always(opens) && NoneThere(s, NamesOf(cs))
    ensures Placed(Create(s, cs, opens).0, cs) <==> NoneMisplaced(s, cs)
  {
    hide Trim, Trimmed, RegisterAll, FirstEntry;
    TrimmedPlain(cs);
    var s' := Create(s, cs, opens).0;
    CreateRegisters(s, cs, opens);
    assert s' == NodeState(RegisterAll(s.registry, cs), s.services + cs);
    forall c | c in cs
      ensures c.name in s'.registry && s'.registry[c.name] == Instance(true, c.addr, c.chain, c.forwarder)
      ensures FirstEntry(s'.services, c.name)
              == if FirstEntry(s.services, c.name).Some? then FirstEntry(s.services, c.name) else Some(c) {
      var i :| 0 <= i < |cs| && cs[i] == c;
      RegisteredRuns(s.registry, cs, i);
      NameListed(cs, c);
      EntryOfAppended(s.services, cs, c.name);
      if FirstEntry(s.services, c.name) == None {
        OneOfAName(cs, c, FirstEntry(s'.services, c.name).value);
      }
    }
  }

  lemma OneOfAName(cs: seq<ServiceConfig>, c: ServiceConfig, d: ServiceConfig)
    requires NoDup(NamesOf(cs)) && c in cs && d in cs && c.name == d.name
    ensures c == d
  {
    var i :| 0 <= i < |cs| && cs[i] == c;
    var j :| 0 <= j < |cs| && cs[j] == d;
    assert NamesOf(cs)[i] == NamesOf(cs)[j];
  }

  /** After an answered push a group is in its place if and only if it was, or it is new and no old entry of it is
      elsewhere: a push moves nothing. */
  lemma SyncPlaces(s: NodeState, cs: seq<ServiceConfig>, updates: seq<ForwarderUpdate>, w: Wire)
    requires cs != [] && Plain(NamesOf(cs)) && NoDup(NamesOf(cs)) && Answered(w)
    ensures Placed(SyncGroup(s, cs, updates, w).0, cs) <==>
              Placed(s, cs) || (NoneThere(s, NamesOf(cs)) && NoneMisplaced(s, cs))
  {
    hide Create, UpdateForwarder, Placed, NoneMisplaced, SamePlace, SyncGroup, Plain, NoDup;
    SyncRegisters(s, cs, updates, w);
    if NoneThere(s, NamesOf(cs)) {
      CreatePlaces(s, cs, w.opens);
      PlacedIsThere(s, cs);
    } else if updates != [] {
      forall n | n in NamesOf(cs) ensures SamePlace(s, SyncGroup(s, cs, updates, w).0, n) {
        UpdateKeepsPlace(s, updates, w.accepts, n);
      }
      PlacedFrame(s, SyncGroup(s, cs, updates, w).0, cs);
    }
  }

  lemma PlacedIsThere(s: NodeState, cs: seq<ServiceConfig>)
    requires cs != []
    ensures Placed(s, cs) ==> !NoneThere(s, NamesOf(cs))
  {
    NameListed(cs, cs[0]);
  }

  /** Whatever is answered, a push moves no service that is registered and configured. */
  lemma GroupMovesNothing(s: NodeState, cs: seq<ServiceConfig>, updates: seq<ForwarderUpdate>, w: Wire, n: string)
    requires n in s.registry && FirstEntry(s.services, n).Some?
    ensures SamePlace(s, SyncGroup(s, cs, updates, w).0, n)
  {
    hide Create, UpdateForwarder, SamePlace, FirstEntry;
    SamePlaceReflexive();
    UpdateKeepsPlace(s, updates, w.accepts, n);
    CreateMovesNothing(s, cs, w.opens, n);
  }

  lemma SamePlaceReflexive()
    ensures forall s: NodeState, n :: SamePlace(s, s, n)
  {
  }

  lemma CreateMovesNothing(s: NodeState, cs: seq<ServiceConfig>, opens: nat -> bool, n: string)
    requires n in s.registry && FirstEntry(s.services, n).Some?
    ensures SamePlace(s, Create(s, cs, opens).0, n)
  {
    hide Trim, Trimmed, RegisterAll, CheckNew;
    SamePlaceReflexive();
    if Create(s, cs, opens).1 == Ok {
      CreateEffect(s, cs, opens);
      RegisterAllValues(s.registry, Trimmed(cs), n);
      AppendFrame(s.services, Trimmed(cs), n);
    } else {
      CreateEffect(s, cs, opens);
    }
  }

  // ---------------------------------------------------------------- one forward

  ghost predicate MainPlaced(sites: Sites, uts: seq<UserTunnel>, j: Job)
    requires Reachable(sites, j)
  {
    Placed(sites[j.t.inNodeId].node, MainConfigs(uts, j))
  }

  /** None of the listeners is registered, and none is configured elsewhere. */
  ghost predicate MainFree(sites: Sites, uts: seq<UserTunnel>, j: Job)
    requires Reachable(sites, j)
  {
    MainNone(sites, uts, j) && NoneMisplaced(sites[j.t.inNodeId].node, MainConfigs(uts, j))
  }

  ghost predicate RelayPlaced(sites: Sites, uts: seq<UserTunnel>, j: Job)
    requires Reachable(sites, j) && j.t.kind == TUNNEL_FORWARD
  {
    Placed(sites[j.t.outNodeId].node, RelayConfigs(uts, j.f))
  }

  ghost predicate RelayFree(sites: Sites, uts: seq<UserTunnel>, j: Job)
    requires Reachable(sites, j) && j.t.kind == TUNNEL_FORWARD
  {
    && NoneThere(sites[j.t.outNodeId].node, RelayNames(uts, j))
    && NoneMisplaced(sites[j.t.outNodeId].node, RelayConfigs(uts, j.f))
  }

  function OwnChain(uts: seq<UserTunnel>, j: Job): string { ChainName(BaseName(uts, j.f)) }

  /** What a run makes of a forward's places: those that were right stay, those that were free are filled, and no other
      becomes right; a chain leads where it led, a new one to the relay. */
  ghost predicate PlacesDone(a: Sites, b: Sites, uts: seq<UserTunnel>, j: Job) {
    && Reachable(a, j) && Reachable(b, j)
    && (MainPlaced(b, uts, j) <==> MainPlaced(a, uts, j) || MainFree(a, uts, j))
    && (j.t.kind == TUNNEL_FORWARD ==>
          && (RelayPlaced(b, uts, j) <==> RelayPlaced(a, uts, j) || RelayFree(a, uts, j))
          && OwnChain(uts, j) in b[j.t.inNodeId].chains
          && b[j.t.inNodeId].chains[OwnChain(uts, j)]
             == if OwnChain(uts, j) in a[j.t.inNodeId].chains then a[j.t.inNodeId].chains[OwnChain(uts, j)]
                else ChainTarget(j))
  }

  /** Two sites have the same chain of that name on every node, or none. */
  ghost predicate ChainsAgree(a: Sites, b: Sites, c: string) {
    && a.Keys == b.Keys
    && forall id | id in a ::
         && (c in a[id].chains <==> c in b[id].chains)
         && (c in a[id].chains ==> b[id].chains[c] == a[id].chains[c])
  }

  ghost predicate PlacesAgree(a: Sites, b: Sites, uts: seq<UserTunnel>, j: Job) {
    AgreeOn(a, b, uts, j) && ChainsAgree(a, b, OwnChain(uts, j))
  }

  lemma PlacesFrame(a: Sites, a': Sites, b: Sites, b': Sites, uts: seq<UserTunnel>, j: Job)
    requires IsId(j.f.id) && PlacesAgree(a, a', uts, j) && PlacesAgree(b, b', uts, j) && PlacesDone(a', b, uts, j)
    ensures PlacesDone(a, b', uts, j)
  {
    hide AgreeOn, MainPlaced, MainFree, RelayPlaced, RelayFree, OwnChain;
    AgreeReachable(a, a', uts, j);
    AgreeReachable(b, b', uts, j);
    PlacesSame(a, a', uts, j);
    PlacesSame(b, b', uts, j);
  }

  lemma PlacesSame(a: Sites, b: Sites, uts: seq<UserTunnel>, j: Job)
    requires IsId(j.f.id) && AgreeOn(a, b, uts, j)
    ensures MainPlaced(a, uts, j) <==> MainPlaced(b, uts, j)
    ensures MainFree(a, uts, j) <==> MainFree(b, uts, j)
    ensures j.t.kind == TUNNEL_FORWARD ==> (RelayPlaced(a, uts, j) <==> RelayPlaced(b, uts, j))
    ensures j.t.kind == TUNNEL_FORWARD ==> (RelayFree(a, uts, j) <==> RelayFree(b, uts, j))
  {
    hide NameOf, SameAt, SamePlace, Placed, NoneMisplaced, NoneThere, MainNames, RelayNames, MainConfigs, RelayConfigs,
         Plain, NoDup, MainUpdates, RelayUpdates;
    MainNamesOf(uts, j);
    RelayNamesOf(uts, j);
    var s, s' := a[j.t.inNodeId].node, b[j.t.inNodeId].node;
    forall n | n in MainNames(uts, j) ensures SamePlace(s, s', n) { SameIsPlace(s, s', n); }
    PlacedFrame(s, s', MainConfigs(uts, j));
    if j.t.kind == TUNNEL_FORWARD {
      var r, r' := a[j.t.outNodeId].node, b[j.t.outNodeId].node;
      forall n | n in RelayNames(uts, j) ensures SamePlace(r, r', n) { SameIsPlace(r, r', n); }
      PlacedFrame(r, r', RelayConfigs(uts, j.f));
    }
  }

  // ---------------------------------------------------------------- pushing one forward

  lemma RelayPlaces(sites: Sites, uts: seq<UserTunnel>, j: Job, env: Env)
    requires IsId(j.f.id) && AllCovered(sites) && AllAnswered(env) && Reachable(sites, j) && j.t.kind == TUNNEL_FORWARD
    ensures var b := SyncRelay(sites, uts, j, env).0;
            && SyncRelay(sites, uts, j, env).1 && SameNodes(sites, b) && Reachable(b, j)
            && (forall n | n !in RelayNames(uts, j) :: SitesAgree(sites, b, n))
            && (RelayPlaced(b, uts, j) <==> RelayPlaced(sites, uts, j) || RelayFree(sites, uts, j))
            && OwnChain(uts, j) in b[j.t.inNodeId].chains
            && b[j.t.inNodeId].chains[OwnChain(uts, j)]
               == if OwnChain(uts, j) in sites[j.t.inNodeId].chains then sites[j.t.inNodeId].chains[OwnChain(uts, j)]
                  else ChainTarget(j)
  {
    hide Trim, WireOf, BaseName, NameOf, SyncGroup, RelayConfigs, RelayUpdates, MainNames, RelayNames, ChainName,
         SameAt, Placed, NoneMisplaced, NoneThere, AllRegistered, NoDup, Plain, PlainUpdates, Answered, ChainTarget,
         Idle, Covered, NoStale, PausedAt;
    RelayPushed(sites, uts, j, env);
    RelayNamesOf(uts, j);
    WireAnswered(env, j.f.id, Relay);
    var cs, updates, w := RelayConfigs(uts, j.f), RelayUpdates(uts, j.f), WireOf(env, j.f.id, Relay);
    var chained := ChainAt(sites, j.t.inNodeId, ChainName(BaseName(uts, j.f)), ChainTarget(j), Delivered).0;
    var s := chained[j.t.outNodeId].node;
    SyncPlaces(s, cs, updates, w);
    SyncRelayFrame(sites, uts, j, env);
  }

  lemma MainPlaces(sites: Sites, uts: seq<UserTunnel>, j: Job, env: Env)
    requires IsId(j.f.id) && AllAnswered(env) && Reachable(sites, j)
    ensures var b := SyncMain(sites, uts, j, env).0;
            && SameNodes(sites, b) && Reachable(b, j) && (forall n | n in RelayNames(uts, j) :: SitesAgree(sites, b, n))
            && (MainPlaced(b, uts, j) <==> MainPlaced(sites, uts, j) || MainFree(sites, uts, j))
            && forall c :: ChainsAgree(sites, b, c)
  {
    hide Trim, WireOf, BaseName, NameOf, SyncGroup, MainConfigs, MainUpdates, MainNames, RelayNames, SameAt, Placed,
         NoneMisplaced, NoneThere, NoDup, Plain, PlainUpdates, Answered;
    MainNamesOf(uts, j);
    UpdatesPlain(uts, j);
    NamesApart(uts, j);
    WireAnswered(env, j.f.id, Main);
    var cs, updates, w := MainConfigs(uts, j), MainUpdates(uts, j), WireOf(env, j.f.id, Main);
    SyncPlaces(sites[j.t.inNodeId].node, cs, updates, w);
    SyncAtFrame(sites, j.t.inNodeId, cs, updates, w);
  }

  lemma GentlePlaces(sites: Sites, uts: seq<UserTunnel>, j: Job, env: Env)
    requires IsId(j.f.id) && AllCovered(sites) && AllAnswered(env) && Reachable(sites, j)
    ensures PlacesDone(sites, GentleSync(sites, uts, j, env).0, uts, j)
  {
    hide BaseName, NameOf, MainNames, RelayNames, SameAt, OwnChain, SyncMain, SyncRelay, Placed, NoneMisplaced,
         NoneThere, MainConfigs, RelayConfigs, ChainTarget, AllCovered, AllAnswered, MainUpdates, RelayUpdates, NoDup,
         Plain, Covered;
    NamesApart(uts, j);
    MainNamesOf(uts, j);
    RelayNamesOf(uts, j);
    if j.t.kind == TUNNEL_FORWARD {
      var relayed := SyncRelay(sites, uts, j, env).0;
      RelayPlaces(sites, uts, j, env);
      SamePlaces(sites, relayed, j.t.inNodeId, MainConfigs(uts, j));
      MainPlaces(relayed, uts, j, env);
      var synced := SyncMain(relayed, uts, j, env).0;
      SamePlaces(relayed, synced, j.t.outNodeId, RelayConfigs(uts, j.f));
      assert ChainsAgree(relayed, synced, OwnChain(uts, j));
    } else {
      NoRelay(sites, uts, j, env);
      MainPlaces(sites, uts, j, env);
    }
  }

  lemma SamePlaces(a: Sites, b: Sites, id: int, cs: seq<ServiceConfig>)
    requires id in a && id in b && forall n | n in NamesOf(cs) :: SitesAgree(a, b, n)
    ensures Placed(a[id].node, cs) <==> Placed(b[id].node, cs)
    ensures NoneMisplaced(a[id].node, cs) <==> NoneMisplaced(b[id].node, cs)
    ensures NoneThere(a[id].node, NamesOf(cs)) <==> NoneThere(b[id].node, NamesOf(cs))
  {
    hide SameAt, SamePlace, Placed, NoneMisplaced, NoneThere;
    forall n | n in NamesOf(cs) ensures SamePlace(a[id].node, b[id].node, n) {
      SameIsPlace(a[id].node, b[id].node, n);
    }
    PlacedFrame(a[id].node, b[id].node, cs);
  }

  /** Pausing moves nothing. */
  lemma PauseAtPlaces(sites: Sites, id: int, names: seq<string>, d: Delivery)
    ensures var b := PauseAt(sites, id, names, d);
            && b.Keys == sites.Keys && (forall k, n | k in sites :: SamePlace(sites[k].node, b[k].node, n))
            && forall c :: ChainsAgree(sites, b, c)
  {
    hide SamePlace, Pause;
    SamePlaceReflexive();
    if id in sites {
      forall n ensures SamePlace(sites[id].node, Pause(sites[id].node, names).0, n) {
        PauseKeepsPlace(sites[id].node, names, n);
      }
    }
  }

  lemma SamePlaceTransitive(a: NodeState, b: NodeState, c: NodeState, n: string)
    requires SamePlace(a, b, n) && SamePlace(b, c, n)
    ensures SamePlace(a, c, n)
  {
    hide FirstEntry;
  }

  lemma PauseJobPlaces(sites: Sites, uts: seq<UserTunnel>, node: int, j: Job, env: Env)
    ensures var b := PauseJob(sites, uts, node, j, env);
            && b.Keys == sites.Keys && (forall k, n | k in sites :: SamePlace(sites[k].node, b[k].node, n))
            && forall c :: ChainsAgree(sites, b, c)
  {
    hide SamePlace, PauseAt, OperatedNames, BaseName, RelayName;
    var base, d, e := BaseName(uts, j.f), env.link(j.f.id, Main, PauseVerb), env.link(j.f.id, Relay, PauseVerb);
    SamePlaceReflexive();
    var main := PauseAt(sites, node, OperatedNames(base, j.f), d);
    PauseAtPlaces(sites, node, OperatedNames(base, j.f), d);
    PauseAtPlaces(sites, node, [RelayName(base)], e);
    PauseAtPlaces(main, node, [RelayName(base)], e);
    var both := PauseAt(main, node, [RelayName(base)], e);
    forall k, n | k in sites ensures SamePlace(sites[k].node, both[k].node, n) {
      SamePlaceTransitive(sites[k].node, main[k].node, both[k].node, n);
    }
    forall c ensures ChainsAgree(sites, both, c) {
      assert ChainsAgree(sites, main, c) && ChainsAgree(main, both, c);
    }
  }

  lemma SyncJobPlaces(sites: Sites, uts: seq<UserTunnel>, node: int, j: Job, env: Env)
    requires IsId(j.f.id) && AllCovered(sites) && AllAnswered(env) && Reachable(sites, j)
    ensures PlacesDone(sites, SyncJob(sites, uts, node, j, env), uts, j)
  {
    hide SamePlace, GentleSync, PauseJob, OwnChain, Placed, MainConfigs, RelayConfigs, MainFree, RelayFree, AllCovered,
         AllAnswered, ChainTarget;
    var mid := GentleSync(sites, uts, j, env).0;
    GentlePlaces(sites, uts, j, env);
    PauseJobPlaces(mid, uts, node, j, env);
    var b := PauseJob(mid, uts, node, j, env);
    assert ChainsAgree(mid, b, OwnChain(uts, j));
    PlacedFrame(mid[j.t.inNodeId].node, b[j.t.inNodeId].node, MainConfigs(uts, j));
    if j.t.kind == TUNNEL_FORWARD {
      PlacedFrame(mid[j.t.outNodeId].node, b[j.t.outNodeId].node, RelayConfigs(uts, j.f));
    }
  }

  // ---------------------------------------------------------------- the chains of the others

  lemma SyncAtChains(sites: Sites, id: int, cs: seq<ServiceConfig>, updates: seq<ForwarderUpdate>, w: Wire, c: string)
    ensures ChainsAgree(sites, SyncAt(sites, id, cs, updates, w).0, c)
  {
    hide SyncGroup;
  }

  lemma SyncJobChains(sites: Sites, uts: seq<UserTunnel>, node: int, j: Job, env: Env, c: string)
    requires c != OwnChain(uts, j)
    ensures ChainsAgree(sites, SyncJob(sites, uts, node, j, env), c)
  {
    hide BaseName, ChainName, SyncAt, PauseJob, WireOf, MainConfigs, RelayConfigs, MainUpdates, RelayUpdates,
         ChainTarget, SamePlace;
    var chained := ChainAt(sites, j.t.inNodeId, ChainName(BaseName(uts, j.f)), ChainTarget(j),
        env.link(j.f.id, Relay, ChainVerb)).0;
    var relayed, mid := SyncRelay(sites, uts, j, env).0, GentleSync(sites, uts, j, env).0;
    SyncAtChains(chained, j.t.outNodeId, RelayConfigs(uts, j.f), RelayUpdates(uts, j.f), WireOf(env, j.f.id, Relay), c);
    SyncAtChains(relayed, j.t.inNodeId, MainConfigs(uts, j), MainUpdates(uts, j), WireOf(env, j.f.id, Main), c);
    PauseJobPlaces(mid, uts, node, j, env);
    assert ChainsAgree(sites, chained, c);
    assert ChainsAgree(sites, relayed, c);
    assert ChainsAgree(relayed, mid, c);
    assert ChainsAgree(mid, SyncJob(sites, uts, node, j, env), c);
  }

  lemma OwnChainsApart(uts: seq<UserTunnel>, i: Job, j: Job)
    requires IsId(i.f.id) && IsId(j.f.id) && i.f.id != j.f.id
    ensures OwnChain(uts, i) != OwnChain(uts, j)
  {
    hide BaseName;
    var a, b := BaseName(uts, i.f), BaseName(uts, j.f);
    if ChainName(a) == ChainName(b) {
      SameBase(a, b);
      DistinctForwardsDistinctNames(uts, i.f, j.f, RelayName(a));
    }
  }

  lemma SameBase(a: string, b: string)
    requires ChainName(a) == ChainName(b)
    ensures a == b
  {
    assert ChainName(a)[..|a|] == a && ChainName(b)[..|b|] == b;
  }

  lemma {:induction false} SyncAllChains(sites: Sites, uts: seq<UserTunnel>, node: int, jobs: seq<Job>, j: Job,
      env: Env)
    requires (forall i | i in jobs :: IsId(i.f.id) && i.f.id != j.f.id) && IsId(j.f.id)
    ensures ChainsAgree(sites, SyncAll(sites, uts, node, jobs, env), OwnChain(uts, j))
  {
    hide SyncJob, OwnChain;
    if jobs != [] {
      var rest, last := jobs[..|jobs| - 1], jobs[|jobs| - 1];
      assert last in jobs;
      SyncAllChains(sites, uts, node, rest, j, env);
      OwnChainsApart(uts, last, j);
      SyncJobChains(SyncAll(sites, uts, node, rest, env), uts, node, last, env, OwnChain(uts, j));
    }
  }

  // ---------------------------------------------------------------- a whole run

  lemma {:induction false} SyncAllPlaces(sites: Sites, uts: seq<UserTunnel>, node: int, jobs: seq<Job>, env: Env)
    requires AllCovered(sites) && AllAnswered(env) && DistinctIds(jobs)
    requires forall j | j in jobs :: Reachable(sites, j)
    ensures forall j | j in jobs :: PlacesDone(sites, SyncAll(sites, uts, node, jobs, env), uts, j)
  {
    hide SyncJob, NameOf, SitesAgree, AllCovered, AllAnswered, AgreeOn, Reachable, PlacesDone, SameNodes, OwnChain,
         ChainsAgree;
    if jobs != [] {
      var last, rest := jobs[|jobs| - 1], jobs[..|jobs| - 1];
      var mid := SyncAll(sites, uts, node, rest, env);
      var b := SyncJob(mid, uts, node, last, env);
      assert last in jobs && forall j | j in rest :: j in jobs;
      SyncAllPlaces(sites, uts, node, rest, env);
      SyncAllFrame(sites, uts, node, rest, env);
      OthersAgree(sites, uts, node, rest, last, env);
      SyncAllChains(sites, uts, node, rest, last, env);
      AgreeReachable(sites, mid, uts, last);
      SyncJobPlaces(mid, uts, node, last, env);
      PlacesReachable(mid, b, uts, last);
      SelfPlaces(b, uts, last);
      PlacesFrame(sites, mid, b, b, uts, last);
      forall j | j in rest ensures PlacesDone(sites, b, uts, j) {
        PlacesReachable(sites, mid, uts, j);
        SelfPlaces(sites, uts, j);
        OneMoreAgrees(mid, uts, node, last, j, env);
        OwnChainsApart(uts, last, j);
        SyncJobChains(mid, uts, node, last, env, OwnChain(uts, j));
        PlacesFrame(sites, sites, mid, b, uts, j);
      }
    }
  }

  lemma PlacesReachable(a: Sites, b: Sites, uts: seq<UserTunnel>, j: Job)
    requires PlacesDone(a, b, uts, j)
    ensures Reachable(a, j) && Reachable(b, j)
  {
  }

  lemma SelfPlaces(sites: Sites, uts: seq<UserTunnel>, j: Job)
    requires Reachable(sites, j)
    ensures PlacesAgree(sites, sites, uts, j)
  {
    hide AgreeOn;
    SelfAgrees(sites, uts, j);
  }

  /** With every command answered, one run leaves the listeners, the relay and the chain of every forward of the node as
      PlacesDone says. */
  lemma RunPlaces(db: Db, sites: Sites, node: int, env: Env, j: Job)
    requires Reconcilable(db, sites, node) && AllAnswered(env) && j in Jobs(db, db.tunnels, node)
    ensures PlacesDone(sites, ReconcileNode(db, sites, node, env), db.userTunnels, j)
  {
    hide SyncAll, Jobs, LiveIds, CleanUp, NameOf, PlacesDone, AgreeOn, Covered, SameAt, Reachable, ChainsAgree,
         OwnChain;
    var uts, jobs := db.userTunnels, Jobs(db, db.tunnels, node);
    var synced, b := SyncAll(sites, uts, node, jobs, env), ReconcileNode(db, sites, node, env);
    JobsDistinct(db, db.tunnels, node);
    SyncAllPlaces(sites, uts, node, jobs, env);
    PlacesReachable(sites, synced, uts, j);
    JobIsLive(db, node, j);
    CleanAtAgrees(db, synced, node, j, env);
    CleanAtChains(db, synced, node, env, OwnChain(uts, j));
    SelfPlaces(sites, uts, j);
    PlacesFrame(sites, sites, synced, b, uts, j);
  }

  lemma CleanAtChains(db: Db, sites: Sites, node: int, env: Env, c: string)
    ensures ChainsAgree(sites, CleanAt(sites, db, node, env), c)
  {
    hide CleanUp, LiveIds;
  }
}
