/** What one service group looks like after it is pushed, and when pushing it again changes nothing. */
module ReconcileGroups {
  import opened Text
  import opened Names
  import opened NodeServices
  import opened ReconcileFrames
  import opened Reconcile

  ghost predicate Plain(names: seq<string>) {
    forall n | n in names :: n != "" && Trim(n) == n
  }

  lemma TrimAllPlain(names: seq<string>)
    requires Plain(names)
    ensures TrimAll(names) == names
  {
    hide Trim;
  }

  ghost predicate Always(b: nat -> bool) { forall k :: b(k) }

  ghost predicate AllRegistered(s: NodeState, names: seq<string>) {
    forall n | n in names :: n in s.registry
  }

  ghost predicate NoneThere(s: NodeState, names: seq<string>) {
    forall n | n in names :: n !in s.registry
  }

  /** What is still configured under those names forwards to that target. */
  ghost predicate Unstale(s: NodeState, names: seq<string>, target: Option<Forwarder>) {
    forall n | n in names && FirstEntry(s.services, n).Some? :: FirstEntry(s.services, n).value.forwarder == target
  }

  /** What is still configured under the names of a hot update forwards where the update says. */
  ghost predicate NoStale(s: NodeState, updates: seq<ForwarderUpdate>) {
    forall u | u in updates && FirstEntry(s.services, u.name).Some? ::
      FirstEntry(s.services, u.name).value.forwarder == u.forwarder
  }

  ghost predicate OnTarget(s: NodeState, u: ForwarderUpdate) {
    && u.name in s.registry && s.registry[u.name].forwarder == u.forwarder
    && FirstEntry(s.services, u.name).Some? && FirstEntry(s.services, u.name).value.forwarder == u.forwarder
  }

  ghost predicate PlainUpdates(updates: seq<ForwarderUpdate>) {
    && (forall u | u in updates :: u.name != "" && Trim(u.name) == u.name && u.forwarder != None)
    && forall i, j :: 0 <= i < j < |updates| ==> updates[i].name != updates[j].name
  }

  /** A hot update gets to its i-th name: it stops at the first one that is not registered. */
  predicate Reached(s: NodeState, updates: seq<ForwarderUpdate>, i: nat)
    requires i < |updates|
  {
    forall h :: 0 <= h <= i ==> updates[h].name in s.registry
  }

  predicate AllThere(s: NodeState, updates: seq<ForwarderUpdate>) { forall u | u in updates :: u.name in s.registry }

  /** A hot update changes nothing: the services it gets to are on target, their entries too when it gets to all. */
  ghost predicate Idle(s: NodeState, updates: seq<ForwarderUpdate>) {
    && (forall i: nat :: i < |updates| && Reached(s, updates, i) ==>
          s.registry[updates[i].name].forwarder == updates[i].forwarder)
    && (AllThere(s, updates) ==> forall u | u in updates :: OnTarget(s, u))
  }

  /** The hot update names services of the group, with their own targets. */
  ghost predicate Own(cs: seq<ServiceConfig>, updates: seq<ForwarderUpdate>) {
    forall u | u in updates :: u.name in NamesOf(cs) && forall c | c in cs && c.name == u.name ::
        c.forwarder == u.forwarder
  }

  /** The hot update names exactly those services. */
  ghost predicate Exactly(updates: seq<ForwarderUpdate>, names: seq<string>) {
    (forall u | u in updates :: u.name in names) && forall n | n in names :: exists u :: u in updates && u.name == n
  }

  /** The hot update names no service of the group. */
  ghost predicate Foreign(names: seq<string>, updates: seq<ForwarderUpdate>) {
    forall u | u in updates :: u.name !in names
  }

  /** Every command is carried out and answered, every listener opens, every forwarder is accepted. */
  ghost predicate Answered(w: Wire) { w.add == Delivered && w.hot == Delivered && Always(w.opens) && Always(w.accepts) }

  /** The services forward to that target, running and configured. */
  ghost predicate Aimed(s: NodeState, names: seq<string>, target: Option<Forwarder>) {
    forall n | n in names :: n in s.registry && s.registry[n].forwarder == target
                             && FirstEntry(s.services, n).Some? && FirstEntry(s.services, n).value.forwarder == target
  }

  ghost predicate PausedAt(s: NodeState, names: seq<string>) {
    forall n | n in names ::
        n in s.registry && !s.registry[n].open && FirstEntry(s.services, n).Some?
            && Marked(FirstEntry(s.services, n).value)
  }

  /** A pause of those names changes nothing: it is refused, or they are paused. */
  ghost predicate PauseQuiet(s: NodeState, names: seq<string>) { AllRegistered(s, names) ==> PausedAt(s, names) }

  // ---------------------------------------------------------------- creating a group

  lemma EntryOfAppended(services: seq<ServiceConfig>, cs: seq<ServiceConfig>, n: string)
    requires n in NamesOf(cs)
    ensures FirstEntry(services, n).Some? ==> FirstEntry(services + cs, n) == FirstEntry(services, n)
    ensures FirstEntry(services, n) == None ==>
              FirstEntry(services + cs, n).Some? && FirstEntry(services + cs, n).value in cs
              && FirstEntry(services + cs, n).value.name == n
  {
    NotNamed(cs, n);
    AppendFrame(services, cs, n);
  }

  lemma TrimmedPlain(cs: seq<ServiceConfig>)
    requires Plain(NamesOf(cs))
    ensures Trimmed(cs) == cs
  {
    hide Trim;
    forall i | 0 <= i < |cs| ensures Trim(cs[i].name) == cs[i].name {
      assert NamesOf(cs)[i] == cs[i].name;
    }
  }

  /** An entry is where it was when there was one, and the configuration's own when there was none. */
  ghost predicate Entered(s: NodeState, s': NodeState, cs: seq<ServiceConfig>, n: string) {
    && FirstEntry(s'.services, n).Some?
    && (FirstEntry(s.services, n).Some? ==> FirstEntry(s'.services, n) == FirstEntry(s.services, n))
    && (FirstEntry(s.services, n) == None ==>
          FirstEntry(s'.services, n).value in cs && FirstEntry(s'.services, n).value.name == n)
  }

  /** It runs, on its configuration's target. */
  ghost predicate Launched(s': NodeState, cs: seq<ServiceConfig>, n: string) {
    && n in s'.registry && s'.registry[n].open
    && exists c :: c in cs && c.name == n && s'.registry[n].forwarder == c.forwarder
  }

  /** A group none of which was there is registered and runs. */
  lemma CreateRegisters(s: NodeState, cs: seq<ServiceConfig>, opens: nat -> bool)
    requires cs != [] && Plain(NamesOf(cs)) && NoDup(NamesOf(cs)) && Always(opens) && NoneThere(s, NamesOf(cs))
    ensures Create(s, cs, opens).1 == Ok
    ensures forall n | n in NamesOf(cs) ::
              Launched(Create(s, cs, opens).0, cs, n) && Entered(s, Create(s, cs, opens).0, cs, n)
  {
    hide Trim, Trimmed, RegisterAll, FirstEntry;
    TrimmedPlain(cs);
    forall n | n in NamesOf(cs) ensures Launched(Create(s, cs, opens).0, cs, n)
        && Entered(s, Create(s, cs, opens).0, cs, n) {
      RegisterAllValues(s.registry, cs, n);
      EntryOfAppended(s.services, cs, n);
    }
  }

  lemma {:induction false} CheckNewStops(registry: map<string, Instance>, names: seq<string>, parses: nat -> bool,
      i: nat)
    requires i <= |names| && Always(parses) && forall k :: 0 <= k < |names| ==> names[k] != ""
    ensures CheckNew(registry, names, parses, i) in {Ok, AlreadyExists}
    decreases |names| - i
  {
    if i < |names| {
      CheckNewStops(registry, names, parses, i + 1);
    }
  }

  /** A group some of which is there is refused, and told so when all its listeners could be opened. */
  lemma CreateRefused(s: NodeState, cs: seq<ServiceConfig>, opens: nat -> bool)
    requires cs != [] && Plain(NamesOf(cs)) && !NoneThere(s, NamesOf(cs))
    ensures Create(s, cs, opens).0 == s && Create(s, cs, opens).1 != Ok
    ensures Always(opens) ==> Create(s, cs, opens).1 == AlreadyExists
  {
    hide Trim, Trimmed, RegisterAll;
    TrimmedPlain(cs);
    var n :| n in NamesOf(cs) && n in s.registry;
    var k :| 0 <= k < |cs| && NamesOf(cs)[k] == n;
    assert forall i :: 0 <= i < |cs| ==> NamesOf(cs)[i] in NamesOf(cs);
    if Always(opens) {
      CheckNewStops(s.registry, NamesOf(cs), opens, 0);
    }
  }

  // ---------------------------------------------------------------- the hot update

  lemma {:induction false} SetTargetsAt(registry: map<string, Instance>, updates: seq<ForwarderUpdate>, i: nat)
    requires PlainUpdates(updates) && forall u | u in updates :: u.name in registry
    requires i < |updates|
    ensures updates[i].name in SetTargets(registry, updates)
              && SetTargets(registry, updates)[updates[i].name].forwarder == updates[i].forwarder
  {
    hide Trim;
    var rest := updates[..|updates| - 1];
    assert forall k :: 0 <= k < |rest| ==> rest[k] == updates[k];
    if i < |rest| {
      SetTargetsAt(registry, rest, i);
      assert updates[i].name != updates[|rest|].name;
    }
  }

  lemma EditFirstSets(services: seq<ServiceConfig>, u: ForwarderUpdate)
    requires Configured(services, u.name)
    ensures FirstEntry(EditFirst(services, u.name, SetForwarder(u.forwarder)), u.name).Some?
    ensures FirstEntry(EditFirst(services, u.name, SetForwarder(u.forwarder)), u.name).value.forwarder == u.forwarder
  {
    FindInSameNames(services, EditFirst(services, u.name, SetForwarder(u.forwarder)), u.name);
  }

  lemma {:induction false} SetForwarderAt(services: seq<ServiceConfig>, updates: seq<ForwarderUpdate>, i: nat)
    requires forall u | u in updates :: Configured(services, u.name)
    requires PlainUpdates(updates)
    requires i < |updates|
    ensures FirstEntry(SetForwarderAll(services, updates), updates[i].name).Some?
    ensures FirstEntry(SetForwarderAll(services, updates), updates[i].name).value.forwarder == updates[i].forwarder
  {
    hide EditFirst, FirstEntry, Configured, Trim;
    var rest, u := updates[..|updates| - 1], updates[|updates| - 1];
    var before := SetForwarderAll(services, rest);
    if i < |rest| {
      SetForwarderAt(services, rest, i);
      EditFirstFrame(before, u.name, SetForwarder(u.forwarder), updates[i].name);
    } else {
      SetForwarderAllNames(services, rest);
      SameConfigured(before, services, u.name);
      EditFirstSets(before, u);
    }
  }

  lemma SameConfigured(a: seq<ServiceConfig>, b: seq<ServiceConfig>, n: string)
    requires NamesOf(a) == NamesOf(b)
    ensures Configured(a, n) == Configured(b, n)
  {
    FindByNames(a, b, n);
    assert |a| == |NamesOf(a)| == |b|;
  }

  /** Where a hot update stops: at the first name that is not registered, if all it offers is accepted. */
  lemma StopsAt(s: NodeState, updates: seq<ForwarderUpdate>, accepts: nat -> bool)
    requires PlainUpdates(updates)
    ensures var k := FirstRejected(s.registry, updates, accepts);
            && k <= |updates| && (forall i: nat :: i < k ==> updates[i].name in s.registry && Reached(s, updates, i))
            && (Always(accepts) && k < |updates| ==> updates[k].name !in s.registry)
  {
    hide Trim, FirstRefusal;
    var ok := (i: nat) => i < |updates| && CheckForwarder(s.registry, updates[i], accepts(i)) == Ok;
    var k := FirstRefusal(ok, 0, |updates|);
    forall i: nat | i < k ensures updates[i].name in s.registry {
      assert updates[i] in updates;
      assert Trim(updates[i].name) == updates[i].name;
      assert ok(i);
      assert CheckForwarder(s.registry, updates[i], accepts(i)) == Ok;
    }
    assert k < |updates| ==> !ok(k) && updates[k] in updates;
  }

  lemma {:induction false} SetTargetsIdle(registry: map<string, Instance>, updates: seq<ForwarderUpdate>)
    requires forall u | u in updates ::
               Trim(u.name) == u.name && u.name in registry && registry[u.name].forwarder == u.forwarder
    ensures SetTargets(registry, updates) == registry
  {
    hide Trim;
    if updates != [] {
      SetTargetsIdle(registry, updates[..|updates| - 1]);
      assert updates[|updates| - 1] in updates;
    }
  }

  lemma {:induction false} SetForwarderIdle(services: seq<ServiceConfig>, updates: seq<ForwarderUpdate>)
    requires forall u | u in updates ::
               FirstEntry(services, u.name).Some? && FirstEntry(services, u.name).value.forwarder == u.forwarder
    ensures SetForwarderAll(services, updates) == services
  {
    if updates != [] {
      SetForwarderIdle(services, updates[..|updates| - 1]);
      assert updates[|updates| - 1] in updates;
    }
  }

  lemma HotUpdateIdle(s: NodeState, updates: seq<ForwarderUpdate>, accepts: nat -> bool)
    requires PlainUpdates(updates) && Idle(s, updates)
    ensures UpdateForwarder(s, updates, accepts).0 == s
  {
    hide Trim, FirstRejected, SetTargets, SetForwarderAll, FirstEntry;
    var k := FirstRejected(s.registry, updates, accepts);
    StopsAt(s, updates, accepts);
    forall u | u in updates[..k] ensures Trim(u.name) == u.name && u.name in s.registry
        && s.registry[u.name].forwarder == u.forwarder {
      var i :| 0 <= i < k && updates[i] == u;
      assert Reached(s, updates, i);
    }
    SetTargetsIdle(s.registry, updates[..k]);
    if k == |updates| {
      assert updates[..k] == updates;
      assert AllThere(s, updates);
      SetForwarderIdle(s.services, updates);
    }
  }

  lemma PrefixPlain(updates: seq<ForwarderUpdate>, k: nat)
    requires PlainUpdates(updates) && k <= |updates|
    ensures PlainUpdates(updates[..k])
  {
    hide Trim;
  }

  /** What an accepted hot update sets: the running services it gets to, and the entries when it gets to all. */
  lemma HotUpdateSets(s: NodeState, updates: seq<ForwarderUpdate>, accepts: nat -> bool)
    requires Covered(s) && PlainUpdates(updates) && Always(accepts)
    ensures var s' := UpdateForwarder(s, updates, accepts).0;
            && s'.registry.Keys == s.registry.Keys
            && (forall i: nat :: i < |updates| && Reached(s, updates, i) ==>
                  s'.registry[updates[i].name].forwarder == updates[i].forwarder)
            && (AllThere(s, updates) ==> forall u | u in updates :: OnTarget(s', u))
    ensures AllThere(s, updates) && updates != [] ==> UpdateForwarder(s, updates, accepts).1 == Ok
  {
    hide Trim, FirstRejected, SetTargets, SetForwarderAll;
    var k := FirstRejected(s.registry, updates, accepts);
    StopsAt(s, updates, accepts);
    UpdateForwarderEffect(s, updates, accepts);
    PrefixPlain(updates, k);
    assert forall u | u in updates[..k] :: u.name in s.registry;
    forall i: nat | i < |updates| && Reached(s, updates, i)
      ensures UpdateForwarder(s, updates, accepts).0.registry[updates[i].name].forwarder == updates[i].forwarder
    {
      assert i < k;
      SetTargetsAt(s.registry, updates[..k], i);
      assert k == |updates| ==> updates[..k] == updates;
    }
    if AllThere(s, updates) && updates != [] {
      assert forall i: nat :: i < |updates| ==> updates[i] in updates;
      AllSet(s, updates);
    }
  }

  lemma AllSet(s: NodeState, updates: seq<ForwarderUpdate>)
    requires Covered(s) && PlainUpdates(updates) && AllThere(s, updates)
    ensures forall u | u in updates ::
              OnTarget(NodeState(SetTargets(s.registry, updates), SetForwarderAll(s.services, updates)), u)
  {
    hide Trim, SetTargets, SetForwarderAll;
    forall u | u in updates ensures Configured(s.services, u.name) {
      NotNamed(s.services, u.name);
    }
    forall u | u in updates ensures OnTarget(NodeState(SetTargets(s.registry, updates),
        SetForwarderAll(s.services, updates)), u) {
      var i :| 0 <= i < |updates| && updates[i] == u;
      SetTargetsAt(s.registry, updates, i);
      SetForwarderAt(s.services, updates, i);
    }
  }

  /** An accepted hot update leaves nothing to do for the next. */
  lemma HotUpdateSettles(s: NodeState, updates: seq<ForwarderUpdate>, accepts: nat -> bool)
    requires Covered(s) && PlainUpdates(updates) && Always(accepts)
    ensures Idle(UpdateForwarder(s, updates, accepts).0, updates)
  {
    hide UpdateForwarder, OnTarget, Covered, PlainUpdates;
    HotUpdateSets(s, updates, accepts);
    var s' := UpdateForwarder(s, updates, accepts).0;
    assert forall i: nat :: i < |updates| && Reached(s', updates, i) ==> Reached(s, updates, i);
  }

  predicate Astray(s: NodeState, u: ForwarderUpdate) {
    u.name in s.registry && s.registry[u.name].forwarder != u.forwarder
  }

  /** And one that has something to do redirects a service. */
  lemma HotUpdateRedirects(s: NodeState, updates: seq<ForwarderUpdate>, accepts: nat -> bool) returns (n: string)
    requires Covered(s) && PlainUpdates(updates) && Always(accepts) && !Idle(s, updates)
    ensures (exists u :: u in updates && u.name == n) && !SameTarget(s, UpdateForwarder(s, updates, accepts).0, n)
  {
    hide UpdateForwarder, FirstEntry, Trim;
    HotUpdateSets(s, updates, accepts);
    var s' := UpdateForwarder(s, updates, accepts).0;
    if i: nat :| i < |updates| && Reached(s, updates, i) && Astray(s, updates[i]) {
      n := updates[i].name;
    } else {
      var u :| u in updates && !OnTarget(s, u);
      n := u.name;
      EntryThere(s, n);
    }
  }

  lemma EntryThere(s: NodeState, n: string)
    requires Covered(s) && n in s.registry
    ensures FirstEntry(s.services, n).Some?
  {
    hide Trim;
    NotNamed(s.services, n);
  }

  // ---------------------------------------------------------------- pushing a group

  /** With every command answered, a group is registered after a push if and only if all of it was before or none of
      it was; a group some of which was there gets the hot update. */
  lemma SyncRegisters(s: NodeState, cs: seq<ServiceConfig>, updates: seq<ForwarderUpdate>, w: Wire)
    requires cs != [] && Plain(NamesOf(cs)) && NoDup(NamesOf(cs)) && Answered(w)
    ensures AllRegistered(SyncGroup(s, cs, updates, w).0, NamesOf(cs)) <==>
            AllRegistered(s, NamesOf(cs)) || NoneThere(s, NamesOf(cs))
    ensures !NoneThere(SyncGroup(s, cs, updates, w).0, NamesOf(cs))
    ensures NoneThere(s, NamesOf(cs)) ==> SyncGroup(s, cs, updates, w) == (Create(s, cs, w.opens).0, true)
    ensures !NoneThere(s, NamesOf(cs)) && updates == [] ==> SyncGroup(s, cs, updates, w) == (s, true)
    ensures !NoneThere(s, NamesOf(cs)) && updates != [] ==>
              SyncGroup(s, cs, updates, w)
              == (UpdateForwarder(s, updates, w.accepts).0, UpdateForwarder(s, updates, w.accepts).1 == Ok)
  {
    hide Create, UpdateForwarder, Trim;
    assert NamesOf(cs)[0] in NamesOf(cs);
    if NoneThere(s, NamesOf(cs)) {
      CreateRegisters(s, cs, w.opens);
    } else {
      CreateRefused(s, cs, w.opens);
      UpdateForwarderEffect(s, updates, w.accepts);
    }
  }

  /** Whatever is answered, a push of a group some of which is there registers and unregisters nothing. */
  lemma PartKeepsKeys(s: NodeState, cs: seq<ServiceConfig>, updates: seq<ForwarderUpdate>, w: Wire)
    requires cs != [] && Plain(NamesOf(cs)) && !NoneThere(s, NamesOf(cs))
    ensures SyncGroup(s, cs, updates, w).0.registry.Keys == s.registry.Keys
  {
    hide Create, UpdateForwarder, Trim;
    CreateRefused(s, cs, w.opens);
    UpdateForwarderEffect(s, updates, w.accepts);
  }

  lemma PausedFrame(s: NodeState, s': NodeState, names: seq<string>)
    requires forall n | n in names :: SamePause(s, s', n)
    ensures PausedAt(s, names) <==> PausedAt(s', names)
    ensures AllRegistered(s, names) <==> AllRegistered(s', names)
  {
    hide FirstEntry;
  }

  /** A push pauses nothing and resumes nothing. */
  lemma SyncKeepsPause(s: NodeState, cs: seq<ServiceConfig>, updates: seq<ForwarderUpdate>, w: Wire)
    requires cs != [] && Plain(NamesOf(cs)) && NoDup(NamesOf(cs)) && Answered(w)
    ensures PausedAt(SyncGroup(s, cs, updates, w).0, NamesOf(cs)) <==> PausedAt(s, NamesOf(cs))
  {
    hide Create, UpdateForwarder, Trim, FirstEntry, SyncGroup, Entered, Plain, NoDup;
    SyncRegisters(s, cs, updates, w);
    var n := NamesOf(cs)[0];
    assert n in NamesOf(cs);
    if NoneThere(s, NamesOf(cs)) {
      CreateRegisters(s, cs, w.opens);
    } else if updates != [] {
      forall m | m in NamesOf(cs) ensures SamePause(s, UpdateForwarder(s, updates, w.accepts).0, m) {
        HotUpdateKeepsPause(s, updates, w.accepts, m);
      }
      PausedFrame(s, UpdateForwarder(s, updates, w.accepts).0, NamesOf(cs));
    }
  }

  /** Pushing a group whose hot update is its own leaves nothing to do if and only if some of it was there, or nothing
      that is still configured forwards elsewhere: an old entry stays in front of the one that is added. */
  lemma SyncOwn(s: NodeState, cs: seq<ServiceConfig>, updates: seq<ForwarderUpdate>, w: Wire)
    requires cs != [] && Plain(NamesOf(cs)) && NoDup(NamesOf(cs)) && Answered(w) && Covered(s)
    requires PlainUpdates(updates) && Own(cs, updates)
    ensures Idle(SyncGroup(s, cs, updates, w).0, updates) <==> !NoneThere(s, NamesOf(cs)) || NoStale(s, updates)
    ensures AllRegistered(s, NamesOf(cs)) || NoneThere(s, NamesOf(cs)) ==> SyncGroup(s, cs, updates, w).1
  {
    hide Create, UpdateForwarder, Trim, SyncGroup, Covered, Plain, NoDup, Idle, NoStale;
    SyncRegisters(s, cs, updates, w);
    if NoneThere(s, NamesOf(cs)) {
      CreateOwn(s, cs, updates, w.opens);
    } else if updates != [] {
      HotUpdateSettles(s, updates, w.accepts);
      HotUpdateSets(s, updates, w.accepts);
    } else {
      NothingIdle(s);
    }
  }

  lemma CreateOwn(s: NodeState, cs: seq<ServiceConfig>, updates: seq<ForwarderUpdate>, opens: nat -> bool)
    requires cs != [] && Plain(NamesOf(cs)) && NoDup(NamesOf(cs)) && Always(opens) && NoneThere(s, NamesOf(cs))
    requires Own(cs, updates)
    ensures Idle(Create(s, cs, opens).0, updates) <==> NoStale(s, updates)
  {
    hide Create, Trim, FirstEntry, Plain, NoDup;
    CreateRegisters(s, cs, opens);
    var s' := Create(s, cs, opens).0;
    forall u | u in updates
      ensures u.name in s'.registry && s'.registry[u.name].forwarder == u.forwarder
      ensures OnTarget(s', u) <==>
              (FirstEntry(s.services, u.name).Some? ==> FirstEntry(s.services, u.name).value.forwarder == u.forwarder)
    {
      assert u.name in NamesOf(cs) && Launched(s', cs, u.name) && Entered(s, s', cs, u.name);
    }
    forall i: nat | i < |updates| ensures s'.registry[updates[i].name].forwarder == updates[i].forwarder {
      assert updates[i] in updates;
    }
  }

  /** Pushing a group whose hot update is another's leaves nothing to do if and only if some of it was there, so that
      the hot update was sent, or the hot update had nothing to do. */
  lemma SyncForeign(s: NodeState, cs: seq<ServiceConfig>, updates: seq<ForwarderUpdate>, w: Wire)
    requires cs != [] && Plain(NamesOf(cs)) && NoDup(NamesOf(cs)) && Answered(w) && Covered(s)
    requires PlainUpdates(updates) && Foreign(NamesOf(cs), updates)
    ensures Idle(SyncGroup(s, cs, updates, w).0, updates) <==> !NoneThere(s, NamesOf(cs)) || Idle(s, updates)
  {
    hide Create, UpdateForwarder, Trim, SyncGroup, Covered, Plain, NoDup, Idle, SameAt;
    SyncRegisters(s, cs, updates, w);
    if NoneThere(s, NamesOf(cs)) {
      TrimAllPlain(NamesOf(cs));
      forall u | u in updates ensures SameAt(s, Create(s, cs, w.opens).0, u.name) {
        CreateFrame(s, cs, w.opens, u.name);
      }
      IdleFrame(s, Create(s, cs, w.opens).0, updates);
    } else if updates != [] {
      HotUpdateSettles(s, updates, w.accepts);
    } else {
      NothingIdle(s);
    }
  }

  lemma NothingIdle(s: NodeState)
    ensures Idle(s, [])
  {
  }

  lemma IdleFrame(s: NodeState, s': NodeState, updates: seq<ForwarderUpdate>)
    requires forall u | u in updates :: SameTarget(s, s', u.name) || SameAt(s, s', u.name)
    ensures Idle(s, updates) <==> Idle(s', updates)
    ensures AllThere(s, updates) <==> AllThere(s', updates)
    ensures NoStale(s, updates) <==> NoStale(s', updates)
  {
    hide FirstEntry;
    forall u | u in updates ensures SameTarget(s, s', u.name) {
      if SameAt(s, s', u.name) { SameAtBoth(s, s', u.name); }
    }
    assert forall i: nat :: i < |updates| ==> updates[i] in updates;
    forall i: nat | i < |updates| ensures Reached(s, updates, i) <==> Reached(s', updates, i) {
    }
    forall u | u in updates ensures OnTarget(s, u) <==> OnTarget(s', u) {
      assert SameTarget(s, s', u.name);
    }
  }

  /** A service that the hot update does not name stays as it is, whatever happens, when some of its group is there. */
  lemma ForeignUntouched(s: NodeState, cs: seq<ServiceConfig>, updates: seq<ForwarderUpdate>, w: Wire, n: string)
    requires cs != [] && Plain(NamesOf(cs)) && !NoneThere(s, NamesOf(cs)) && PlainUpdates(updates)
    requires forall u | u in updates :: u.name != n
    ensures SameAt(s, SyncGroup(s, cs, updates, w).0, n)
  {
    hide Create, UpdateForwarder, Trim, FirstEntry;
    CreateRefused(s, cs, w.opens);
    UpdateForwarderFrame(s, updates, w.accepts, n);
  }

  /** When a group forwards to the target after a push: a new one, unless an old entry of it forwards elsewhere; one
      that was there, if its hot update names it or it did before; one that was there in part, never. */
  lemma SyncAims(s: NodeState, cs: seq<ServiceConfig>, updates: seq<ForwarderUpdate>, w: Wire,
      target: Option<Forwarder>)
    requires cs != [] && Plain(NamesOf(cs)) && NoDup(NamesOf(cs)) && Answered(w) && Covered(s)
    requires PlainUpdates(updates) && forall u | u in updates :: u.forwarder == target
    requires (forall c | c in cs :: c.forwarder == target)
               && (Foreign(NamesOf(cs), updates) || Exactly(updates, NamesOf(cs)))
    ensures Aimed(SyncGroup(s, cs, updates, w).0, NamesOf(cs), target) <==>
              || (NoneThere(s, NamesOf(cs)) && Unstale(s, NamesOf(cs), target))
              || (AllRegistered(s, NamesOf(cs)) && (!Foreign(NamesOf(cs), updates) || Aimed(s, NamesOf(cs), target)))
  {
    hide Create, UpdateForwarder, Trim, FirstEntry, SyncGroup, NoDup, Plain, Covered, PlainUpdates, SameAt;
    SyncRegisters(s, cs, updates, w);
    var s' := SyncGroup(s, cs, updates, w).0;
    assert NamesOf(cs)[0] in NamesOf(cs);
    if NoneThere(s, NamesOf(cs)) {
      CreateAims(s, cs, w.opens, target);
    } else if !AllRegistered(s, NamesOf(cs)) {
      var n :| n in NamesOf(cs) && n !in s'.registry;
    } else if Foreign(NamesOf(cs), updates) {
      forall n | n in NamesOf(cs) ensures SameTarget(s, s', n) {
        ForeignUntouched(s, cs, updates, w, n);
        SameAtBoth(s, s', n);
      }
      AimedFrame(s, s', NamesOf(cs), target);
    } else {
      SyncOnto(s, cs, updates, w, target);
    }
  }

  lemma CreateAims(s: NodeState, cs: seq<ServiceConfig>, opens: nat -> bool, target: Option<Forwarder>)
    requires cs != [] && Plain(NamesOf(cs)) && NoDup(NamesOf(cs)) && Always(opens) && NoneThere(s, NamesOf(cs))
    requires forall c | c in cs :: c.forwarder == target
    ensures Aimed(Create(s, cs, opens).0, NamesOf(cs), target) <==> Unstale(s, NamesOf(cs), target)
  {
    hide Create, Trim, FirstEntry, NoDup, Plain;
    CreateRegisters(s, cs, opens);
    var s' := Create(s, cs, opens).0;
    forall n | n in NamesOf(cs)
      ensures n in s'.registry && s'.registry[n].forwarder == target && FirstEntry(s'.services, n).Some?
      ensures FirstEntry(s'.services, n).value.forwarder == target <==>
              (FirstEntry(s.services, n).Some? ==> FirstEntry(s.services, n).value.forwarder == target)
    {
      assert Launched(s', cs, n) && Entered(s, s', cs, n);
    }
  }

  lemma AimedFrame(s: NodeState, s': NodeState, names: seq<string>, target: Option<Forwarder>)
    requires forall n | n in names :: SameTarget(s, s', n)
    ensures Aimed(s, names, target) <==> Aimed(s', names, target)
    ensures AllRegistered(s, names) <==> AllRegistered(s', names)
    ensures NoneThere(s, names) <==> NoneThere(s', names)
    ensures Unstale(s, names, target) <==> Unstale(s', names, target)
  {
    hide FirstEntry;
  }

  lemma SyncOnto(s: NodeState, cs: seq<ServiceConfig>, updates: seq<ForwarderUpdate>, w: Wire,
      target: Option<Forwarder>)
    requires Plain(NamesOf(cs)) && NoDup(NamesOf(cs)) && Answered(w) && Covered(s) && cs != []
               && AllRegistered(s, NamesOf(cs))
    requires PlainUpdates(updates) && forall u | u in updates :: u.forwarder == target
    requires Exactly(updates, NamesOf(cs)) && updates != []
    ensures Aimed(SyncGroup(s, cs, updates, w).0, NamesOf(cs), target)
  {
    hide Create, UpdateForwarder, Trim, SyncGroup, NoDup, FirstEntry;
    SyncRegisters(s, cs, updates, w);
    assert NamesOf(cs)[0] in NamesOf(cs);
    assert AllThere(s, updates) && updates != [];
    HotUpdateSets(s, updates, w.accepts);
    var s' := SyncGroup(s, cs, updates, w).0;
    forall n | n in NamesOf(cs)
      ensures n in s'.registry && s'.registry[n].forwarder == target && FirstEntry(s'.services, n).Some?
                && FirstEntry(s'.services, n).value.forwarder == target
    {
      var u :| u in updates && u.name == n;
      assert OnTarget(s', u);
    }
  }

  /** Pushing a group again some of which is there and whose hot update has nothing to do changes nothing, whatever
      fails. */
  lemma SyncIdle(s: NodeState, cs: seq<ServiceConfig>, updates: seq<ForwarderUpdate>, w: Wire)
    requires cs != [] && Plain(NamesOf(cs)) && PlainUpdates(updates) && !NoneThere(s, NamesOf(cs)) && Idle(s, updates)
    ensures SyncGroup(s, cs, updates, w).0 == s
  {
    hide Trim, Create, UpdateForwarder, Idle, PlainUpdates;
    CreateRefused(s, cs, w.opens);
    HotUpdateIdle(s, updates, w.accepts);
  }

  // ---------------------------------------------------------------- pausing

  lemma PausePauses(s: NodeState, names: seq<string>)
    requires names != [] && Plain(names) && Covered(s) && AllRegistered(s, names)
    ensures PausedAt(Pause(s, names).0, names)
  {
    hide Trim, TrimAll, EditAll;
    TrimAllPlain(names);
    forall i | 0 <= i < |names| ensures Configured(s.services, names[i]) {
      NotNamed(s.services, names[i]);
    }
    assert forall i :: 0 <= i < |names| ==> names[i] in names;
    assert Pause(s, names).1 == Ok;
    PausedAfterPause(s, names);
  }

  /** After a pause that arrives, the names are paused, or were not all there. */
  lemma PauseQuiets(s: NodeState, names: seq<string>)
    requires names != [] && Plain(names) && Covered(s)
    ensures PauseQuiet(Pause(s, names).0, names)
  {
    hide Pause, Plain, Covered, PausedAt;
    PauseEffect(s, names);
    if AllRegistered(s, names) {
      PausePauses(s, names);
    }
  }

  lemma {:induction false} MarkIdle(services: seq<ServiceConfig>, names: seq<string>)
    requires forall n | n in names :: PausedIn(services, n)
    ensures EditAll(services, names, MarkPaused) == services
  {
    if names != [] {
      var n := names[|names| - 1];
      MarkIdle(services, names[..|names| - 1]);
      assert n in names;
      var c := services[Find(services, n)];
      assert c.metadata["paused" := Flag(true)] == c.metadata;
    }
  }

  lemma PauseIdle(s: NodeState, names: seq<string>)
    requires Plain(names) && PauseQuiet(s, names)
    ensures Pause(s, names).0 == s
  {
    hide Trim, TrimAll, EditAll;
    TrimAllPlain(names);
    assert forall i :: 0 <= i < |names| ==> names[i] in names;
    if AllRegistered(s, names) {
      MarkIdle(s.services, names);
      assert CloseAll(s.registry, names) == s.registry;
      var k := FirstUnconfigured(s.services, names);
      assert k == |names|;
    } else {
      var n :| n in names && n !in s.registry;
      var i :| 0 <= i < |names| && names[i] == n;
      assert CheckPresent(s.registry, names, 0) != Ok;
    }
  }
}
