/** What the node commands leave alone: every service whose name a command does not carry. */
module ReconcileFrames {
  import opened Text
  import opened Names
  import opened NodeServices

  function FirstEntry(services: seq<ServiceConfig>, n: string): Option<ServiceConfig> {
    if Configured(services, n) then Some(services[Find(services, n)]) else None
  }

  /** Two node states agree on one name: registration, running instance and configuration entry. */
  ghost predicate SameAt(s: NodeState, s': NodeState, n: string) {
    && (n in s.registry <==> n in s'.registry)
    && (n in s.registry ==> s.registry[n] == s'.registry[n])
    && FirstEntry(s.services, n) == FirstEntry(s'.services, n)
  }

  lemma FindInSameNames(a: seq<ServiceConfig>, b: seq<ServiceConfig>, n: string)
    requires |a| == |b| && forall i :: 0 <= i < |a| ==> a[i].name == b[i].name
    ensures Find(a, n) == Find(b, n)
  {
    assert NamesOf(a) == NamesOf(b);
    FindByNames(a, b, n);
  }

  lemma EditFirstFrame(services: seq<ServiceConfig>, m: string, e: Edit, n: string)
    requires n != m && !e.Replace?
    ensures FirstEntry(EditFirst(services, m, e), n) == FirstEntry(services, n)
  {
    FindInSameNames(services, EditFirst(services, m, e), n);
  }

  lemma {:induction false} EditAllFrame(services: seq<ServiceConfig>, names: seq<string>, e: Edit, n: string)
    requires n !in names && !e.Replace?
    ensures FirstEntry(EditAll(services, names, e), n) == FirstEntry(services, n)
  {
    if names != [] {
      EditAllFrame(services, names[..|names| - 1], e, n);
      EditFirstFrame(EditAll(services, names[..|names| - 1], e), names[|names| - 1], e, n);
    }
  }

  lemma {:induction false} SetForwarderFrame(services: seq<ServiceConfig>, updates: seq<ForwarderUpdate>, n: string)
    requires forall u | u in updates :: u.name != n
    ensures FirstEntry(SetForwarderAll(services, updates), n) == FirstEntry(services, n)
  {
    if updates != [] {
      var u := updates[|updates| - 1];
      SetForwarderFrame(services, updates[..|updates| - 1], n);
      EditFirstFrame(SetForwarderAll(services, updates[..|updates| - 1]), u.name, SetForwarder(u.forwarder), n);
    }
  }

  lemma {:induction false} SetTargetsFrame(registry: map<string, Instance>, updates: seq<ForwarderUpdate>, n: string)
    requires forall u | u in updates :: Trim(u.name) != n
    ensures n in SetTargets(registry, updates) <==> n in registry
    ensures n in registry ==> SetTargets(registry, updates)[n] == registry[n]
  {
    hide Trim;
    if updates != [] {
      SetTargetsFrame(registry, updates[..|updates| - 1], n);
    }
  }

  lemma AppendFrame(a: seq<ServiceConfig>, b: seq<ServiceConfig>, n: string)
    ensures Configured(a, n) ==> FirstEntry(a + b, n) == FirstEntry(a, n)
    ensures !Configured(a, n) ==> FirstEntry(a + b, n) == FirstEntry(b, n)
  {
    var i := Find(a + b, n);
    if Configured(a, n) {
      assert (a + b)[Find(a, n)].name == n;
      assert i < |a| ==> a[i].name == n;
    } else {
      assert i < |a + b| ==> i >= |a| && b[i - |a|].name == n;
      assert Configured(b, n) ==> (a + b)[|a| + Find(b, n)].name == n;
    }
  }

  lemma NotNamed(services: seq<ServiceConfig>, n: string)
    ensures Configured(services, n) <==> n in NamesOf(services)
  {
    if Configured(services, n) {
      assert NamesOf(services)[Find(services, n)] == n;
    }
  }

  lemma {:induction false} WithoutFrame(services: seq<ServiceConfig>, gone: set<string>, n: string)
    requires n !in gone
    ensures FirstEntry(Without(services, gone), n) == FirstEntry(services, n)
  {
    if services != [] {
      var c, rest := services[|services| - 1], services[..|services| - 1];
      WithoutFrame(rest, gone, n);
      assert services == rest + [c];
      AppendFrame(rest, [c], n);
      AppendFrame(Without(rest, gone), if c.name in gone then [] else [c], n);
    }
  }

  lemma CreateFrame(s: NodeState, cs: seq<ServiceConfig>, opens: nat -> bool, n: string)
    requires n !in TrimAll(NamesOf(cs))
    ensures SameAt(s, Create(s, cs, opens).0, n)
  {
    hide Trim;
    CreateEffect(s, cs, opens);
    RegisterAllValues(s.registry, Trimmed(cs), n);
    AppendFrame(s.services, Trimmed(cs), n);
    NotNamed(Trimmed(cs), n);
  }

  lemma UpdateForwarderFrame(s: NodeState, updates: seq<ForwarderUpdate>, accepts: nat -> bool, n: string)
    requires forall u | u in updates :: u.name != n && Trim(u.name) != n
    ensures SameAt(s, UpdateForwarder(s, updates, accepts).0, n)
  {
    hide Trim, FirstRejected;
    SetForwarderFrame(s.services, updates, n);
    SetTargetsFrame(s.registry, updates, n);
    var k := FirstRejected(s.registry, updates, accepts);
    if k < |updates| {
      SetTargetsFrame(s.registry, updates[..k], n);
    }
  }

  lemma PauseFrame(s: NodeState, request: seq<string>, n: string)
    requires n !in TrimAll(request)
    ensures SameAt(s, Pause(s, request).0, n)
  {
    hide Trim, TrimAll;
    EditAllFrame(s.services, TrimAll(request), MarkPaused, n);
  }

  // ---------------------------------------------------------------- two halves of agreement

  /** The name is registered in both or neither, as open, and its entry carries the same marks. */
  ghost predicate SamePause(s: NodeState, s': NodeState, n: string) {
    && (n in s.registry <==> n in s'.registry)
    && (n in s.registry ==> s.registry[n].open == s'.registry[n].open)
    && SameMarks(FirstEntry(s.services, n), FirstEntry(s'.services, n))
  }

  predicate SameMarks(a: Option<ServiceConfig>, b: Option<ServiceConfig>) {
    (a.Some? <==> b.Some?) && (a.Some? ==> a.value.metadata == b.value.metadata)
  }

  /** The name is registered in both or neither, and forwards to the same place. */
  ghost predicate SameTarget(s: NodeState, s': NodeState, n: string) {
    && (n in s.registry <==> n in s'.registry)
    && (n in s.registry ==> s.registry[n].forwarder == s'.registry[n].forwarder)
    && SameForwarder(FirstEntry(s.services, n), FirstEntry(s'.services, n))
  }

  predicate SameForwarder(a: Option<ServiceConfig>, b: Option<ServiceConfig>) {
    (a.Some? <==> b.Some?) && (a.Some? ==> a.value.forwarder == b.value.forwarder)
  }

  lemma SameAtBoth(s: NodeState, s': NodeState, n: string)
    requires SameAt(s, s', n)
    ensures SamePause(s, s', n) && SameTarget(s, s', n)
  {
  }

  lemma {:induction false} SetTargetsOpen(registry: map<string, Instance>, updates: seq<ForwarderUpdate>)
    ensures SetTargets(registry, updates).Keys == registry.Keys
    ensures forall n :: n in registry ==> SetTargets(registry, updates)[n].open == registry[n].open
  {
    hide Trim;
    if updates != [] {
      SetTargetsOpen(registry, updates[..|updates| - 1]);
    }
  }

  lemma EditFirstMarks(services: seq<ServiceConfig>, m: string, f: Option<Forwarder>, n: string)
    ensures SameMarks(FirstEntry(services, n), FirstEntry(EditFirst(services, m, SetForwarder(f)), n))
  {
    FindInSameNames(services, EditFirst(services, m, SetForwarder(f)), n);
  }

  lemma {:induction false} SetForwarderMarks(services: seq<ServiceConfig>, updates: seq<ForwarderUpdate>, n: string)
    ensures SameMarks(FirstEntry(services, n), FirstEntry(SetForwarderAll(services, updates), n))
  {
    hide FirstEntry, EditFirst;
    if updates != [] {
      var u := updates[|updates| - 1];
      SetForwarderMarks(services, updates[..|updates| - 1], n);
      EditFirstMarks(SetForwarderAll(services, updates[..|updates| - 1]), u.name, u.forwarder, n);
    }
  }

  /** A hot update pauses and resumes nothing. */
  lemma HotUpdateKeepsPause(s: NodeState, updates: seq<ForwarderUpdate>, accepts: nat -> bool, n: string)
    ensures SamePause(s, UpdateForwarder(s, updates, accepts).0, n)
  {
    hide FirstEntry, FirstRejected, SetTargets, SetForwarderAll;
    var k := FirstRejected(s.registry, updates, accepts);
    SetTargetsOpen(s.registry, updates);
    SetForwarderMarks(s.services, updates, n);
    if k < |updates| {
      SetTargetsOpen(s.registry, updates[..k]);
    }
  }

  /** A pause redirects nothing. */
  lemma PauseKeepsTarget(s: NodeState, request: seq<string>, n: string)
    ensures SameTarget(s, Pause(s, request).0, n)
  {
    hide Trim, TrimAll, EditAll;
    var s' := Pause(s, request).0;
    PauseEffect(s, request);
    FindByNames(s.services, s'.services, n);
    assert |s'.services| == |NamesOf(s'.services)| == |s.services|;
    if Configured(s.services, n) {
      EditAllAt(s.services, TrimAll(request), MarkPaused, Find(s.services, n));
    }
  }
}
