/** The node's registry and configuration list as the process holds them, changed step by step
    by the batch commands (go-node/x/socket/service.go); NodeServices says what each amounts to. */
module NodeCommands {
  import opened Text
  import opened Names
  import opened NodeServices

  /** Unregistering what was registered anew restores the registry. */
  lemma TakenBack(registry: map<string, Instance>, cs: seq<ServiceConfig>)
    requires forall c | c in cs :: c.name !in registry
    ensures RegisterAll(registry, cs) - ToSet(NamesOf(cs)) == registry
  {
    hide RegisterAll;
    RegisterAllKeys(registry, cs);
    forall n | n in NamesOf(cs) ensures n !in registry {
      var i :| 0 <= i < |cs| && NamesOf(cs)[i] == n;
      assert cs[i] in cs;
    }
    forall n | n in registry ensures RegisterAll(registry, cs)[n] == registry[n] {
      RegisterAllValues(registry, cs, n);
    }
  }

  class Node {
    var registry: map<string, Instance>
    var services: seq<ServiceConfig>

    ghost function State(): NodeState reads this { NodeState(registry, services) }

    constructor ()
      ensures State() == NodeState(map[], [])
    {
      registry, services := map[], [];
    }

    method EditEntry(name: string, e: Edit)
      modifies this`services
      ensures services == EditFirst(old(services), name, e)
    {
      for i := 0 to |services|
        invariant services == old(services)
        invariant forall j :: 0 <= j < i ==> services[j].name != name
      {
        if services[i].name == name {
          assert Find(services, name) == i;
          services := services[i := Apply(e, services[i])];
          return;
        }
      }
    }

    /** Phase one of create: nothing is registered yet, so a failure leaves no trace. */
    method ParseNew(data: seq<ServiceConfig>, parses: nat -> bool) returns (parsed: seq<ServiceConfig>, reply: Reply)
      ensures reply == CheckNew(registry, NamesOf(Trimmed(data)), parses, 0)
      ensures reply == Ok ==> parsed == Trimmed(data)
    {
      hide Trim;
      ghost var cs := Trimmed(data);
      ghost var check := CheckNew(registry, NamesOf(cs), parses, 0);
      parsed := [];
      for i := 0 to |data|
        invariant parsed == cs[..i]
        invariant check == CheckNew(registry, NamesOf(cs), parses, i)
      {
        var name := Trim(data[i].name);
        assert NamesOf(cs)[i] == name;
        if name == "" {
          return parsed, NameRequired;
        }
        if name in registry {
          return parsed, AlreadyExists;
        }
        if !parses(i) {
          return parsed, Failed;
        }
        parsed := parsed + [data[i].(name := name)];
      }
      reply := Ok;
    }

    /** Phase two of create: a name met twice takes back what was registered before it. */
    method RegisterNew(cs: seq<ServiceConfig>) returns (ok: bool)
      requires forall c | c in cs :: c.name !in registry
      modifies this`registry
      ensures ok == NoDup(NamesOf(cs))
      ensures registry == if ok then RegisterAll(old(registry), cs) else old(registry)
    {
      hide Launch;
      for i := 0 to |cs|
        invariant registry == RegisterAll(old(registry), cs[..i])
        invariant registry.Keys == old(registry).Keys + ToSet(NamesOf(cs)[..i])
        invariant NoDup(NamesOf(cs)[..i])
      {
        var c := cs[i];
        if c.name in registry {
          ghost var j :| 0 <= j < i && NamesOf(cs)[j] == c.name;
          assert NamesOf(cs)[j] == NamesOf(cs)[i];
          Unregister(NamesOf(cs[..i]));
          TakenBack(old(registry), cs[..i]);
          return false;
        }
        registry := registry[c.name := Launch(c)];
        assert cs[..i + 1][..i] == cs[..i];
        assert NamesOf(cs)[..i + 1] == NamesOf(cs)[..i] + [c.name];
      }
      assert cs[..|cs|] == cs && NamesOf(cs)[..|cs|] == NamesOf(cs);
      ok := true;
    }

    method Create(data: seq<ServiceConfig>, parses: nat -> bool) returns (reply: Reply)
      modifies this
      ensures (State(), reply) == NodeServices.Create(old(State()), data, parses)
    {
      hide Trim, Trimmed, CheckNew;
      if |data| == 0 {
        return EmptyRequest;
      }
      var parsed;
      parsed, reply := ParseNew(data, parses);
      if reply != Ok {
        return;
      }
      assert forall i :: 0 <= i < |parsed| ==> parsed[i].name == NamesOf(parsed)[i];
      var ok := RegisterNew(parsed);
      if !ok {
        return AlreadyExists;
      }
      services := services + parsed;
    }

    method Unregister(names: seq<string>)
      modifies this`registry
      ensures registry == old(registry) - ToSet(names)
    {
      for i := 0 to |names|
        invariant registry == old(registry) - ToSet(names[..i])
      {
        assert names[..i + 1] == names[..i] + [names[i]];
        registry := registry - {names[i]};
      }
      assert names[..|names|] == names;
    }

    /** The retry loop around one ParseService of an update. */
    method Start(parses: (nat, nat) -> ParseOutcome, i: nat) returns (ok: bool)
      ensures ok == Starts(parses, i, 0)
    {
      var attempt := 0;
      ok := false;
      while attempt < 3
        invariant attempt <= 3 && !ok
        invariant Starts(parses, i, 0) == Starts(parses, i, attempt)
      {
        var outcome := parses(i, attempt);
        if outcome == Parsed {
          return true;
        }
        if outcome == ParseError {
          return false;
        }
        attempt := attempt + 1;
      }
    }

    /** Phase two of update: closes the old services to free their ports. */
    method CloseOld(data: seq<ServiceConfig>)
      requires NoDup(TrimAll(NamesOf(data)))
      requires forall n | n in TrimAll(NamesOf(data)) :: n in registry
      modifies this`registry
      ensures registry == old(registry) - ToSet(TrimAll(NamesOf(data)))
    {
      hide Trim;
      ghost var names := TrimAll(NamesOf(data));
      for i := 0 to |data|
        invariant registry == old(registry) - ToSet(names[..i])
      {
        assert names[i] == Trim(data[i].name) && names[i] in names;
        assert names[..i + 1] == names[..i] + [names[i]];
        registry := registry - {Trim(data[i].name)};
      }
      assert names[..|data|] == names;
    }

    /** Phase three of update: starts the new services until one does not come up. */
    method StartNew(data: seq<ServiceConfig>, parses: (nat, nat) -> ParseOutcome) returns (ok: bool)
      modifies this`registry
      ensures ok == (FirstFailure(parses, 0, |data|) == |data|)
      ensures registry == RegisterAll(old(registry), Trimmed(data)[..FirstFailure(parses, 0, |data|)])
    {
      hide Trim, Starts;
      ghost var cs := Trimmed(data);
      ghost var stop := FirstFailure(parses, 0, |data|);
      for i := 0 to |data|
        invariant registry == RegisterAll(old(registry), cs[..i])
        invariant stop == FirstFailure(parses, i, |data|)
      {
        var c := data[i].(name := Trim(data[i].name));
        ok := Start(parses, i);
        if !ok {
          return;
        }
        registry := registry[c.name := Launch(c)];
        assert cs[..i + 1][..i] == cs[..i] && cs[i] == c;
      }
      ok := true;
    }

    method ReplaceEntries(data: seq<ServiceConfig>)
      modifies this`services
      ensures services == ReplaceAll(old(services), data)
    {
      for i := 0 to |data|
        invariant services == ReplaceAll(old(services), data[..i])
      {
        assert data[..i + 1][..i] == data[..i];
        EditEntry(data[i].name, Replace(data[i]));
      }
      assert data[..|data|] == data;
    }

    method Update(data: seq<ServiceConfig>, parses: (nat, nat) -> ParseOutcome) returns (reply: Reply)
      requires NoDup(TrimAll(NamesOf(data)))
      modifies this
      ensures (State(), reply) == NodeServices.Update(old(State()), data, parses)
    {
      hide Trimmed, TrimAll, FirstFailure, CheckPresent, RegisterAll, ReplaceAll, NoDup;
      if |data| == 0 {
        return EmptyRequest;
      }
      var names;
      names, reply := CheckRegistered(NamesOf(data));
      if reply != Ok {
        return;
      }
      CloseOld(data);
      var ok := StartNew(data, parses);
      if !ok {
        return Failed;
      }
      ReplaceEntries(data);
    }

    method CheckRegistered(request: seq<string>) returns (names: seq<string>, reply: Reply)
      ensures reply == CheckPresent(registry, TrimAll(request), 0)
      ensures reply == Ok ==> names == TrimAll(request)
    {
      hide Trim;
      ghost var check := CheckPresent(registry, TrimAll(request), 0);
      names := [];
      for i := 0 to |request|
        invariant names == TrimAll(request)[..i]
        invariant check == CheckPresent(registry, TrimAll(request), i)
      {
        var name := Trim(request[i]);
        if name == "" {
          return names, NameRequired;
        }
        if name !in registry {
          return names, NotFound;
        }
        names := names + [name];
      }
      reply := Ok;
    }

    method Delete(request: seq<string>) returns (reply: Reply)
      modifies this
      ensures (State(), reply) == NodeServices.Delete(old(State()), request)
    {
      hide TrimAll, CheckPresent;
      if |request| == 0 {
        return EmptyRequest;
      }
      var names;
      names, reply := CheckRegistered(request);
      if reply != Ok {
        return;
      }
      Unregister(names);
      RemoveEntries(names);
    }

    method RemoveEntries(names: seq<string>)
      modifies this`services
      ensures services == Without(old(services), ToSet(names))
    {
      var all := services;
      services := [];
      for i := 0 to |all|
        invariant services == Without(all[..i], ToSet(names))
      {
        assert all[..i + 1][..i] == all[..i];
        var shouldDelete := false;
        for j := 0 to |names|
          invariant !shouldDelete && all[i].name !in names[..j]
        {
          if all[i].name == names[j] {
            shouldDelete := true;
            break;
          }
        }
        if !shouldDelete {
          services := services + [all[i]];
        }
      }
      assert all[..|all|] == all;
    }

    /** Closes the services one by one, up to the first without a configuration entry. */
    method CloseEach(names: seq<string>) returns (done: nat)
      requires forall n | n in names :: n in registry
      modifies this`registry
      ensures done == FirstUnconfigured(services, names)
      ensures registry == CloseAll(old(registry), names[..done])
    {
      ghost var stop := FirstUnconfigured(services, names);
      for i := 0 to |names|
        invariant registry == CloseAll(old(registry), names[..i]) && i <= stop
      {
        if !Configured(services, names[i]) {
          return i;
        }
        registry := registry[names[i] := registry[names[i]].(open := false)];
        assert names[..i + 1] == names[..i] + [names[i]];
      }
      done := |names|;
    }

    /** One without a configuration entry sends the pause through the rollback, which cannot re-register a name that is
        still taken. */
    method Pause(request: seq<string>, parses: nat -> bool) returns (reply: Reply)
      modifies this
      ensures (State(), reply) == NodeServices.Pause(old(State()), request)
    {
      hide Trim, TrimAll, Configured, FirstUnconfigured, CheckPresent;
      if |request| == 0 {
        return EmptyRequest;
      }
      var names;
      names, reply := CheckRegistered(request);
      if reply != Ok {
        return;
      }
      var done := CloseEach(names);
      if done < |names| {
        RollbackPaused(names[..done], parses);
        return Failed;
      }
      assert names[..|names|] == names;
      MarkEach(names, MarkPaused);
    }

    method MarkEach(names: seq<string>, e: Edit)
      modifies this`services
      ensures services == EditAll(old(services), names, e)
    {
      for i := 0 to |names|
        invariant services == EditAll(old(services), names[..i], e)
      {
        assert names[..i + 1][..i] == names[..i];
        EditEntry(names[i], e);
      }
      assert names[..|names|] == names;
    }

    /** Starts again, and unmarks, the named services that are not registered and can be started; a registered one stays
        closed, for its name is taken. So it changes nothing exactly when every startable one is registered, and a pause
        only ever sends it registered ones. */
    method RollbackPaused(names: seq<string>, parses: nat -> bool)
      requires forall n | n in names :: Configured(services, n)
      modifies this
      ensures NamesOf(services) == NamesOf(old(services))
      ensures registry.Keys == old(registry).Keys + Startable(names, parses, |names|)
      ensures forall n | n in old(registry) :: registry[n] == old(registry)[n]
      ensures registry == old(registry) && services == old(services)
              <==> forall i: nat :: i < |names| && parses(i) ==> names[i] in old(registry)
    {
      for i := 0 to |names|
        invariant NamesOf(services) == NamesOf(old(services)) && |services| == |old(services)|
        invariant registry.Keys == old(registry).Keys + Startable(names, parses, i)
        invariant forall n | n in old(registry) :: registry[n] == old(registry)[n]
        invariant Startable(names, parses, i) <= old(registry).Keys ==>
                    registry == old(registry) && services == old(services)
      {
        assert Startable(names, parses, i + 1) == Startable(names, parses, i) + if parses(i) then {names[i]} else {};
        if !parses(i) {
          continue;
        }
        if names[i] in registry {
          continue;
        }
        FindByNames(old(services), services, names[i]);
        assert Configured(old(services), names[i]);
        registry := registry[names[i] := Launch(services[Find(services, names[i])])];
        EditEntry(names[i], ClearPaused);
      }
    }

    /** Phase one of resume: the entries of the named services that are marked paused. */
    method FindPaused(request: seq<string>) returns (cs: seq<ServiceConfig>, reply: Reply)
      ensures reply == CheckResumable(State(), TrimAll(request), 0)
      ensures reply == Ok ==> cs == ToResume(services, TrimAll(request))
    {
      hide Trim;
      ghost var names := TrimAll(request);
      ghost var check := CheckResumable(State(), names, 0);
      cs := [];
      for i := 0 to |request|
        invariant cs == ToResume(services, names[..i])
        invariant check == CheckResumable(State(), names, i)
      {
        assert names[..i + 1][..i] == names[..i];
        var name := Trim(request[i]);
        assert names[i] == name;
        if name == "" {
          return cs, NameRequired;
        }
        if name !in registry {
          return cs, NotFound;
        }
        var at := Find(services, name);
        if at == |services| {
          return cs, Failed;
        }
        if Marked(services[at]) {
          cs := cs + [services[at]];
        }
      }
      assert names[..|request|] == names;
      reply := Ok;
    }

    method Resume(request: seq<string>, parses: nat -> bool) returns (reply: Reply)
      modifies this
      ensures (State(), reply) == NodeServices.Resume(old(State()), request, parses)
    {
      hide TrimAll, CheckResumable, ToResume;
      if |request| == 0 {
        return EmptyRequest;
      }
      var cs;
      cs, reply := FindPaused(request);
      if reply != Ok {
        return;
      }
      ghost var stop := FirstRefusal(parses, 0, |cs|);
      for i := 0 to |cs|
        invariant registry == RegisterAll(old(registry), cs[..i]) && services == old(services)
        invariant stop == FirstRefusal(parses, i, |cs|)
      {
        var c := cs[i];
        registry := registry - {c.name};
        if !parses(i) {
          RollbackResumed(NamesOf(cs[..i]));
          return Failed;
        }
        assert registry[c.name := Launch(c)] == RegisterAll(old(registry), cs[..i])[c.name := Launch(c)];
        registry := registry[c.name := Launch(c)];
        assert cs[..i + 1][..i] == cs[..i];
      }
      assert cs[..|cs|] == cs;
      MarkEach(NamesOf(cs), ClearPaused);
    }

    /** Closes what was restarted and marks it paused again, which it still is. */
    method RollbackResumed(names: seq<string>)
      requires forall n | n in names :: PausedIn(services, n)
      modifies this
      ensures registry == CloseAll(old(registry), names) && services == old(services)
    {
      for i := 0 to |names|
        invariant registry == CloseAll(old(registry), names[..i]) && services == old(services)
      {
        assert names[..i + 1] == names[..i] + [names[i]];
        if names[i] in registry {
          registry := registry[names[i] := registry[names[i]].(open := false)];
        }
        MarkAgain(services, names[i]);
        EditEntry(names[i], MarkPaused);
      }
      assert names[..|names|] == names;
    }

    /** The running handlers are switched one by one, up to the first update that is refused. */
    method SwitchTargets(updates: seq<ForwarderUpdate>, accepts: nat -> bool) returns (done: nat, reply: Reply)
      modifies this`registry
      ensures done == FirstRejected(old(registry), updates, accepts) <= |updates|
      ensures registry == SetTargets(old(registry), updates[..done])
      ensures reply == if done < |updates| then CheckForwarder(old(registry), updates[done], accepts(done)) else Ok
    {
      hide Trim, FirstRejected;
      for i := 0 to |updates|
        invariant registry == SetTargets(old(registry), updates[..i])
        invariant registry.Keys == old(registry).Keys
        invariant forall j :: 0 <= j < i ==> CheckForwarder(old(registry), updates[j], accepts(j)) == Ok
      {
        var u := updates[i];
        reply := CheckForwarder(registry, u, accepts(i));
        if reply != Ok {
          FirstRejectedIs(old(registry), updates, accepts, i);
          return i, reply;
        }
        registry := registry[Trim(u.name) := registry[Trim(u.name)].(forwarder := u.forwarder)];
        assert updates[..i + 1][..i] == updates[..i];
      }
      FirstRejectedIs(old(registry), updates, accepts, |updates|);
      return |updates|, Ok;
    }

    method SetEntryForwarders(updates: seq<ForwarderUpdate>)
      modifies this`services
      ensures services == SetForwarderAll(old(services), updates)
    {
      for i := 0 to |updates|
        invariant services == SetForwarderAll(old(services), updates[..i])
      {
        assert updates[..i + 1][..i] == updates[..i];
        EditEntry(updates[i].name, SetForwarder(updates[i].forwarder));
      }
      assert updates[..|updates|] == updates;
    }

    method UpdateForwarder(updates: seq<ForwarderUpdate>, accepts: nat -> bool) returns (reply: Reply)
      modifies this
      ensures (State(), reply) == NodeServices.UpdateForwarder(old(State()), updates, accepts)
    {
      hide FirstRejected, SetTargets, CheckForwarder, SetForwarderAll;
      if |updates| == 0 {
        return EmptyRequest;
      }
      var done;
      done, reply := SwitchTargets(updates, accepts);
      if done < |updates| {
        return;
      }
      assert updates[..done] == updates;
      SetEntryForwarders(updates);
    }
  }

  ghost function Startable(names: seq<string>, parses: nat -> bool, k: nat): set<string>
    requires k <= |names|
  {
    set i | 0 <= i < k && parses(i) :: names[i]
  }

  lemma FirstRejectedIs(registry: map<string, Instance>, updates: seq<ForwarderUpdate>, accepts: nat -> bool, i: nat)
    requires i <= |updates|
    requires forall j :: 0 <= j < i ==> CheckForwarder(registry, updates[j], accepts(j)) == Ok
    requires i < |updates| ==> CheckForwarder(registry, updates[i], accepts(i)) != Ok
    ensures FirstRejected(registry, updates, accepts) == i
  {
    hide CheckForwarder, FirstRefusal;
    var ok := (i: nat) => i < |updates| && CheckForwarder(registry, updates[i], accepts(i)) == Ok;
    var k := FirstRefusal(ok, 0, |updates|);
    assert k < |updates| ==> !ok(k);
    assert i < k ==> ok(i);
  }

  lemma MarkAgain(services: seq<ServiceConfig>, name: string)
    requires PausedIn(services, name)
    ensures EditFirst(services, name, MarkPaused) == services
  {
    var c := services[Find(services, name)];
    assert c.metadata["paused" := Flag(true)] == c.metadata;
  }
}
