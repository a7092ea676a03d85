/** What each batch command leaves in the registry and in the configuration list, entry by entry, and when it answers
    what (go-node/x/socket/service.go). */
module NodeEffects {
  import opened Text
  import opened Names
  import opened NodeServices
  import opened Filters

  /** Entry i is the first one of that name. */
  ghost predicate FirstOf(services: seq<ServiceConfig>, i: nat, name: string) {
    i < |services| && services[i].name == name && forall j :: 0 <= j < i ==> services[j].name != name
  }

  /** Entry i is not the first one of a name in the list. */
  ghost predicate Unnamed(services: seq<ServiceConfig>, i: nat, data: seq<ServiceConfig>) {
    forall j :: 0 <= j < |data| ==> !FirstOf(services, i, data[j].name)
  }

  lemma FindsFirst(services: seq<ServiceConfig>, i: nat, name: string)
    ensures FirstOf(services, i, name) <==> i < |services| && Find(services, name) == i
  {
    var k := Find(services, name);
  }

  /** The service runs that configuration. */
  predicate Runs(registry: map<string, Instance>, name: string, c: ServiceConfig) {
    name in registry && registry[name] == Instance(true, c.addr, c.chain, c.forwarder)
  }

  lemma RegisteredRuns(registry: map<string, Instance>, cs: seq<ServiceConfig>, j: nat)
    requires NoDup(NamesOf(cs)) && j < |cs|
    ensures Runs(RegisterAll(registry, cs), cs[j].name, cs[j])
  {
    hide RegisterAll;
    assert NamesOf(cs)[j] == cs[j].name;
    RegisterAllValues(registry, cs, cs[j].name);
    var c :| c in cs && c.name == cs[j].name && RegisterAll(registry, cs)[cs[j].name] == Launch(c);
    var i :| 0 <= i < |cs| && cs[i] == c;
    assert NamesOf(cs)[i] == NamesOf(cs)[j];
  }

  lemma PrefixNoDup(cs: seq<ServiceConfig>, k: nat)
    requires NoDup(NamesOf(cs)) && k <= |cs|
    ensures NoDup(NamesOf(cs[..k])) && NamesOf(cs[..k]) == NamesOf(cs)[..k]
  {
    assert NamesOf(cs[..k]) == NamesOf(cs)[..k];
  }

  // ---------------------------------------------------------------- creating

  /** The create can go on with its i-th service. */
  predicate Creatable(s: NodeState, data: seq<ServiceConfig>, parses: nat -> bool, i: nat)
    requires i < |data|
  {
    Trim(data[i].name) != "" && Trim(data[i].name) !in s.registry && parses(i)
  }

  /** A create succeeds if and only if it names at least one service, all names are given, new and different, and all
      services can be opened. */
  lemma CreateAnswers(s: NodeState, data: seq<ServiceConfig>, parses: nat -> bool)
    ensures Create(s, data, parses).1 == Ok <==>
              && data != [] && (forall i: nat | i < |data| :: Creatable(s, data, parses, i))
              && forall i, j :: 0 <= i < j < |data| ==> Trim(data[i].name) != Trim(data[j].name)
    ensures Create(s, data, parses).1 == EmptyRequest <==> data == []
  {
    hide Trim, RegisterAll, CheckNew;
    var names := NamesOf(Trimmed(data));
    forall i: nat | i < |data|
      ensures names[i] == Trim(data[i].name)
      ensures Creatable(s, data, parses, i) <==> names[i] != "" && names[i] !in s.registry && parses(i) {
    }
    assert NoDup(names) <==> forall i, j :: 0 <= i < j < |data| ==> Trim(data[i].name) != Trim(data[j].name);
    NewIffCreatable(s, data, parses, names);
  }

  lemma NewIffCreatable(s: NodeState, data: seq<ServiceConfig>, parses: nat -> bool, names: seq<string>)
    requires |names| == |data|
    requires forall i: nat | i < |data| ::
               Creatable(s, data, parses, i) <==> names[i] != "" && names[i] !in s.registry && parses(i)
    ensures CheckNew(s.registry, names, parses, 0) == Ok <==>
              forall i: nat | i < |data| :: Creatable(s, data, parses, i)
    ensures CheckNew(s.registry, names, parses, 0) != EmptyRequest
  {
    hide Creatable, CheckNew;
    assert CheckNew(s.registry, names, parses, 0) in {Ok, NameRequired, AlreadyExists, Failed};
  }

  /** Then the services run as sent, under their trimmed names, and their entries are appended in order; nothing else
      changes. */
  lemma CreateWrites(s: NodeState, data: seq<ServiceConfig>, parses: nat -> bool)
    requires Create(s, data, parses).1 == Ok
    ensures var (s', _) := Create(s, data, parses);
            && |s'.services| == |s.services| + |data|
            && (forall i :: 0 <= i < |s.services| ==> s'.services[i] == s.services[i])
            && (forall i :: 0 <= i < |data| ==>
                  s'.services[|s.services| + i] == data[i].(name := Trim(data[i].name)))
            && (forall i :: 0 <= i < |data| ==> Runs(s'.registry, Trim(data[i].name), data[i]))
            && (forall n | n in s.registry :: n in s'.registry && s'.registry[n] == s.registry[n])
  {
    hide Trim, RegisterAll, CheckNew;
    var cs := Trimmed(data);
    forall i | 0 <= i < |data| ensures Runs(RegisterAll(s.registry, cs), Trim(data[i].name), data[i]) {
      RegisteredRuns(s.registry, cs, i);
    }
    forall n | n in s.registry
      ensures n in RegisterAll(s.registry, cs) && RegisterAll(s.registry, cs)[n] == s.registry[n] {
      CreateEffect(s, data, parses);
      RegisterAllValues(s.registry, cs, n);
    }
  }

  // ---------------------------------------------------------------- updating

  /** The service starts within three attempts: some attempt succeeds, and the address was in use in those before. */
  ghost predicate StartsInTime(parses: (nat, nat) -> ParseOutcome, i: nat) {
    exists a: nat :: a < 3 && parses(i, a) == Parsed && forall b: nat :: b < a ==> parses(i, b) == AddressInUse
  }

  lemma StartsMeans(parses: (nat, nat) -> ParseOutcome, i: nat)
    ensures Starts(parses, i, 0) <==> StartsInTime(parses, i)
  {
    var p0, p1, p2 := parses(i, 0), parses(i, 1), parses(i, 2);
    assert Starts(parses, i, 2) <==> p2 == Parsed;
    assert Starts(parses, i, 1) <==> p1 == Parsed || (p1 == AddressInUse && p2 == Parsed);
  }

  /** An update rewrites the first entry of each service it names. */
  lemma {:induction false} ReplacedAt(services: seq<ServiceConfig>, data: seq<ServiceConfig>, i: nat)
    requires NoDup(NamesOf(data)) && i < |services|
    ensures forall j :: 0 <= j < |data| && FirstOf(services, i, data[j].name) ==>
              ReplaceAll(services, data)[i] == data[j]
    ensures Unnamed(services, i, data) ==> ReplaceAll(services, data)[i] == services[i]
  {
    hide FirstOf, Find;
    if data != [] {
      var rest, d := data[..|data| - 1], data[|data| - 1];
      PrefixNoDup(data, |data| - 1);
      ReplacedAt(services, rest, i);
      var before := ReplaceAll(services, rest);
      ReplaceAllNames(services, rest);
      FindByNames(before, services, d.name);
      FindsFirst(services, i, d.name);
      forall j | 0 <= j < |rest| && FirstOf(services, i, data[j].name) ensures Find(services, d.name) != i {
        FindsFirst(services, i, data[j].name);
        assert NamesOf(data)[j] == data[j].name && NamesOf(data)[|data| - 1] == d.name;
        FoundName(services, d.name);
        FoundName(services, data[j].name);
      }
    }
  }

  lemma FoundName(services: seq<ServiceConfig>, name: string)
    ensures Find(services, name) < |services| ==> services[Find(services, name)].name == name
  {
  }

  lemma RawNoDup(data: seq<ServiceConfig>)
    requires NoDup(TrimAll(NamesOf(data)))
    ensures NoDup(NamesOf(data))
  {
    hide Trim;
    assert forall i :: 0 <= i < |data| ==> TrimAll(NamesOf(data))[i] == Trim(NamesOf(data)[i]);
  }

  /** A successful update: every service it names runs as sent, the first entry of that name is the one sent, and
      nothing else changes in the registry or in the list. */
  lemma UpdateWrites(s: NodeState, data: seq<ServiceConfig>, parses: (nat, nat) -> ParseOutcome)
    requires NoDup(TrimAll(NamesOf(data)))
    ensures var (s', reply) := Update(s, data, parses);
            && (reply == Ok <==>
                  && data != []
                  && forall i :: 0 <= i < |data| ==>
                       Trim(data[i].name) != "" && Trim(data[i].name) in s.registry && StartsInTime(parses, i))
            && (reply == Ok ==>
                  && s'.registry.Keys == s.registry.Keys && |s'.services| == |s.services|
                  && (forall i :: 0 <= i < |data| ==> Runs(s'.registry, Trim(data[i].name), data[i]))
                  && (forall n | n in s.registry && n !in TrimAll(NamesOf(data)) :: s'.registry[n] == s.registry[n])
                  && (forall i: nat, j | i < |s.services| && 0 <= j < |data| && FirstOf(s.services, i, data[j].name) ::
                        s'.services[i] == data[j])
                  && (forall i: nat | i < |s.services| && Unnamed(s.services, i, data) ::
                        s'.services[i] == s.services[i]))
  {
    hide Trim, RegisterAll, ReplaceAll, Starts, StartsInTime, FirstOf, NoDup;
    forall i: nat ensures Starts(parses, i, 0) <==> StartsInTime(parses, i) {
      StartsMeans(parses, i);
    }
    var cs := Trimmed(data);
    assert forall i :: 0 <= i < |data| ==> NamesOf(cs)[i] == Trim(data[i].name) == cs[i].name;
    if Update(s, data, parses).1 == Ok {
      var cleared := s.registry - ToSet(NamesOf(cs));
      var k := UpdateEffect(s, data, parses);
      assert cs[..|cs|] == cs;
      assert Update(s, data, parses).0 == NodeState(RegisterAll(cleared, cs), ReplaceAll(s.services, data));
      forall i | 0 <= i < |data| ensures Runs(RegisterAll(cleared, cs), cs[i].name, data[i]) {
        RegisteredRuns(cleared, cs, i);
      }
      forall n | n in s.registry && n !in NamesOf(cs)
        ensures n in RegisterAll(cleared, cs) && RegisterAll(cleared, cs)[n] == s.registry[n] {
        RegisterAllValues(cleared, cs, n);
      }
      RawNoDup(data);
      forall i | 0 <= i < |s.services|
        ensures forall j :: 0 <= j < |data| && FirstOf(s.services, i, data[j].name) ==>
                  ReplaceAll(s.services, data)[i] == data[j]
        ensures Unnamed(s.services, i, data) ==> ReplaceAll(s.services, data)[i] == s.services[i] {
        ReplacedAt(s.services, data, i);
      }
    }
  }

  /** An update that fails part-way stops at the first service k that does not start in time: those before it run as
      sent, it and those after it are registered no more, and the list is as it was. */
  lemma FailedUpdateWrites(s: NodeState, data: seq<ServiceConfig>, parses: (nat, nat) -> ParseOutcome) returns (k: nat)
    requires NoDup(TrimAll(NamesOf(data))) && Update(s, data, parses).1 == Failed
    ensures var (s', _) := Update(s, data, parses);
            && k < |data| && !StartsInTime(parses, k) && (forall i: nat | i < k :: StartsInTime(parses, i))
            && s'.services == s.services
            && (forall i :: 0 <= i < k ==> Runs(s'.registry, Trim(data[i].name), data[i]))
            && (forall i :: k <= i < |data| ==> Trim(data[i].name) !in s'.registry)
            && (forall n | n in s.registry && n !in TrimAll(NamesOf(data)) ::
                  n in s'.registry && s'.registry[n] == s.registry[n])
  {
    hide Trim, RegisterAll, ReplaceAll, Starts, StartsInTime, NoDup;
    forall i: nat ensures Starts(parses, i, 0) <==> StartsInTime(parses, i) {
      StartsMeans(parses, i);
    }
    var cs := Trimmed(data);
    var names, cleared := NamesOf(cs), s.registry - ToSet(NamesOf(cs));
    assert forall i :: 0 <= i < |data| ==> names[i] == Trim(data[i].name) == cs[i].name;
    k := UpdateEffect(s, data, parses);
    assert k == FirstFailure(parses, 0, |cs|);
    assert Update(s, data, parses).0.registry == RegisterAll(cleared, cs[..k]);
    PrefixNoDup(cs, k);
    forall i | 0 <= i < k ensures Runs(RegisterAll(cleared, cs[..k]), names[i], data[i]) {
      RegisteredRuns(cleared, cs[..k], i);
    }
    forall i | k <= i < |data| ensures names[i] !in Update(s, data, parses).0.registry {
      assert names[k..][i - k] == names[i];
    }
    forall n | n in s.registry && n !in names
      ensures n in RegisterAll(cleared, cs[..k]) && RegisterAll(cleared, cs[..k])[n] == s.registry[n] {
      RegisterAllValues(cleared, cs[..k], n);
    }
  }

  // ---------------------------------------------------------------- deleting

  function Unlike(names: seq<string>): ServiceConfig -> bool { (c: ServiceConfig) => c.name !in names }

  lemma {:induction false} WithoutKeepsOrder(services: seq<ServiceConfig>, names: seq<string>)
    ensures Filtered(services, Without(services, ToSet(names)), Unlike(names))
  {
    hide Filtered;
    if services == [] {
      NothingFiltered(Unlike(names));
    } else {
      var rest, c := services[..|services| - 1], services[|services| - 1];
      WithoutKeepsOrder(rest, names);
      OneMoreFiltered(rest, Without(rest, ToSet(names)), Unlike(names), c);
      assert services == rest + [c];
      assert Without(services, ToSet(names)) == if Unlike(names)(c) then Without(rest, ToSet(names)) + [c]
                                                else Without(rest, ToSet(names));
    }
  }

  /** A delete succeeds if and only if it names at least one service and all it names are registered; then the entries
      of other names stay, in their order, and the other services as they are. */
  lemma DeleteWrites(s: NodeState, request: seq<string>)
    ensures var (s', reply) := Delete(s, request);
            && (reply == Ok <==>
                  request != [] && forall i :: 0 <= i < |request| ==>
                                     Trim(request[i]) != "" && Trim(request[i]) in s.registry)
            && (reply == Ok ==>
                  && Filtered(s.services, s'.services, Unlike(TrimAll(request)))
                  && (forall n :: n in s'.registry <==> n in s.registry && n !in TrimAll(request))
                  && (forall n | n in s'.registry :: s'.registry[n] == s.registry[n]))
  {
    hide Trim, Filtered, Without;
    WithoutKeepsOrder(s.services, TrimAll(request));
    assert forall i :: 0 <= i < |request| ==> TrimAll(request)[i] == Trim(request[i]);
  }

  // ---------------------------------------------------------------- pausing and resuming

  predicate HasEntry(services: seq<ServiceConfig>, name: string) { exists c | c in services :: c.name == name }

  lemma EntryFound(services: seq<ServiceConfig>, name: string)
    ensures Configured(services, name) <==> HasEntry(services, name)
  {
    if HasEntry(services, name) {
      var c :| c in services && c.name == name;
      var i :| 0 <= i < |services| && services[i] == c;
      assert Find(services, name) <= i;
    }
    if Configured(services, name) {
      assert services[Find(services, name)] in services;
    }
  }

  /** A pause succeeds if and only if it names at least one service and all it names are registered and configured. It
      closes them and sets the mark in the first entry of each; nothing else changes. */
  lemma PauseWrites(s: NodeState, request: seq<string>)
    ensures var (s', reply) := Pause(s, request);
            && (reply == Ok <==>
                  request != [] && forall n | n in TrimAll(request) ::
                                     n != "" && n in s.registry && HasEntry(s.services, n))
            && (reply == Ok ==>
                  && s'.registry.Keys == s.registry.Keys && |s'.services| == |s.services|
                  && (forall n | n in s.registry ::
                        s'.registry[n] == if n in TrimAll(request) then s.registry[n].(open := false)
                                          else s.registry[n])
                  && (forall i: nat | i < |s.services| ::
                        var c := s.services[i];
                        s'.services[i] == if c.name in TrimAll(request) && FirstOf(s.services, i, c.name)
                                          then c.(metadata := c.metadata["paused" := Flag(true)])
                                          else c))
  {
    hide Trim, TrimAll, EditAll, HasEntry, FirstOf, Find;
    var names := TrimAll(request);
    forall n ensures Configured(s.services, n) <==> HasEntry(s.services, n) {
      EntryFound(s.services, n);
    }
    assert forall i :: 0 <= i < |names| ==> names[i] in names;
    forall i: nat | i < |s.services|
      ensures EditAll(s.services, names, MarkPaused)[i]
              == if s.services[i].name in names && FirstOf(s.services, i, s.services[i].name)
                 then s.services[i].(metadata := s.services[i].metadata["paused" := Flag(true)]) else s.services[i] {
      EditAllAt(s.services, names, MarkPaused, i);
      FindsFirst(s.services, i, s.services[i].name);
    }
  }

  /** The first entry of the name carries the mark. */
  ghost predicate MarkedFirst(services: seq<ServiceConfig>, name: string) {
    exists i: nat :: FirstOf(services, i, name) && Marked(services[i])
  }

  ghost function IsMarked(services: seq<ServiceConfig>): string -> bool { (n: string) => MarkedFirst(services, n) }

  lemma MarkFound(services: seq<ServiceConfig>, name: string)
    ensures PausedIn(services, name) <==> MarkedFirst(services, name)
  {
    hide Marked;
    var k := Find(services, name);
    FindsFirst(services, k, name);
    if MarkedFirst(services, name) {
      var i: nat :| FirstOf(services, i, name) && Marked(services[i]);
      FindsFirst(services, i, name);
    }
  }

  lemma {:induction false} ToResumeKeepsOrder(services: seq<ServiceConfig>, names: seq<string>)
    ensures Filtered(names, NamesOf(ToResume(services, names)), IsMarked(services))
  {
    hide Filtered, Marked, MarkedFirst, Find;
    if names == [] {
      NothingFiltered(IsMarked(services));
    } else {
      var rest, n := names[..|names| - 1], names[|names| - 1];
      ToResumeKeepsOrder(services, rest);
      OneMoreFiltered(rest, NamesOf(ToResume(services, rest)), IsMarked(services), n);
      MarkFound(services, n);
      assert names == rest + [n];
      var tail := if PausedIn(services, n) then [services[Find(services, n)]] else [];
      assert NamesOf(tail) == if IsMarked(services)(n) then [n] else [];
      assert ToResume(services, names) == ToResume(services, rest) + tail;
      assert NamesOf(ToResume(services, names)) == NamesOf(ToResume(services, rest)) + NamesOf(tail);
      assert NamesOf(ToResume(services, rest)) + [] == NamesOf(ToResume(services, rest));
    }
  }

  ghost predicate Resumable(s: NodeState, request: seq<string>) {
    request != [] && forall n | n in TrimAll(request) :: n != "" && n in s.registry && HasEntry(s.services, n)
  }

  lemma ResumableMeans(s: NodeState, request: seq<string>)
    ensures Resumable(s, request) <==> request != [] && CheckResumable(s, TrimAll(request), 0) == Ok
  {
    hide TrimAll, HasEntry, Configured;
    var names := TrimAll(request);
    forall n ensures Configured(s.services, n) <==> HasEntry(s.services, n) {
      EntryFound(s.services, n);
    }
    assert forall i :: 0 <= i < |names| ==> names[i] in names;
  }

  /** A resume restarts the marked ones of the services it names, in the order of the request. It succeeds if and only
      if all it names are registered and configured and all it restarts can be opened. Then these run as configured
      and lose the mark, and nothing else changes. */
  lemma ResumeWrites(s: NodeState, request: seq<string>, parses: nat -> bool) returns (paused: seq<string>)
    ensures Filtered(TrimAll(request), paused, IsMarked(s.services))
    ensures var (s', reply) := Resume(s, request, parses);
            && (reply == Ok <==> Resumable(s, request) && forall i: nat | i < |paused| :: parses(i))
            && (reply == Ok ==>
                  && s'.registry.Keys == s.registry.Keys && |s'.services| == |s.services|
                  && (forall n | n in s.registry && n !in paused :: s'.registry[n] == s.registry[n])
                  && (forall i: nat | i < |s.services| && FirstOf(s.services, i, s.services[i].name)
                        && s.services[i].name in paused ::
                        && Runs(s'.registry, s.services[i].name, s.services[i])
                        && s'.services[i] == s.services[i].(metadata := s.services[i].metadata - {"paused"}))
                  && (forall i: nat | i < |s.services| && !(FirstOf(s.services, i, s.services[i].name)
                        && s.services[i].name in paused) ::
                        s'.services[i] == s.services[i]))
  {
    hide Trim, TrimAll, EditAll, HasEntry, FirstOf, Find, PausedIn, ToResume, RegisterAll, Filtered, Resumable,
         CheckResumable;
    var names := TrimAll(request);
    var cs := ToResume(s.services, names);
    paused := NamesOf(cs);
    ToResumeKeepsOrder(s.services, names);
    ResumableMeans(s, request);
    if Resume(s, request, parses).1 == Ok {
      assert cs[..|cs|] == cs;
      assert Resume(s, request, parses).0 == NodeState(RegisterAll(s.registry, cs),
          EditAll(s.services, paused, ClearPaused));
      var _ := ResumeEffect(s, request, parses);
      assert RestartsAll(s, request, parses);
      forall i: nat | i < |s.services|
        ensures if FirstOf(s.services, i, s.services[i].name) && s.services[i].name in paused
                then && Runs(RegisterAll(s.registry, cs), s.services[i].name, s.services[i])
                     && EditAll(s.services, paused, ClearPaused)[i]
                        == s.services[i].(metadata := s.services[i].metadata - {"paused"})
                else EditAll(s.services, paused, ClearPaused)[i] == s.services[i] {
        ResumedAt(s.registry, s.services, names, i);
      }
      forall n | n in s.registry && n !in paused ensures RegisterAll(s.registry, cs)[n] == s.registry[n] {
        RegisterAllValues(s.registry, cs, n);
      }
    }
  }

  lemma ResumedAt(registry: map<string, Instance>, services: seq<ServiceConfig>, names: seq<string>, i: nat)
    requires i < |services|
    ensures var cs := ToResume(services, names); var c := services[i];
            if FirstOf(services, i, c.name) && c.name in NamesOf(cs)
            then && Runs(RegisterAll(registry, cs), c.name, c)
                 && EditAll(services, NamesOf(cs), ClearPaused)[i] == c.(metadata := c.metadata - {"paused"})
            else EditAll(services, NamesOf(cs), ClearPaused)[i] == c
  {
    hide RegisterAll, ToResume, Find, PausedIn, FirstOf, EditAll;
    var cs := ToResume(services, names);
    EditAllAt(services, NamesOf(cs), ClearPaused, i);
    FindsFirst(services, i, services[i].name);
    if FirstOf(services, i, services[i].name) && services[i].name in NamesOf(cs) {
      RegisterAllValues(registry, cs, services[i].name);
    }
  }

  /** A resume that could go on but fails does so at the first service k it cannot open: that one is registered no more,
      those restarted before it are closed again, the rest is as before. */
  lemma FailedResumeWrites(s: NodeState, request: seq<string>, parses: nat -> bool)
    returns (paused: seq<string>, k: nat)
    requires Resumable(s, request) && Resume(s, request, parses).1 != Ok
    ensures Filtered(TrimAll(request), paused, IsMarked(s.services))
    ensures var s' := Resume(s, request, parses).0;
            && k < |paused| && !parses(k) && (forall i: nat | i < k :: parses(i))
            && s'.services == s.services
            && (forall n :: n in s'.registry <==> n in s.registry && n != paused[k])
            && (forall n | n in s'.registry && n !in paused[..k] :: s'.registry[n] == s.registry[n])
            && (forall i: nat | i < |s.services| && FirstOf(s.services, i, s.services[i].name)
                  && s.services[i].name in paused[..k] && s.services[i].name != paused[k] ::
                  s'.registry[s.services[i].name]
                  == Instance(false, s.services[i].addr, s.services[i].chain, s.services[i].forwarder))
  {
    hide Trim, TrimAll, EditAll, HasEntry, FirstOf, Find, PausedIn, ToResume, RegisterAll, Filtered, Resumable,
         CheckResumable;
    var names := TrimAll(request);
    var cs := ToResume(s.services, names);
    paused, k := NamesOf(cs), FirstRefusal(parses, 0, |cs|);
    ToResumeKeepsOrder(s.services, names);
    ToResumeNames(s.services, names);
    ResumableMeans(s, request);
    assert NamesOf(cs[..k]) == paused[..k];
    var restarted := RegisterAll(s.registry, cs[..k]);
    RegisterAllKeys(s.registry, cs[..k]);
    assert forall n | n in paused :: n in names;
    CheckedPresent(s, names);
    forall n | n in s.registry && n !in paused[..k] ensures restarted[n] == s.registry[n] {
      RegisterAllValues(s.registry, cs[..k], n);
    }
    forall i: nat | i < |s.services| && FirstOf(s.services, i, s.services[i].name) && s.services[i].name in paused[..k]
      ensures restarted[s.services[i].name]
              == Instance(true, s.services[i].addr, s.services[i].chain, s.services[i].forwarder) {
      RegisterAllValues(s.registry, cs[..k], s.services[i].name);
      FindsFirst(s.services, i, s.services[i].name);
      assert forall c | c in cs[..k] :: c in cs;
    }
  }

  lemma CheckedPresent(s: NodeState, names: seq<string>)
    requires CheckResumable(s, names, 0) == Ok
    ensures forall n | n in names :: n in s.registry
  {
    hide Configured;
  }

  // ---------------------------------------------------------------- switching forwarders

  /** The hot update can switch the i-th forwarder it names. */
  predicate Switchable(s: NodeState, updates: seq<ForwarderUpdate>, accepts: nat -> bool, i: nat)
    requires i < |updates|
  {
    Trim(updates[i].name) != "" && Trim(updates[i].name) in s.registry && accepts(i) && updates[i].forwarder.Some?
  }

  /** The updates name different services. */
  ghost predicate Different(updates: seq<ForwarderUpdate>) {
    forall i, j :: 0 <= i < j < |updates| ==> Trim(updates[i].name) != Trim(updates[j].name)
  }

  lemma {:induction false} TargetsAt(registry: map<string, Instance>, updates: seq<ForwarderUpdate>, n: string)
    requires Different(updates) && n in registry
    ensures n in SetTargets(registry, updates)
    ensures forall i :: 0 <= i < |updates| && Trim(updates[i].name) == n ==>
              SetTargets(registry, updates)[n] == registry[n].(forwarder := updates[i].forwarder)
    ensures (forall i :: 0 <= i < |updates| ==> Trim(updates[i].name) != n) ==>
              SetTargets(registry, updates)[n] == registry[n]
  {
    hide Trim;
    if updates != [] {
      TargetsAt(registry, updates[..|updates| - 1], n);
    }
  }

  /** The update whose name the entry carries, as the first entry of that name, is written into it. */
  lemma {:induction false} SwitchedAt(services: seq<ServiceConfig>, updates: seq<ForwarderUpdate>, i: nat)
    requires Different(updates) && i < |services|
    ensures forall j :: 0 <= j < |updates| && FirstOf(services, i, updates[j].name) ==>
              SetForwarderAll(services, updates)[i] == services[i].(forwarder := updates[j].forwarder)
    ensures (forall j :: 0 <= j < |updates| ==> !FirstOf(services, i, updates[j].name)) ==>
              SetForwarderAll(services, updates)[i] == services[i]
  {
    hide FirstOf, Find, Trim;
    if updates != [] {
      var rest, u := updates[..|updates| - 1], updates[|updates| - 1];
      SwitchedAt(services, rest, i);
      var before := SetForwarderAll(services, rest);
      SetForwarderAllNames(services, rest);
      FindByNames(before, services, u.name);
      FindsFirst(services, i, u.name);
      forall j | 0 <= j < |rest| && FirstOf(services, i, updates[j].name) ensures Find(services, u.name) != i {
        FindsFirst(services, i, updates[j].name);
        FoundName(services, updates[j].name);
        FoundName(services, u.name);
        assert Trim(updates[j].name) != Trim(u.name);
      }
    }
  }

  /** A hot update succeeds if and only if it names at least one service and can switch all it names. It always switches
      those before the first it cannot; their entries follow only when it can switch all. */
  lemma SwitchWrites(s: NodeState, updates: seq<ForwarderUpdate>, accepts: nat -> bool) returns (k: nat)
    requires Different(updates)
    ensures k <= |updates| && (forall i: nat | i < k :: Switchable(s, updates, accepts, i))
    ensures k < |updates| ==> !Switchable(s, updates, accepts, k)
    ensures var (s', reply) := UpdateForwarder(s, updates, accepts);
            && (reply == Ok <==> updates != [] && k == |updates|)
            && s'.registry.Keys == s.registry.Keys && |s'.services| == |s.services|
            && (forall i: nat | i < k :: var n := Trim(updates[i].name);
                  n in s.registry && s'.registry[n] == s.registry[n].(forwarder := updates[i].forwarder))
            && (forall n | n in s.registry && (forall i: nat | i < k :: Trim(updates[i].name) != n) ::
                  s'.registry[n] == s.registry[n])
            && (reply != Ok ==> s'.services == s.services)
            && (reply == Ok ==> forall i: nat, j: nat | i < |s.services| && j < |updates|
                                  && FirstOf(s.services, i, updates[j].name) ::
                                  s'.services[i] == s.services[i].(forwarder := updates[j].forwarder))
            && (forall i: nat | i < |s.services|
                  && (forall j: nat | j < |updates| :: !FirstOf(s.services, i, updates[j].name)) ::
                  s'.services[i] == s.services[i])
  {
    hide Trim, SetTargets, SetForwarderAll, FirstOf;
    UpdateForwarderEffect(s, updates, accepts);
    k := FirstRejected(s.registry, updates, accepts);
    RejectedIs(s, updates, accepts);
    forall n | n in s.registry
      ensures forall i: nat | i < k && Trim(updates[i].name) == n ::
                SetTargets(s.registry, updates[..k])[n] == s.registry[n].(forwarder := updates[i].forwarder)
      ensures (forall i: nat | i < k :: Trim(updates[i].name) != n) ==>
                SetTargets(s.registry, updates[..k])[n] == s.registry[n] {
      TargetsAt(s.registry, updates[..k], n);
      assert forall i: nat | i < k :: updates[..k][i] == updates[i];
    }
    assert k == |updates| ==> updates[..k] == updates;
    NoTargets(s.registry);
    assert UpdateForwarder(s, updates, accepts).0.registry == SetTargets(s.registry, updates[..k]);
    forall i: nat | i < k
      ensures var n := Trim(updates[i].name);
              n in s.registry
              && SetTargets(s.registry, updates[..k])[n] == s.registry[n].(forwarder := updates[i].forwarder) {
      assert Switchable(s, updates, accepts, i);
    }
    forall i: nat | i < |s.services|
      ensures forall j: nat | j < |updates| && FirstOf(s.services, i, updates[j].name) ::
                SetForwarderAll(s.services, updates)[i] == s.services[i].(forwarder := updates[j].forwarder)
      ensures (forall j: nat | j < |updates| :: !FirstOf(s.services, i, updates[j].name)) ==>
                SetForwarderAll(s.services, updates)[i] == s.services[i] {
      SwitchedAt(s.services, updates, i);
    }
  }

  lemma NoTargets(registry: map<string, Instance>)
    ensures SetTargets(registry, []) == registry
  {
  }

  lemma RejectedIs(s: NodeState, updates: seq<ForwarderUpdate>, accepts: nat -> bool)
    ensures var k := FirstRejected(s.registry, updates, accepts);
            && k <= |updates| && (forall i: nat | i < k :: Switchable(s, updates, accepts, i))
            && (k < |updates| ==>
                  !Switchable(s, updates, accepts, k) && CheckForwarder(s.registry, updates[k], accepts(k)) != Ok)
  {
    hide Trim, FirstRefusal;
    var ok := (i: nat) => i < |updates| && CheckForwarder(s.registry, updates[i], accepts(i)) == Ok;
    var k := FirstRefusal(ok, 0, |updates|);
    forall i: nat | i < k ensures Switchable(s, updates, accepts, i) {
      assert ok(i);
    }
    assert k < |updates| ==> !ok(k);
  }
}
