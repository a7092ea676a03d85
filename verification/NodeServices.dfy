/** The node's batch commands on its service registry and its configuration list
    (go-node/x/socket/service.go). Opening a listener and building a handler may
    fail: each command takes the outcomes it will meet as a parameter. */
module NodeServices {
  import opened Text
  import opened Names

  /** A registered service: whether its listener is open, where it listens, and where it forwards to. */
  datatype Instance = Instance(open: bool, addr: string, chain: Option<string>, forwarder: Option<Forwarder>)

  datatype NodeState = NodeState(registry: map<string, Instance>, services: seq<ServiceConfig>)

  datatype Reply = Ok | EmptyRequest | NameRequired | AlreadyExists | NotFound | Failed

  datatype ParseOutcome = Parsed | AddressInUse | ParseError

  datatype ForwarderUpdate = ForwarderUpdate(name: string, forwarder: Option<Forwarder>)

  // ---------------------------------------------------------------- the configuration list

  /** The index of the first entry of that name, |services| when there is none. */
  function Find(services: seq<ServiceConfig>, name: string): (i: nat)
    ensures i <= |services|
    ensures i < |services| ==> services[i].name == name
    ensures forall j :: 0 <= j < i ==> services[j].name != name
  {
    if services == [] || services[0].name == name then 0 else 1 + Find(services[1..], name)
  }

  predicate Configured(services: seq<ServiceConfig>, name: string) {
    Find(services, name) < |services|
  }

  datatype Edit = MarkPaused | ClearPaused | Replace(config: ServiceConfig) | SetForwarder(forwarder: Option<Forwarder>)

  function Apply(e: Edit, c: ServiceConfig): ServiceConfig {
    match e
    case MarkPaused => c.(metadata := c.metadata["paused" := Flag(true)])
    case ClearPaused => c.(metadata := c.metadata - {"paused"})
    case Replace(d) => d
    case SetForwarder(f) => c.(forwarder := f)
  }

  predicate Marked(c: ServiceConfig) {
    "paused" in c.metadata && c.metadata["paused"] == Flag(true)
  }

  function EditFirst(services: seq<ServiceConfig>, name: string, e: Edit): (r: seq<ServiceConfig>)
    ensures |r| == |services|
  {
    var i := Find(services, name);
    if i < |services| then services[i := Apply(e, services[i])] else services
  }

  /** One edit, applied for each name in turn. */
  function EditAll(services: seq<ServiceConfig>, names: seq<string>, e: Edit): (r: seq<ServiceConfig>)
    ensures |r| == |services|
  {
    if names == [] then services
    else EditFirst(EditAll(services, names[..|names| - 1], e), names[|names| - 1], e)
  }

  function ReplaceAll(services: seq<ServiceConfig>, data: seq<ServiceConfig>): (r: seq<ServiceConfig>)
    ensures |r| == |services|
  {
    if data == [] then services
    else
      var d := data[|data| - 1];
      EditFirst(ReplaceAll(services, data[..|data| - 1]), d.name, Replace(d))
  }

  function SetForwarderAll(services: seq<ServiceConfig>, updates: seq<ForwarderUpdate>): (r: seq<ServiceConfig>)
    ensures |r| == |services|
  {
    if updates == [] then services
    else
      var u := updates[|updates| - 1];
      EditFirst(SetForwarderAll(services, updates[..|updates| - 1]), u.name, SetForwarder(u.forwarder))
  }

  function Without(services: seq<ServiceConfig>, names: set<string>): seq<ServiceConfig> {
    if services == [] then []
    else
      var c := services[|services| - 1];
      Without(services[..|services| - 1], names) + if c.name in names then [] else [c]
  }

  // ---------------------------------------------------------------- the registry

  function Launch(c: ServiceConfig): Instance { Instance(true, c.addr, c.chain, c.forwarder) }

  function RegisterAll(registry: map<string, Instance>, cs: seq<ServiceConfig>): map<string, Instance> {
    if cs == [] then registry
    else
      var c := cs[|cs| - 1];
      RegisterAll(registry, cs[..|cs| - 1])[c.name := Launch(c)]
  }

  function CloseAll(registry: map<string, Instance>, names: seq<string>): (r: map<string, Instance>)
    ensures r.Keys == registry.Keys
  {
    map n | n in registry :: if n in names then registry[n].(open := false) else registry[n]
  }

  function SetTargets(registry: map<string, Instance>, updates: seq<ForwarderUpdate>): (r: map<string, Instance>)
    ensures forall n :: n in registry ==> n in r
  {
    if updates == [] then registry
    else
      var u, before := updates[|updates| - 1], SetTargets(registry, updates[..|updates| - 1]);
      var n := Trim(u.name);
      if n in before then before[n := before[n].(forwarder := u.forwarder)] else before
  }

  // ---------------------------------------------------------------- the commands

  function Trimmed(data: seq<ServiceConfig>): (r: seq<ServiceConfig>)
    ensures |r| == |data| && NamesOf(r) == TrimAll(NamesOf(data))
  {
    seq(|data|, i requires 0 <= i < |data| => data[i].(name := Trim(data[i].name)))
  }

  function CheckNew(registry: map<string, Instance>, names: seq<string>, parses: nat -> bool, i: nat): (r: Reply)
    requires i <= |names|
    ensures r == Ok <==> forall k :: i <= k < |names| ==> names[k] != "" && names[k] !in registry && parses(k)
    ensures r in {Ok, NameRequired, AlreadyExists, Failed}
    decreases |names| - i
  {
    if i == |names| then Ok
    else if names[i] == "" then NameRequired
    else if names[i] in registry then AlreadyExists
    else if !parses(i) then Failed
    else CheckNew(registry, names, parses, i + 1)
  }

  function Create(s: NodeState, data: seq<ServiceConfig>, parses: nat -> bool): (NodeState, Reply) {
    var cs := Trimmed(data);
    if data == [] then (s, EmptyRequest)
    else if CheckNew(s.registry, NamesOf(cs), parses, 0) != Ok then (s, CheckNew(s.registry, NamesOf(cs), parses, 0))
    else if !NoDup(NamesOf(cs)) then (s, AlreadyExists)
    else (NodeState(RegisterAll(s.registry, cs), s.services + cs), Ok)
  }

  function CheckPresent(registry: map<string, Instance>, names: seq<string>, i: nat): (r: Reply)
    requires i <= |names|
    ensures r == Ok <==> forall k :: i <= k < |names| ==> names[k] != "" && names[k] in registry
    ensures r == Ok || r == NameRequired || r == NotFound
    decreases |names| - i
  {
    if i == |names| then Ok
    else if names[i] == "" then NameRequired
    else if names[i] !in registry then NotFound
    else CheckPresent(registry, names, i + 1)
  }

  /** Three attempts, repeated only while the address is still in use. */
  predicate Starts(parses: (nat, nat) -> ParseOutcome, i: nat, attempt: nat)
    requires attempt <= 3
    decreases 3 - attempt
  {
    attempt < 3 && match parses(i, attempt)
                   case Parsed => true
                   case ParseError => false
                   case AddressInUse => Starts(parses, i, attempt + 1)
  }

  /** The first service from i on that cannot be started, n when all can. */
  function FirstFailure(parses: (nat, nat) -> ParseOutcome, i: nat, n: nat): (k: nat)
    requires i <= n
    ensures i <= k <= n
    ensures forall j :: i <= j < k ==> Starts(parses, j, 0)
    ensures k < n ==> !Starts(parses, k, 0)
    decreases n - i
  {
    if i == n || !Starts(parses, i, 0) then i else FirstFailure(parses, i + 1, n)
  }

  function Update(s: NodeState, data: seq<ServiceConfig>, parses: (nat, nat) -> ParseOutcome): (NodeState, Reply)
  {
    var cs := Trimmed(data);
    var check := CheckPresent(s.registry, NamesOf(cs), 0);
    var k := FirstFailure(parses, 0, |cs|);
    if data == [] then (s, EmptyRequest)
    else if check != Ok then (s, check)
    else
      var registry := RegisterAll(s.registry - ToSet(NamesOf(cs)), cs[..k]);
      if k < |cs| then (NodeState(registry, s.services), Failed)
      else (NodeState(registry, ReplaceAll(s.services, data)), Ok)
  }

  function Delete(s: NodeState, request: seq<string>): (NodeState, Reply) {
    var names := TrimAll(request);
    var check := CheckPresent(s.registry, names, 0);
    if request == [] then (s, EmptyRequest)
    else if check != Ok then (s, check)
    else (NodeState(s.registry - ToSet(names), Without(s.services, ToSet(names))), Ok)
  }

  /** The first name without a configuration entry, |names| when all have one. */
  function FirstUnconfigured(services: seq<ServiceConfig>, names: seq<string>): (k: nat)
    ensures k <= |names|
    ensures forall j :: 0 <= j < k ==> Configured(services, names[j])
    ensures k < |names| ==> !Configured(services, names[k])
  {
    if names == [] || !Configured(services, names[0]) then 0 else 1 + FirstUnconfigured(services, names[1..])
  }

  function Pause(s: NodeState, request: seq<string>): (NodeState, Reply) {
    var names := TrimAll(request);
    var check := CheckPresent(s.registry, names, 0);
    var k := FirstUnconfigured(s.services, names);
    if request == [] then (s, EmptyRequest)
    else if check != Ok then (s, check)
    else if k < |names| then (NodeState(CloseAll(s.registry, names[..k]), s.services), Failed)
    else (NodeState(CloseAll(s.registry, names), EditAll(s.services, names, MarkPaused)), Ok)
  }

  function CheckResumable(s: NodeState, names: seq<string>, i: nat): (r: Reply)
    requires i <= |names|
    ensures r == Ok <==>
              forall k :: i <= k < |names| ==>
                  names[k] != "" && names[k] in s.registry && Configured(s.services, names[k])
    decreases |names| - i
  {
    if i == |names| then Ok
    else if names[i] == "" then NameRequired
    else if names[i] !in s.registry then NotFound
    else if !Configured(s.services, names[i]) then Failed
    else CheckResumable(s, names, i + 1)
  }

  predicate PausedIn(services: seq<ServiceConfig>, name: string) {
    Configured(services, name) && Marked(services[Find(services, name)])
  }

  /** The entries of the named services that are marked paused, in request order. */
  function ToResume(services: seq<ServiceConfig>, names: seq<string>): (cs: seq<ServiceConfig>)
    ensures forall c | c in cs :: c.name in names && PausedIn(services, c.name) && c == services[Find(services, c.name)]
  {
    if names == [] then []
    else
      var n := names[|names| - 1];
      ToResume(services, names[..|names| - 1]) + if PausedIn(services, n) then [services[Find(services, n)]] else []
  }

  function FirstRefusal(parses: nat -> bool, i: nat, n: nat): (k: nat)
    requires i <= n
    ensures i <= k <= n
    ensures forall j :: i <= j < k ==> parses(j)
    ensures k < n ==> !parses(k)
    decreases n - i
  {
    if i == n || !parses(i) then i else FirstRefusal(parses, i + 1, n)
  }

  function Resume(s: NodeState, request: seq<string>, parses: nat -> bool): (NodeState, Reply) {
    var names := TrimAll(request);
    var check := CheckResumable(s, names, 0);
    var cs := ToResume(s.services, names);
    var k := FirstRefusal(parses, 0, |cs|);
    var restarted := RegisterAll(s.registry, cs[..k]);
    if request == [] then (s, EmptyRequest)
    else if check != Ok then (s, check)
    else if k < |cs| then (NodeState(CloseAll(restarted - {cs[k].name}, NamesOf(cs[..k])), s.services), Failed)
    else (NodeState(restarted, EditAll(s.services, NamesOf(cs), ClearPaused)), Ok)
  }

  function CheckForwarder(registry: map<string, Instance>, u: ForwarderUpdate, accepted: bool): Reply {
    if Trim(u.name) == "" then NameRequired
    else if Trim(u.name) !in registry then NotFound
    else if !accepted || u.forwarder == None then Failed
    else Ok
  }

  function FirstRejected(registry: map<string, Instance>, updates: seq<ForwarderUpdate>, accepts: nat -> bool): nat {
    FirstRefusal((i: nat) => i < |updates| && CheckForwarder(registry, updates[i], accepts(i)) == Ok, 0, |updates|)
  }

  function UpdateForwarder(s: NodeState, updates: seq<ForwarderUpdate>, accepts: nat -> bool): (NodeState, Reply) {
    var k := FirstRejected(s.registry, updates, accepts);
    if updates == [] then (s, EmptyRequest)
    else if k < |updates| then
      (NodeState(SetTargets(s.registry, updates[..k]), s.services), CheckForwarder(s.registry, updates[k], accepts(k)))
    else (NodeState(SetTargets(s.registry, updates), SetForwarderAll(s.services, updates)), Ok)
  }

  // ---------------------------------------------------------------- what the helper functions do

  lemma {:induction false} RegisterAllKeys(registry: map<string, Instance>, cs: seq<ServiceConfig>)
    ensures RegisterAll(registry, cs).Keys == registry.Keys + ToSet(NamesOf(cs))
  {
    if cs != [] {
      var rest := cs[..|cs| - 1];
      RegisterAllKeys(registry, rest);
      assert NamesOf(cs) == NamesOf(rest) + [cs[|cs| - 1].name];
    }
  }

  lemma {:induction false} RegisterAllValues(registry: map<string, Instance>, cs: seq<ServiceConfig>, n: string)
    ensures n !in NamesOf(cs) && n in registry ==>
              n in RegisterAll(registry, cs) && RegisterAll(registry, cs)[n] == registry[n]
    ensures n in NamesOf(cs) ==>
              n in RegisterAll(registry, cs) && exists c ::
                  c in cs && c.name == n && RegisterAll(registry, cs)[n] == Launch(c)
  {
    if cs != [] {
      var last, rest := cs[|cs| - 1], cs[..|cs| - 1];
      RegisterAllValues(registry, rest, n);
      assert NamesOf(cs) == NamesOf(rest) + [last.name];
      if n == last.name {
        assert last in cs;
      } else if n in NamesOf(rest) {
        var c :| c in rest && c.name == n && RegisterAll(registry, rest)[n] == Launch(c);
        assert c in cs;
      }
    }
  }

  lemma EditFirstNames(services: seq<ServiceConfig>, name: string, e: Edit)
    requires e.Replace? ==> e.config.name == name
    ensures NamesOf(EditFirst(services, name, e)) == NamesOf(services)
  {
  }

  lemma {:induction false} EditAllNames(services: seq<ServiceConfig>, names: seq<string>, e: Edit)
    requires !e.Replace?
    ensures NamesOf(EditAll(services, names, e)) == NamesOf(services)
  {
    if names != [] {
      EditAllNames(services, names[..|names| - 1], e);
      EditFirstNames(EditAll(services, names[..|names| - 1], e), names[|names| - 1], e);
    }
  }

  lemma {:induction false} ReplaceAllNames(services: seq<ServiceConfig>, data: seq<ServiceConfig>)
    ensures NamesOf(ReplaceAll(services, data)) == NamesOf(services)
  {
    if data != [] {
      var d := data[|data| - 1];
      ReplaceAllNames(services, data[..|data| - 1]);
      EditFirstNames(ReplaceAll(services, data[..|data| - 1]), d.name, Replace(d));
    }
  }

  lemma {:induction false} SetForwarderAllNames(services: seq<ServiceConfig>, updates: seq<ForwarderUpdate>)
    ensures NamesOf(SetForwarderAll(services, updates)) == NamesOf(services)
  {
    if updates != [] {
      var u := updates[|updates| - 1];
      SetForwarderAllNames(services, updates[..|updates| - 1]);
      EditFirstNames(SetForwarderAll(services, updates[..|updates| - 1]), u.name, SetForwarder(u.forwarder));
    }
  }

  lemma {:induction false} WithoutNames(services: seq<ServiceConfig>, names: set<string>)
    ensures forall n :: n in NamesOf(Without(services, names)) <==> n in NamesOf(services) && n !in names
    ensures NoDup(NamesOf(services)) ==> NoDup(NamesOf(Without(services, names)))
  {
    if services != [] {
      var c, rest := services[|services| - 1], services[..|services| - 1];
      WithoutNames(rest, names);
      assert NamesOf(services) == NamesOf(rest) + [c.name];
      var tail: seq<ServiceConfig> := if c.name in names then [] else [c];
      assert Without(services, names) == Without(rest, names) + tail;
      assert NamesOf(Without(services, names)) == NamesOf(Without(rest, names)) + NamesOf(tail);
      assert NamesOf(tail) == if c.name in names then [] else [c.name];
    }
  }

  lemma {:induction false} SetTargetsKeys(registry: map<string, Instance>, updates: seq<ForwarderUpdate>)
    ensures SetTargets(registry, updates).Keys == registry.Keys
  {
    if updates != [] {
      SetTargetsKeys(registry, updates[..|updates| - 1]);
    }
  }

  lemma {:induction false} ToResumeNames(services: seq<ServiceConfig>, names: seq<string>)
    ensures forall n :: n in NamesOf(ToResume(services, names)) <==> n in names && PausedIn(services, n)
  {
    if names != [] {
      var n, rest := names[|names| - 1], names[..|names| - 1];
      ToResumeNames(services, rest);
      assert names == rest + [n];
      var tail := if PausedIn(services, n) then [services[Find(services, n)]] else [];
      assert NamesOf(ToResume(services, names)) == NamesOf(ToResume(services, rest)) + NamesOf(tail);
      assert NamesOf(tail) == if PausedIn(services, n) then [n] else [];
    }
  }

  // ---------------------------------------------------------------- every run

  datatype Command =
    | CreateServices(data: seq<ServiceConfig>, parses: nat -> bool)
    | UpdateServices(data: seq<ServiceConfig>, attempts: (nat, nat) -> ParseOutcome)
    | DeleteServices(names: seq<string>)
    | PauseServices(names: seq<string>)
    | ResumeServices(names: seq<string>, parses: nat -> bool)
    | UpdateForwarders(updates: seq<ForwarderUpdate>, accepts: nat -> bool)

  /** An update that names one service twice makes the node dereference a missing service. */
  ghost predicate Legal(c: Command) {
    c.UpdateServices? ==> NoDup(TrimAll(NamesOf(c.data)))
  }

  function Exec(s: NodeState, c: Command): (NodeState, Reply) {
    match c
    case CreateServices(data, parses) => Create(s, data, parses)
    case UpdateServices(data, attempts) => Update(s, data, attempts)
    case DeleteServices(names) => Delete(s, names)
    case PauseServices(names) => Pause(s, names)
    case ResumeServices(names, parses) => Resume(s, names, parses)
    case UpdateForwarders(updates, accepts) => UpdateForwarder(s, updates, accepts)
  }

  function Run(s: NodeState, cs: seq<Command>): NodeState {
    if cs == [] then s else Exec(Run(s, cs[..|cs| - 1]), cs[|cs| - 1]).0
  }

  /** Every registered service has a configuration entry, under a name TrimSpace keeps. */
  ghost predicate Covered(s: NodeState) {
    forall n | n in s.registry :: n in NamesOf(s.services) && n != "" && Trim(n) == n
  }

  /** Registry and configuration name the same services, each once. */
  ghost predicate Synced(s: NodeState) {
    s.registry.Keys == ToSet(NamesOf(s.services)) && NoDup(NamesOf(s.services))
  }

  lemma TrimAllTight(names: seq<string>)
    ensures forall n | n in TrimAll(names) :: Trim(n) == n
  {
    hide Trim;
    forall i | 0 <= i < |names| ensures Trim(TrimAll(names)[i]) == TrimAll(names)[i] {
      TrimOfTight(Trim(names[i]));
    }
  }

  lemma CreateEffect(s: NodeState, data: seq<ServiceConfig>, parses: nat -> bool)
    ensures Create(s, data, parses).1 != Ok ==> Create(s, data, parses).0 == s
    ensures Create(s, data, parses).1 == Ok ==>
              var (s', _) := Create(s, data, parses); var names := TrimAll(NamesOf(data));
              && s'.registry.Keys == s.registry.Keys + ToSet(names)
              && NamesOf(s'.services) == NamesOf(s.services) + names
              && NoDup(names) && forall n | n in names :: n !in s.registry && n != "" && Trim(n) == n
  {
    hide Trim;
    RegisterAllKeys(s.registry, Trimmed(data));
    TrimAllTight(NamesOf(data));
  }

  /** A create that succeeds keeps the configured names unique if and only if none of its names is still configured: it
      looks at the registry alone. */
  lemma CreateKeepsUnique(s: NodeState, data: seq<ServiceConfig>, parses: nat -> bool)
    requires NoDup(NamesOf(s.services)) && Create(s, data, parses).1 == Ok
    ensures NoDup(NamesOf(Create(s, data, parses).0.services)) <==>
            forall n | n in TrimAll(NamesOf(data)) :: n !in NamesOf(s.services)
  {
    hide Create, Trim, TrimAll;
    CreateEffect(s, data, parses);
    DistinctJoin(NamesOf(s.services), TrimAll(NamesOf(data)));
  }

  lemma DistinctJoin(a: seq<string>, b: seq<string>)
    requires NoDup(a) && NoDup(b)
    ensures NoDup(a + b) <==> forall n | n in b :: n !in a
  {
    var all := a + b;
    if NoDup(all) {
      forall n | n in b ensures n !in a {
        var j :| 0 <= j < |b| && b[j] == n;
        forall i | 0 <= i < |a| ensures a[i] != n {
          assert all[i] != all[|a| + j];
        }
      }
    } else {
      var i, j :| 0 <= i < j < |all| && all[i] == all[j];
      assert i < |a| <= j;
      assert b[j - |a|] in b && a[i] in a;
    }
  }

  /** A failed update stops at the first service k that does not start and loses exactly the names from there on. */
  lemma UpdateEffect(s: NodeState, data: seq<ServiceConfig>, parses: (nat, nat) -> ParseOutcome) returns (k: nat)
    requires NoDup(TrimAll(NamesOf(data)))
    ensures NamesOf(Update(s, data, parses).0.services) == NamesOf(s.services)
    ensures Update(s, data, parses).1 == Ok ==> Update(s, data, parses).0.registry.Keys == s.registry.Keys
    ensures Update(s, data, parses).1 == Failed ==>
              && k < |data| && !Starts(parses, k, 0) && (forall j :: 0 <= j < k ==> Starts(parses, j, 0))
              && Update(s, data, parses).0.registry.Keys == s.registry.Keys - ToSet(TrimAll(NamesOf(data))[k..])
    ensures Update(s, data, parses).1 !in {Ok, Failed} ==> Update(s, data, parses).0 == s
  {
    hide Trim, Trimmed, ReplaceAll, RegisterAll, TrimAll, FirstFailure, Starts, CheckPresent, NoDup;
    ReplaceAllNames(s.services, data);
    var names := TrimAll(NamesOf(data));
    k := FirstFailure(parses, 0, |Trimmed(data)|);
    if data != [] && CheckPresent(s.registry, names, 0) == Ok {
      UpdatedKeys(s, data, k);
      assert names[|names|..] == [];
    }
  }

  lemma UpdatedKeys(s: NodeState, data: seq<ServiceConfig>, k: nat)
    requires NoDup(TrimAll(NamesOf(data))) && k <= |data|
    requires forall i :: 0 <= i < |data| ==> TrimAll(NamesOf(data))[i] in s.registry
    ensures RegisterAll(s.registry - ToSet(NamesOf(Trimmed(data))), Trimmed(data)[..k]).Keys
            == s.registry.Keys - ToSet(TrimAll(NamesOf(data))[k..])
  {
    hide Trim, Trimmed, RegisterAll, TrimAll, NoDup;
    var cs, names := Trimmed(data), TrimAll(NamesOf(data));
    RegisterAllKeys(s.registry - ToSet(names), cs[..k]);
    assert NamesOf(cs[..k]) == names[..k];
    SplitNames(s.registry.Keys, names, k);
  }

  lemma SplitNames(keys: set<string>, names: seq<string>, k: nat)
    requires NoDup(names) && k <= |names|
    ensures (forall i :: 0 <= i < |names| ==> names[i] in keys) ==>
              keys - ToSet(names) + ToSet(names[..k]) == keys - ToSet(names[k..])
  {
    assert names == names[..k] + names[k..];
    assert forall n | n in names[k..] :: n !in names[..k];
  }

  lemma DeleteEffect(s: NodeState, request: seq<string>)
    ensures Delete(s, request).1 != Ok ==> Delete(s, request).0 == s
    ensures Delete(s, request).1 == Ok ==>
              var (s', _) := Delete(s, request); var names := TrimAll(request);
              && s'.registry.Keys == s.registry.Keys - ToSet(names)
              && (forall n :: n in NamesOf(s'.services) <==> n in NamesOf(s.services) && n !in names)
              && (NoDup(NamesOf(s.services)) ==> NoDup(NamesOf(s'.services)))
  {
    hide Trim;
    WithoutNames(s.services, ToSet(TrimAll(request)));
  }

  lemma PauseEffect(s: NodeState, request: seq<string>)
    ensures Pause(s, request).0.registry.Keys == s.registry.Keys
    ensures NamesOf(Pause(s, request).0.services) == NamesOf(s.services)
  {
    hide Trim;
    EditAllNames(s.services, TrimAll(request), MarkPaused);
  }

  /** Every service the resume has to restart can be started, or it refuses before it restarts any. */
  ghost predicate RestartsAll(s: NodeState, request: seq<string>, parses: nat -> bool) {
    || request == [] || CheckResumable(s, TrimAll(request), 0) != Ok
    || forall i: nat :: i < |ToResume(s.services, TrimAll(request))| ==> parses(i)
  }

  /** Every service the update has to start can be started, or it refuses before it closes any. */
  ghost predicate StartsAll(s: NodeState, data: seq<ServiceConfig>, parses: (nat, nat) -> ParseOutcome) {
    || data == [] || CheckPresent(s.registry, TrimAll(NamesOf(data)), 0) != Ok
    || forall i: nat :: i < |data| ==> Starts(parses, i, 0)
  }

  /** A resume keeps every configured name, and every registered one if and only if all it has to restart can be
      started; otherwise it loses exactly the first that cannot, and leaves the configuration as it was. */
  lemma ResumeEffect(s: NodeState, request: seq<string>, parses: nat -> bool) returns (lost: string)
    ensures NamesOf(Resume(s, request, parses).0.services) == NamesOf(s.services)
    ensures Resume(s, request, parses).1 != Ok ==> Resume(s, request, parses).0.services == s.services
    ensures RestartsAll(s, request, parses) ==> Resume(s, request, parses).0.registry.Keys == s.registry.Keys
    ensures !RestartsAll(s, request, parses) ==>
              && lost in s.registry && Resume(s, request, parses).0.registry.Keys == s.registry.Keys - {lost}
              && var cs := ToResume(s.services, TrimAll(request)); var k := FirstRefusal(parses, 0, |cs|);
                 k < |cs| && lost == cs[k].name
  {
    hide Trim, TrimAll, EditAll, RegisterAll, FirstRefusal, CheckResumable, ToResume;
    var names := TrimAll(request);
    var cs := ToResume(s.services, names);
    var k := FirstRefusal(parses, 0, |cs|);
    EditAllNames(s.services, NamesOf(cs), ClearPaused);
    RegisterAllKeys(s.registry, cs[..k]);
    ToResumeNames(s.services, names);
    assert cs[..|cs|] == cs;
    lost := "";
    if request != [] && CheckResumable(s, names, 0) == Ok {
      forall c | c in cs ensures c.name in s.registry {
        var j :| 0 <= j < |names| && names[j] == c.name;
      }
      assert forall i :: 0 <= i < |cs| ==> cs[i] in cs;
      assert RegisterAll(s.registry, cs[..k]).Keys == s.registry.Keys;
      if k < |cs| {
        lost := cs[k].name;
      }
    }
  }

  lemma UpdateForwarderEffect(s: NodeState, updates: seq<ForwarderUpdate>, accepts: nat -> bool)
    ensures UpdateForwarder(s, updates, accepts).0.registry.Keys == s.registry.Keys
    ensures NamesOf(UpdateForwarder(s, updates, accepts).0.services) == NamesOf(s.services)
  {
    SetForwarderAllNames(s.services, updates);
    SetTargetsKeys(s.registry, updates);
    SetTargetsKeys(s.registry, updates[..FirstRejected(s.registry, updates, accepts)]);
  }

  /** The registry stays inside the configuration, whatever the outcomes. */
  lemma ExecKeepsCovered(s: NodeState, c: Command)
    requires Covered(s) && Legal(c)
    ensures Covered(Exec(s, c).0)
  {
    hide Trim, TrimAll, Create, Update, Delete, Pause, Resume, UpdateForwarder;
    match c
    case CreateServices(data, parses) => CreateEffect(s, data, parses);
    case UpdateServices(data, attempts) => var _ := UpdateEffect(s, data, attempts);
    case DeleteServices(names) => DeleteEffect(s, names);
    case PauseServices(names) => PauseEffect(s, names);
    case ResumeServices(names, parses) => var _ := ResumeEffect(s, names, parses);
    case UpdateForwarders(updates, accepts) => UpdateForwarderEffect(s, updates, accepts);
  }

  lemma AppendDistinct(a: seq<string>, b: seq<string>)
    requires NoDup(a) && NoDup(b) && ToSet(a) !! ToSet(b)
    ensures NoDup(a + b) && ToSet(a + b) == ToSet(a) + ToSet(b)
  {
    forall i, j | 0 <= i < j < |a + b| ensures (a + b)[i] != (a + b)[j] {
      if i < |a| <= j {
        assert a[i] in ToSet(a) && b[j - |a|] in ToSet(b);
      }
    }
  }

  /** A resume keeps registry and configuration in step if and only if all it has to restart can be started. */
  lemma ResumeKeepsSynced(s: NodeState, request: seq<string>, parses: nat -> bool)
    requires Synced(s)
    ensures Synced(Resume(s, request, parses).0) <==> RestartsAll(s, request, parses)
  {
    hide Resume, RestartsAll, FirstRefusal, ToResume, TrimAll;
    var lost := ResumeEffect(s, request, parses);
  }

  /** An update keeps them in step if and only if all it has to start can be started. */
  lemma UpdateKeepsSynced(s: NodeState, data: seq<ServiceConfig>, parses: (nat, nat) -> ParseOutcome)
    requires Synced(s) && NoDup(TrimAll(NamesOf(data)))
    ensures Synced(Update(s, data, parses).0) <==> StartsAll(s, data, parses)
  {
    hide Trim, Trimmed, ReplaceAll, RegisterAll, TrimAll, FirstFailure, Starts, CheckPresent, NoDup;
    var k := UpdateEffect(s, data, parses);
    var names := TrimAll(NamesOf(data));
    assert k < |names| ==> names[k] in names[k..];
    UpdateReply(s, data, parses);
  }

  lemma UpdateReply(s: NodeState, data: seq<ServiceConfig>, parses: (nat, nat) -> ParseOutcome)
    ensures Update(s, data, parses).1 == Failed <==> !StartsAll(s, data, parses)
    ensures Update(s, data, parses).1 == Failed ==> forall i: nat :: i < |data| ==>
              TrimAll(NamesOf(data))[i] in s.registry
  {
    hide Trim, Trimmed, ReplaceAll, RegisterAll, TrimAll, Starts;
    var k := FirstFailure(parses, 0, |Trimmed(data)|);
  }

  /** The guard of the commands that can take the two apart. */
  ghost predicate Holds(s: NodeState, c: Command) {
    match c
    case UpdateServices(data, attempts) => StartsAll(s, data, attempts)
    case ResumeServices(names, parses) => RestartsAll(s, names, parses)
    case _ => true
  }

  /** A command keeps registered and configured names equal and unique if and only if, for an update or a resume, all
      the services it has to start can be started. */
  lemma ExecKeepsSynced(s: NodeState, c: Command)
    requires Synced(s) && Legal(c)
    ensures Synced(Exec(s, c).0) <==> Holds(s, c)
  {
    hide Trim, TrimAll, Create, Update, Delete, Pause, Resume, UpdateForwarder, StartsAll, RestartsAll;
    match c
    case CreateServices(data, parses) =>
      CreateEffect(s, data, parses);
      if Create(s, data, parses).1 == Ok {
        AppendDistinct(NamesOf(s.services), TrimAll(NamesOf(data)));
      }
    case UpdateServices(data, attempts) => UpdateKeepsSynced(s, data, attempts);
    case DeleteServices(names) => DeleteEffect(s, names);
    case PauseServices(names) => PauseEffect(s, names);
    case ResumeServices(names, parses) => ResumeKeepsSynced(s, names, parses);
    case UpdateForwarders(updates, accepts) => UpdateForwarderEffect(s, updates, accepts);
  }

  lemma {:induction false} RunKeepsCovered(s: NodeState, cs: seq<Command>)
    requires Covered(s) && forall c | c in cs :: Legal(c)
    ensures Covered(Run(s, cs))
  {
    if cs != [] {
      RunKeepsCovered(s, cs[..|cs| - 1]);
      ExecKeepsCovered(Run(s, cs[..|cs| - 1]), cs[|cs| - 1]);
    }
  }

  ghost predicate AlwaysSynced(s: NodeState, cs: seq<Command>) {
    forall k: nat :: k <= |cs| ==> Synced(Run(s, cs[..k]))
  }

  ghost predicate AlwaysHolds(s: NodeState, cs: seq<Command>) {
    forall k: nat :: k < |cs| ==> Holds(Run(s, cs[..k]), cs[k])
  }

  lemma OneMoreCommand(s: NodeState, cs: seq<Command>, c: Command)
    ensures Run(s, cs + [c]) == Exec(Run(s, cs), c).0
    ensures AlwaysSynced(s, cs + [c]) <==> AlwaysSynced(s, cs) && Synced(Run(s, cs + [c]))
    ensures AlwaysHolds(s, cs + [c]) <==> AlwaysHolds(s, cs) && Holds(Run(s, cs), c)
  {
    hide Exec, Synced, Holds;
    var all := cs + [c];
    assert all[..|cs|] == cs && all[..|all|] == all;
    assert forall k: nat :: k <= |cs| ==> all[..k] == cs[..k];
    assert all[|cs|] == c;
  }

  /** Along a run the two stay in step throughout if and only if every guard holds when its command comes. */
  lemma {:induction false} RunKeepsSynced(s: NodeState, cs: seq<Command>)
    requires Synced(s) && forall c | c in cs :: Legal(c)
    ensures AlwaysSynced(s, cs) <==> AlwaysHolds(s, cs)
  {
    hide Exec, Synced, Holds, AlwaysHolds, Run, Legal;
    if cs == [] {
      NoCommands(s);
    } else {
      var rest, c := cs[..|cs| - 1], cs[|cs| - 1];
      assert cs == rest + [c];
      RunKeepsSynced(s, rest);
      OneMoreCommand(s, rest, c);
      assert rest[..|rest|] == rest;
      if Synced(Run(s, rest)) {
        ExecKeepsSynced(Run(s, rest), c);
      }
    }
  }

  lemma NoCommands(s: NodeState)
    requires Synced(s)
    ensures AlwaysSynced(s, []) && AlwaysHolds(s, [])
  {
  }

  /** A resume whose service does not start again leaves it configured and unregistered; so does an update. */
  lemma StartingFails()
    ensures var c := ServiceConfig("a", "", None, None, map["paused" := Flag(true)]);
            var s := NodeState(map["a" := Instance(false, "", None, None)], [c]);
            && Synced(s)
            && !Synced(Resume(s, ["a"], (k: nat) => false).0)
            && !Synced(Update(s, [c], (k: nat, attempt: nat) => ParseError).0)
  {
    hide Trim, Resume, Update;
    var c := ServiceConfig("a", "", None, None, map["paused" := Flag(true)]);
    var s := NodeState(map["a" := Instance(false, "", None, None)], [c]);
    NoSpaces();
    assert NamesOf([c]) == ["a"] && TrimAll(["a"]) == ["a"];
    assert NamesOf([c])[0] == "a" && "a" in ToSet(NamesOf([c]));
    var refused, broken := (k: nat) => false, (k: nat, attempt: nat) => ParseError;
    assert Find([c], "a") == 0;
    assert ["a"][..0] == [] && ToResume([c], ["a"]) == [c];
    assert !refused(0) && CheckResumable(s, ["a"], 0) == Ok;
    assert !RestartsAll(s, ["a"], refused);
    ResumeKeepsSynced(s, ["a"], refused);
    assert !Starts(broken, 0, 0) && CheckPresent(s.registry, ["a"], 0) == Ok;
    UpdateKeepsSynced(s, [c], broken);
  }

  /** A service that an update lost and a create brings back is configured twice. */
  lemma RecreatedTwice()
    ensures var c := ServiceConfig("a", "", None, None, map[]);
            var s := NodeState(map["a" := Instance(true, "", None, None)], [c]);
            var lost := Update(s, [c], (k: nat, attempt: nat) => ParseError).0;
            Create(lost, [c], (k: nat) => true) == (NodeState(s.registry, [c, c]), Ok)
  {
    hide Trim;
    var c := ServiceConfig("a", "", None, None, map[]);
    var s := NodeState(map["a" := Instance(true, "", None, None)], [c]);
    var broken, works := (k: nat, attempt: nat) => ParseError, (k: nat) => true;
    NoSpaces();
    assert NamesOf([c]) == ["a"] && TrimAll(["a"]) == ["a"] && Trimmed([c]) == [c];
    assert !Starts(broken, 0, 0) && CheckPresent(s.registry, ["a"], 0) == Ok;
    assert [c][..0] == [] && "a" in ToSet(["a"]);
    var lost := Update(s, [c], broken).0;
    assert lost == NodeState(map[], [c]);
    assert CheckNew(lost.registry, ["a"], works, 0) == Ok;
    assert RegisterAll(map[], [c]) == map["a" := Instance(true, "", None, None)];
    assert [c] + [c] == [c, c];
  }

  /** A pause that fails changes something if and only if it closed an open service before it came to one without a
      configuration entry; while the registry is covered it never does. */
  lemma FailedPause(s: NodeState, request: seq<string>)
    requires Pause(s, request).1 != Ok
    ensures var names := TrimAll(request);
            Pause(s, request).0 != s <==>
              && request != [] && CheckPresent(s.registry, names, 0) == Ok
              && exists i :: 0 <= i < FirstUnconfigured(s.services, names) && s.registry[names[i]].open
    ensures Covered(s) ==> Pause(s, request).0 == s
  {
    hide Trim, TrimAll;
    var names := TrimAll(request);
    if request != [] && CheckPresent(s.registry, names, 0) == Ok {
      var k := FirstUnconfigured(s.services, names);
      ClosedSame(s.registry, names[..k]);
      if Covered(s) {
        assert false;
      }
    }
  }

  lemma ClosedSame(registry: map<string, Instance>, names: seq<string>)
    requires forall i :: 0 <= i < |names| ==> names[i] in registry
    ensures CloseAll(registry, names) == registry <==> forall i :: 0 <= i < |names| ==> !registry[names[i]].open
  {
    if exists i :: 0 <= i < |names| && registry[names[i]].open {
      var i :| 0 <= i < |names| && registry[names[i]].open;
      assert names[i] in names;
      assert CloseAll(registry, names)[names[i]] != registry[names[i]];
    } else {
      assert forall n | n in names :: n in registry && registry[n].(open := false) == registry[n];
    }
  }

  // ---------------------------------------------------------------- pause and resume

  lemma FindByNames(a: seq<ServiceConfig>, b: seq<ServiceConfig>, n: string)
    requires NamesOf(a) == NamesOf(b)
    ensures Find(a, n) == Find(b, n)
  {
    var i, j := Find(a, n), Find(b, n);
    assert |a| == |b|;
    assert i < |a| ==> NamesOf(a)[i] == b[i].name;
    assert j < |b| ==> NamesOf(b)[j] == a[j].name;
  }

  lemma ApplyTwice(e: Edit, c: ServiceConfig)
    requires e.MarkPaused? || e.ClearPaused?
    ensures Apply(e, Apply(e, c)) == Apply(e, c)
  {
    assert c.metadata - {"paused"} - {"paused"} == c.metadata - {"paused"};
  }

  /** Marking or clearing touches the first entry of each named service and nothing else. */
  lemma {:induction false} EditAllAt(services: seq<ServiceConfig>, names: seq<string>, e: Edit, i: nat)
    requires (e.MarkPaused? || e.ClearPaused?) && i < |services|
    ensures EditAll(services, names, e)[i]
            == if services[i].name in names && Find(services, services[i].name) == i then Apply(e, services[i])
               else services[i]
  {
    hide Apply, Find;
    if names != [] {
      var rest, n := names[..|names| - 1], names[|names| - 1];
      EditAllAt(services, rest, e, i);
      EditAllNames(services, rest, e);
      FindByNames(EditAll(services, rest, e), services, n);
      ApplyTwice(e, services[i]);
      assert names == rest + [n];
    }
  }

  lemma PausedAfterPause(s: NodeState, request: seq<string>)
    requires Pause(s, request).1 == Ok
    ensures forall n | n in TrimAll(request) :: PausedIn(Pause(s, request).0.services, n) && n in s.registry
    ensures forall n | n in s.registry ::
              Pause(s, request).0.registry[n] == s.registry[n].(open := s.registry[n].open && n !in TrimAll(request))
  {
    hide Trim, TrimAll, EditAll;
    var names := TrimAll(request);
    forall n | n in names ensures PausedIn(EditAll(s.services, names, MarkPaused), n) && n in s.registry {
      var j :| 0 <= j < |names| && names[j] == n;
      EditAllNames(s.services, names, MarkPaused);
      FindByNames(EditAll(s.services, names, MarkPaused), s.services, n);
      EditAllAt(s.services, names, MarkPaused, Find(s.services, n));
    }
  }

  /** Clearing the marks of the services that are marked restores the list, if none of the named ones was before. */
  lemma MarksCleared(services: seq<ServiceConfig>, names: seq<string>)
    requires forall c | c in services && c.name in names :: "paused" !in c.metadata
    requires forall n | n in names :: PausedIn(EditAll(services, names, MarkPaused), n)
    ensures var marked := EditAll(services, names, MarkPaused);
            EditAll(marked, NamesOf(ToResume(marked, names)), ClearPaused) == services
  {
    hide EditAll, ToResume, Find, PausedIn;
    var marked := EditAll(services, names, MarkPaused);
    var cs := ToResume(marked, names);
    ToResumeNames(marked, names);
    EditAllNames(services, names, MarkPaused);
    forall i | 0 <= i < |services| ensures EditAll(marked, NamesOf(cs), ClearPaused)[i] == services[i] {
      EditAllAt(services, names, MarkPaused, i);
      EditAllAt(marked, NamesOf(cs), ClearPaused, i);
      assert marked[i].name == NamesOf(marked)[i] == services[i].name;
      FindByNames(marked, services, services[i].name);
      MarkUndone(services[i]);
    }
  }

  lemma MarkUndone(c: ServiceConfig)
    ensures "paused" !in c.metadata ==> Apply(ClearPaused, Apply(MarkPaused, c)) == c
  {
    if "paused" !in c.metadata {
      assert c.metadata["paused" := Flag(true)] - {"paused"} == c.metadata;
    }
  }

  /** A resume undoes a pause: the configuration list is as before, the services are registered and open. */
  lemma ResumeUndoesPause(s: NodeState, request: seq<string>, parses: nat -> bool)
    requires Pause(s, request).1 == Ok
    requires forall c | c in s.services && c.name in TrimAll(request) :: "paused" !in c.metadata
    requires Resume(Pause(s, request).0, request, parses).1 == Ok
    ensures Resume(Pause(s, request).0, request, parses).0.services == s.services
    ensures Resume(Pause(s, request).0, request, parses).0.registry.Keys == s.registry.Keys
    ensures forall n | n in TrimAll(request) ::
              n in s.registry && Resume(Pause(s, request).0, request, parses).0.registry[n].open
  {
    hide Trim, TrimAll, EditAll, RegisterAll, ToResume, FirstRefusal, PausedIn;
    var names := TrimAll(request);
    var p := Pause(s, request).0;
    var cs := ToResume(p.services, names);
    PausedAfterPause(s, request);
    PauseEffect(s, request);
    ToResumeNames(p.services, names);
    MarksCleared(s.services, names);
    var k := FirstRefusal(parses, 0, |cs|);
    assert cs[..k] == cs;
    RegisterAllKeys(p.registry, cs);
    forall n | n in names ensures n in RegisterAll(p.registry, cs) && RegisterAll(p.registry, cs)[n].open {
      RegisterAllValues(p.registry, cs, n);
    }
  }
}
