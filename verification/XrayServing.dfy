/** When a running process serves all that its file lists, and which outcomes of the hot commands lose an inbound. */
module XrayServing {
  import opened Text
  import opened XrayConfig
  import opened XrayProperties
  import opened XrayRuns

  function Tags(inbounds: seq<Inbound>): set<string> { set ib | ib in inbounds :: ib.tag }

  /** A running process serves exactly the file's inbounds, each with exactly the file's users. */
  ghost predicate Full(st: State) {
    InStep(st) && (st.running ==> st.live.Keys == Tags(st.file.value))
  }

  /** Whether a tag that is served still is after reloads that answer so: the last adding decides, and without it
      whether a removal succeeded. */
  predicate ReloadsServe(o: Outcome, second: bool) {
    || o.first.adi
    || (!second && !o.first.rmi)
    || (second && (o.second.adi || (!o.first.rmi && !o.second.rmi)))
  }

  /** A user command keeps serving its inbound: it takes the fast way, its reloads leave the inbound up, or there is no
      such inbound. A removal that removed no client reloads only once. */
  predicate Serving(st: State, op: Op) {
    match op
    case AddUserOp(tag, _, _, o) =>
      st.running && st.file.Some? ==> o.direct || tag !in Tags(st.file.value) || ReloadsServe(o, true)
    case RemoveUserOp(tag, email, o) =>
      st.running && st.file.Some? ==>
        o.direct || tag !in Tags(st.file.value) || ReloadsServe(o, RemovedClient(st.file.value, tag, email).Some?)
    case _ => true
  }

  lemma TagFound(inbounds: seq<Inbound>, tag: string)
    ensures tag in Tags(inbounds) <==> Find(inbounds, tag, false) < |inbounds|
  {
    var i := Find(inbounds, tag, false);
    if i < |inbounds| {
      assert inbounds[i] in inbounds;
    }
  }

  lemma SameTags(a: seq<Inbound>, b: seq<Inbound>)
    requires |a| == |b| && forall k :: 0 <= k < |a| ==> b[k].tag == a[k].tag
    ensures Tags(a) == Tags(b)
  {
    forall t ensures t in Tags(a) <==> t in Tags(b) {
      if t in Tags(a) {
        var k :| 0 <= k < |a| && a[k].tag == t;
        assert b[k] in b;
      }
      if t in Tags(b) {
        var k :| 0 <= k < |b| && b[k].tag == t;
        assert a[k] in a;
      }
    }
  }

  lemma EditsKeepTags(inbounds: seq<Inbound>, tag: string, protocol: string, row: ClientRow, email: string,
      c: ClientObj)
    ensures Tags(AppendClient(inbounds, tag, protocol, row)) == Tags(inbounds)
    ensures Tags(RemoveEmail(inbounds, tag, email)) == Tags(inbounds)
    ensures Tags(PutBack(inbounds, tag, c)) == Tags(inbounds)
  {
    hide ClientFor, DropEmail;
    SameTags(inbounds, AppendClient(inbounds, tag, protocol, row));
    SameTags(inbounds, RemoveEmail(inbounds, tag, email));
    SameTags(inbounds, PutBack(inbounds, tag, c));
  }

  /** The tags served after a reload. */
  function ReloadedKeys(keys: set<string>, tag: string, there: bool, o: Reload): set<string> {
    if !there then keys else if o.adi then keys + {tag} else if o.rmi then keys - {tag} else keys
  }

  lemma ReloadKeys(st: State, tag: string, o: Reload)
    requires st.file.Some?
    ensures var (st', ok) := ReloadInbound(st, tag, o);
            && st'.file == st.file && st'.running == st.running
            && st'.live.Keys == ReloadedKeys(st.live.Keys, tag, tag in Tags(st.file.value), o)
            && ok == (tag in Tags(st.file.value) && o.adi)
  {
    hide FixAll, Find;
    TagFound(st.file.value, tag);
  }

  lemma AddUserKeys(st: State, tag: string, row: ClientRow, protocol: string, o: Outcome)
    requires st.running && st.file.Some?
    ensures var (st', there) := (HotAddUser(st, tag, row, protocol, o).0, tag in Tags(st.file.value));
            && st'.running && st'.file.Some? && Tags(st'.file.value) == Tags(st.file.value)
            && st'.live.Keys ==
               if o.direct then st.live.Keys + {tag}
               else if there && o.first.adi then st.live.Keys + {tag}
               else ReloadedKeys(ReloadedKeys(st.live.Keys, tag, there, o.first), tag, there, o.second)
  {
    hide AppendClient, RemoveEmail, ReloadInbound, ClientFor, Tags;
    var file := st.file.value;
    var written := Update(st, AppendClient(file, tag, protocol, row));
    EditsKeepTags(file, tag, protocol, row, row.email, map[]);
    EditsKeepTags(written.file.value, tag, protocol, row, row.email, map[]);
    ReloadKeys(written, tag, o.first);
    var reloaded := ReloadInbound(written, tag, o.first).0;
    ReloadKeys(Update(reloaded, RemoveEmail(reloaded.file.value, tag, row.email)), tag, o.second);
  }

  lemma RemoveUserKeys(st: State, tag: string, email: string, o: Outcome)
    requires st.running && st.file.Some?
    ensures var (st', there) := (HotRemoveUser(st, tag, email, o).0, tag in Tags(st.file.value));
            && st'.running && st'.file.Some? && Tags(st'.file.value) == Tags(st.file.value)
            && st'.live.Keys ==
               if o.direct then st.live.Keys + {tag}
               else if there && o.first.adi then st.live.Keys + {tag}
               else
                 var keys := ReloadedKeys(st.live.Keys, tag, there, o.first);
                 if RemovedClient(st.file.value, tag, email) == None then keys
                     else ReloadedKeys(keys, tag, there, o.second)
  {
    hide RemoveEmail, PutBack, ReloadInbound, RemovedClient, DropEmail, Tags;
    var file, removed := st.file.value, RemovedClient(st.file.value, tag, email);
    var written := Update(st, RemoveEmail(file, tag, email));
    var c := if removed.Some? then removed.value else map[];
    EditsKeepTags(file, tag, "", ClientRow("", "", "", 0), email, c);
    EditsKeepTags(written.file.value, tag, "", ClientRow("", "", "", 0), email, c);
    ReloadKeys(written, tag, o.first);
    var reloaded := ReloadInbound(written, tag, o.first).0;
    ReloadKeys(Update(reloaded, PutBack(reloaded.file.value, tag, c)), tag, o.second);
  }

  lemma {:induction false} DroppedTagSet(inbounds: seq<Inbound>, tag: string)
    ensures Tags(DropTag(inbounds, tag)) == Tags(inbounds) - {tag}
  {
    hide DropTag;
    DroppedTags(inbounds, tag);
    forall t ensures t in Tags(DropTag(inbounds, tag)) <==> t in Tags(inbounds) && t != tag {
      if t in Tags(inbounds) && t != tag {
        var ib :| ib in inbounds && ib.tag == t;
        assert ib in DropTag(inbounds, tag);
      }
    }
  }

  lemma ReplacedTagSet(inbounds: seq<Inbound>, ib: Inbound)
    ensures Tags(DropTag(inbounds, ib.tag) + [ib]) == Tags(inbounds) + {ib.tag}
  {
    hide DropTag;
    DroppedTagSet(inbounds, ib.tag);
    var kept := DropTag(inbounds, ib.tag);
    forall t ensures t in Tags(kept + [ib]) <==> t in Tags(kept) || t == ib.tag {
      if t in Tags(kept) {
        var x :| x in kept && x.tag == t;
        assert x in kept + [ib];
      }
      assert ib in kept + [ib];
    }
  }

  lemma LoadedTags(inbounds: seq<Inbound>)
    ensures Loaded(inbounds).Keys == Tags(inbounds)
  {
  }

  lemma StartedServes(st: State, o: StartOutcome)
    ensures var b := Started(st, o); b.running ==> b.file.Some? && b.live.Keys == Tags(b.file.value)
  {
    hide Loaded, Tags;
    if st.file.Some? {
      LoadedTags(st.file.value);
    }
  }

  lemma InboundCommandsServe(st: State, op: Op)
    requires Full(st) && (op.AddInboundOp? || op.RemoveInboundOp? || op.ApplyOp? || op.CrashOp?)
    ensures var b := Exec(st, op).0; b.running ==> b.file.Some? && b.live.Keys == Tags(b.file.value)
  {
    hide DropTag, Started, Tags, Serves, TagsOk;
    match op
    case AddInboundOp(ib, o) =>
      if st.running {
        ReplacedTagSet(st.file.value, ib);
      } else {
        var base := if st.file == None then BaseConfig([]) else st.file.value;
        StartedServes(Update(st, DropTag(base, ib.tag) + [ib]), o.start);
      }
    case RemoveInboundOp(tag, rmi) =>
      if st.running {
        DroppedTagSet(st.file.value, tag);
      }
    case ApplyOp(inbounds, o, again) =>
      var written := Update(st, BaseConfig(inbounds));
      StartedServes(written, o);
      if st.file.Some? {
        StartedServes(Update(Started(written, o), st.file.value), again);
      }
    case CrashOp =>
  }

  /** A command keeps a running process serving all that its file lists if and only if it is no user command whose
      reloads lose the inbound. */
  lemma ExecKeepsFull(st: State, op: Op)
    requires Full(st) && Admissible(st, op)
    ensures Full(Exec(st, op).0) <==> Serving(st, op)
  {
    hide InStep, Admissible, Tags, HotAddUser, HotRemoveUser, HotAddInbound, HotRemoveInbound, ApplyConfig,
         RemovedClient;
    ExecInStep(st, op);
    RunsOnFile(st);
    match op
    case AddUserOp(tag, row, protocol, o) =>
      if st.running {
        AddUserKeys(st, tag, row, protocol, o);
        DirectIsServed(st, op);
      } else {
        StoppedRefuses(st, op);
      }
    case RemoveUserOp(tag, email, o) =>
      if st.running {
        RemoveUserKeys(st, tag, email, o);
        DirectIsServed(st, op);
      } else {
        StoppedRefuses(st, op);
      }
    case _ => InboundCommandsServe(st, op);
  }

  lemma RunsOnFile(st: State)
    requires InStep(st)
    ensures st.running ==> st.file.Some?
  {
    hide Serves, TagsOk;
  }

  lemma DirectIsServed(st: State, op: Op)
    requires Admissible(st, op) && st.running && st.file.Some? && (op.AddUserOp? || op.RemoveUserOp?)
    ensures op.o.direct ==> op.tag in st.live
  {
    hide Count, ClientsAt;
  }

  ghost predicate AlwaysFull(st: State, ops: seq<Op>) {
    forall k: nat :: k <= |ops| ==> Full(Run(st, ops[..k]))
  }

  ghost predicate AlwaysServing(st: State, ops: seq<Op>) {
    forall k: nat :: k < |ops| ==> Serving(Run(st, ops[..k]), ops[k])
  }

  lemma OneMoreOp(st: State, ops: seq<Op>, op: Op)
    ensures Run(st, ops + [op]) == Exec(Run(st, ops), op).0
    ensures AlwaysFull(st, ops + [op]) <==> AlwaysFull(st, ops) && Full(Run(st, ops + [op]))
    ensures AlwaysServing(st, ops + [op]) <==> AlwaysServing(st, ops) && Serving(Run(st, ops), op)
    ensures AdmissibleRun(st, ops + [op]) <==> AdmissibleRun(st, ops) && Admissible(Run(st, ops), op)
  {
    hide Exec, Full, Serving, Admissible;
    var all := ops + [op];
    assert all[..|ops|] == ops && all[..|all|] == all;
    assert forall k: nat :: k <= |ops| ==> all[..k] == ops[..k];
    assert all[|ops|] == op;
  }

  /** Along a run a running process serves exactly what its file lists throughout if and only if no user command's
      reloads lose an inbound. */
  lemma {:induction false} RunKeepsFull(st: State, ops: seq<Op>)
    requires Full(st) && AdmissibleRun(st, ops)
    ensures AlwaysFull(st, ops) <==> AlwaysServing(st, ops)
  {
    hide Exec, Full, Serving, Admissible, AlwaysServing, AdmissibleRun, Run;
    if ops == [] {
      NoOps(st);
    } else {
      var rest, op := ops[..|ops| - 1], ops[|ops| - 1];
      assert ops == rest + [op];
      OneMoreOp(st, rest, op);
      RunKeepsFull(st, rest);
      assert rest[..|rest|] == rest;
      if Full(Run(st, rest)) {
        ExecKeepsFull(Run(st, rest), op);
      }
    }
  }

  lemma NoOps(st: State)
    requires Full(st)
    ensures AlwaysFull(st, []) && AlwaysServing(st, [])
  {
  }

  /** An added user whose fast command is refused, and whose reloads remove the inbound and do not add it again: the
      process runs on without the inbound that the file still lists. */
  lemma InboundIsLost()
    ensures var ib := Inbound("a", "vless", Some(Settings("", [])));
            var st := State(Some([ApiInbound, ib]), true, map[API_TAG := [], "a" := []]);
            var op := AddUserOp("a", ClientRow("u", "id", "", 0), "vless",
                Outcome(false, Reload(true, false), Reload(true, false)));
            && Full(st) && Admissible(st, op) && !Full(Exec(st, op).0)
            && Exec(st, op).0.running && "a" !in Exec(st, op).0.live && "a" in Tags(Exec(st, op).0.file.value)
  {
    var ib := Inbound("a", "vless", Some(Settings("", [])));
    var st := State(Some([ApiInbound, ib]), true, map[API_TAG := [], "a" := []]);
    var op := AddUserOp("a", ClientRow("u", "id", "", 0), "vless",
        Outcome(false, Reload(true, false), Reload(true, false)));
    TwoInbounds(ib);
    assert Full(st) && Admissible(st, op) && "a" in Tags(st.file.value);
    AddUserKeys(st, "a", op.row, "vless", op.o);
    ExecKeepsFull(st, op);
  }

  lemma TwoInbounds(ib: Inbound)
    requires ib == Inbound("a", "vless", Some(Settings("", [])))
    ensures var file := [ApiInbound, ib];
            && TagsOk(file) && Tags(file) == {API_TAG, "a"} && Find(file, API_TAG, false) == 0
                  && Find(file, "a", false) == 1
            && ClientsAt(file, API_TAG) == [] && ClientsAt(file, "a") == []
  {
    var file := [ApiInbound, ib];
    assert file[0] == ApiInbound && file[1] == ib && |API_TAG| == 3;
    FindIs(file, API_TAG, false, 0);
    FindIs(file, "a", false, 1);
    assert file[0] in file && file[1] in file;
  }
}
