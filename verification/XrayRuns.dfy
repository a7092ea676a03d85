/** Whole runs of the hot commands: the tags stay distinct behind the leading "api" inbound, and a running process
    serves no inbound that its file lacks, and each that it serves with exactly the file's users. XrayServing says
    when it serves all of them. */
module XrayRuns {
  import opened Text
  import opened XrayConfig
  import opened XrayProperties

  datatype Op =
    | AddUserOp(tag: string, row: ClientRow, protocol: string, o: Outcome)
    | RemoveUserOp(tag: string, email: string, o: Outcome)
    | AddInboundOp(ib: Inbound, ao: AddOutcome)
    | RemoveInboundOp(tag: string, rmi: bool)
    | ApplyOp(inbounds: seq<Inbound>, start: StartOutcome, again: StartOutcome)
    | CrashOp

  function Exec(st: State, op: Op): (State, bool) {
    match op
    case AddUserOp(tag, row, protocol, o) => HotAddUser(st, tag, row, protocol, o)
    case RemoveUserOp(tag, email, o) => HotRemoveUser(st, tag, email, o)
    case AddInboundOp(ib, o) => HotAddInbound(st, ib, o)
    case RemoveInboundOp(tag, rmi) => HotRemoveInbound(st, tag, rmi)
    case ApplyOp(inbounds, o, again) => ApplyConfig(st, inbounds, o, again)
    case CrashOp => (st.(running := false, live := map[]), true)
  }

  function Run(st: State, ops: seq<Op>): State {
    if ops == [] then st else Exec(Run(st, ops[..|ops| - 1]), ops[|ops| - 1]).0
  }

  /** What the panel keeps to: an added email is new to its inbound, a removed one occurs at most once, the
      "api" tag is not used; and what the process does: it accepts a user only for an inbound it serves. */
  ghost predicate Admissible(st: State, op: Op) {
    match op
    case AddUserOp(tag, row, _, o) =>
      st.running && st.file.Some? ==>
        && (o.direct ==> tag in st.live)
        && Count(ClientsAt(st.file.value, tag), row.email) == 0
    case RemoveUserOp(tag, email, o) =>
      st.running && st.file.Some? ==>
        && (o.direct ==> tag in st.live)
        && Count(ClientsAt(st.file.value, tag), email) <= 1
    case AddInboundOp(ib, _) => ib.tag != API_TAG
    case RemoveInboundOp(tag, _) => tag != API_TAG
    case ApplyOp(inbounds, _, _) => TagsOk(BaseConfig(inbounds))
    case CrashOp => true
  }

  ghost predicate AdmissibleRun(st: State, ops: seq<Op>) {
    forall k :: 0 <= k < |ops| ==> Admissible(Run(st, ops[..k]), ops[k])
  }

  ghost predicate TagsOk(inbounds: seq<Inbound>) {
    UniqueTags(inbounds) && inbounds != [] && inbounds[0].tag == API_TAG
  }

  ghost predicate SameUsers(a: seq<ClientObj>, b: seq<ClientObj>) {
    forall email :: Count(a, email) == Count(b, email)
  }

  /** Each inbound the process serves is one of the file's and has the same users. */
  ghost predicate Serves(live: map<string, seq<ClientObj>>, inbounds: seq<Inbound>) {
    forall t :: t in live ==> Find(inbounds, t, false) < |inbounds| && SameUsers(live[t], ClientsAt(inbounds, t))
  }

  ghost predicate InStep(st: State) {
    && (st.running ==> st.file.Some? && Serves(st.live, st.file.value))
    && (!st.running ==> st.live == map[])
    && (st.file.Some? ==> TagsOk(st.file.value))
  }

  // ---------------------------------------------------------------- counting users

  lemma {:induction false} AppendedUsers(cs: seq<ClientObj>, c: ClientObj, email: string)
    ensures Count(cs + [c], email) == Count(cs, email) + if HasEmail(c, email) then 1 else 0
  {
    assert (cs + [c])[..|cs|] == cs;
  }

  lemma {:induction false} DroppedUsers(cs: seq<ClientObj>, dropped: string, email: string)
    ensures Count(DropEmail(cs, dropped), email) == if email == dropped then 0 else Count(cs, email)
  {
    if cs != [] {
      var c, d := cs[|cs| - 1], DropEmail(cs[..|cs| - 1], dropped);
      DroppedUsers(cs[..|cs| - 1], dropped, email);
      if HasEmail(c, dropped) {
        assert d + [] == d;
      } else {
        AppendedUsers(d, c, email);
      }
    }
  }

  lemma {:induction false} FixedUsers(ib: Inbound, cs: seq<ClientObj>)
    ensures SameUsers(FixAll(ib, cs), cs)
  {
    hide FixMethod;
    if cs != [] {
      var c, rest := cs[|cs| - 1], cs[..|cs| - 1];
      FixedUsers(ib, rest);
      assert FixAll(ib, cs) == FixAll(ib, rest) + [FixMethod(ib, c)];
      assert cs == rest + [c];
      forall email ensures Count(FixAll(ib, cs), email) == Count(cs, email) {
        AppendedUsers(FixAll(ib, rest), FixMethod(ib, c), email);
        AppendedUsers(rest, c, email);
      }
    }
  }

  // ---------------------------------------------------------------- edits of one inbound

  lemma EditedTag(inbounds: seq<Inbound>, r: seq<Inbound>, tag: string, cs: seq<ClientObj>, t: string)
    requires Edited(inbounds, r, tag, cs)
    ensures Find(r, t, false) == Find(inbounds, t, false)
    ensures t != tag ==> ClientsAt(r, t) == ClientsAt(inbounds, t)
    ensures TagsOk(inbounds) ==> TagsOk(r)
  {
    forall k | 0 <= k < |r| ensures r[k].tag == inbounds[k].tag {
      assert SameShape(inbounds[k], r[k]);
    }
    FindSame(inbounds, r, t);
  }

  lemma FindSame(a: seq<Inbound>, b: seq<Inbound>, t: string)
    requires |a| == |b| && forall k :: 0 <= k < |a| ==> a[k].tag == b[k].tag
    ensures Find(a, t, false) == Find(b, t, false)
  {
    var i, j := Find(a, t, false), Find(b, t, false);
  }

  /** A reload replaces what the process serves for that tag, or loses it, or leaves it. */
  lemma ReloadEffect(st: State, tag: string, o: Reload)
    requires st.file.Some?
    ensures var (st', ok) := ReloadInbound(st, tag, o);
            && st'.file == st.file && st'.running == st.running
            && (forall t :: t != tag ==> (t in st'.live <==> t in st.live))
            && (forall t :: t != tag && t in st.live ==> st'.live[t] == st.live[t])
            && (ok ==> tag in st'.live && Find(st.file.value, tag, false) < |st.file.value|
                       && SameUsers(st'.live[tag], ClientsAt(st.file.value, tag)))
            && (!ok && tag in st'.live ==> tag in st.live && st'.live[tag] == st.live[tag])
  {
    hide FixAll, Count;
    var i := Find(st.file.value, tag, false);
    if i < |st.file.value| {
      FixedUsers(st.file.value[i], ClientsOf(st.file.value[i]));
    }
  }

  /** The process keeps serving the file's users when only that tag's clients are edited and the process
      serves for that tag nothing, or the edited list. */
  lemma EditServes(live: map<string, seq<ClientObj>>, live': map<string, seq<ClientObj>>, inbounds: seq<Inbound>,
      r: seq<Inbound>, tag: string)
    requires Serves(live, inbounds) && Edited(inbounds, r, tag, ClientsAt(r, tag))
    requires forall t :: t != tag && t in live' ==> t in live && live'[t] == live[t]
    requires tag in live' ==> Find(inbounds, tag, false) < |inbounds| && SameUsers(live'[tag], ClientsAt(r, tag))
    ensures Serves(live', r)
    ensures TagsOk(inbounds) ==> TagsOk(r)
  {
    hide Edited, Find, SameUsers, ClientsAt, TagsOk;
    EditedTag(inbounds, r, tag, ClientsAt(r, tag), tag);
    forall t | t in live' ensures Find(r, t, false) < |r| && SameUsers(live'[t], ClientsAt(r, t)) {
      EditedTag(inbounds, r, tag, ClientsAt(r, tag), t);
      assert |r| == |inbounds| by { EditedLength(inbounds, r, tag, ClientsAt(r, tag)); }
    }
  }

  lemma EditedLength(inbounds: seq<Inbound>, r: seq<Inbound>, tag: string, cs: seq<ClientObj>)
    requires Edited(inbounds, r, tag, cs)
    ensures |r| == |inbounds|
  {
  }

  // ---------------------------------------------------------------- the user commands

  lemma AddedFile(inbounds: seq<Inbound>, tag: string, protocol: string, row: ClientRow, c: ClientObj,
      cs: seq<ClientObj>)
    requires UniqueTags(inbounds) && Find(inbounds, tag, false) < |inbounds|
    requires HasEmail(c, row.email) && SameUsers(cs, ClientsAt(inbounds, tag))
    requires forall e :: HasEmail(c, e) <==> e == row.email
    ensures var r := AppendClient(inbounds, tag, protocol, row);
            Edited(inbounds, r, tag, ClientsAt(r, tag)) && SameUsers(cs + [c], ClientsAt(r, tag))
  {
    hide AppendClient, ClientFor, Find, Count, Edited, ClientsAt;
    var r := AppendClient(inbounds, tag, protocol, row);
    var was, written := ClientsAt(inbounds, tag), ClientFor(protocol, MethodAt(inbounds, tag), row);
    AppendEdits(inbounds, tag, protocol, row);
    EditedFind(inbounds, r, tag, was + [written]);
    forall e ensures Count(cs + [c], e) == Count(was + [written], e) {
      AppendedUsers(cs, c, e);
      AppendedUsers(was, written, e);
    }
  }

  lemma RemovedFile(inbounds: seq<Inbound>, tag: string, email: string, cs: seq<ClientObj>)
    requires UniqueTags(inbounds) && Find(inbounds, tag, false) < |inbounds| && SameUsers(cs, ClientsAt(inbounds, tag))
    ensures var r := RemoveEmail(inbounds, tag, email);
            Edited(inbounds, r, tag, ClientsAt(r, tag)) && SameUsers(DropEmail(cs, email), ClientsAt(r, tag))
  {
    hide RemoveEmail, DropEmail, Find, Count, Edited, ClientsAt;
    var r := RemoveEmail(inbounds, tag, email);
    var was := ClientsAt(inbounds, tag);
    RemoveEdits(inbounds, tag, email);
    EditedFind(inbounds, r, tag, DropEmail(was, email));
    forall e ensures Count(DropEmail(cs, email), e) == Count(DropEmail(was, email), e) {
      DroppedUsers(cs, email, e);
      DroppedUsers(was, email, e);
    }
  }

  /** The served users after a user command: the new list, or for a failure at most the old one. */
  lemma AddUserLive(st: State, tag: string, row: ClientRow, protocol: string, o: Outcome)
    requires st.running && st.file.Some? && UniqueTags(st.file.value)
    ensures var (st', ok) := HotAddUser(st, tag, row, protocol, o);
            && st'.running
            && (forall t :: t != tag && t in st'.live ==> t in st.live && st'.live[t] == st.live[t])
            && (ok && !o.direct ==>
                  st'.file.Some? && Find(st'.file.value, tag, false) < |st'.file.value| && tag in st'.live
                      && SameUsers(st'.live[tag], ClientsAt(st'.file.value, tag)))
            && (ok && o.direct && tag in st.live ==>
                  tag in st'.live && st'.live[tag] == st.live[tag] + [ClientFor(protocol, "", row)])
            && (!ok && tag in st'.live ==>
                  || (tag in st.live && st'.live[tag] == st.live[tag])
                  || (st'.file.Some? && Find(st'.file.value, tag, false) < |st'.file.value|
                        && SameUsers(st'.live[tag], ClientsAt(st'.file.value, tag))))
  {
    hide AppendClient, RemoveEmail, ReloadInbound, SameUsers, ClientsAt, Find, ClientFor;
    var written := Update(st, AppendClient(st.file.value, tag, protocol, row));
    ReloadEffect(written, tag, o.first);
    var reloaded := ReloadInbound(written, tag, o.first).0;
    var reverted := Update(reloaded, RemoveEmail(reloaded.file.value, tag, row.email));
    ReloadEffect(reverted, tag, o.second);
  }

  lemma RemoveUserLive(st: State, tag: string, email: string, o: Outcome)
    requires st.running && st.file.Some? && UniqueTags(st.file.value)
    ensures var (st', ok) := HotRemoveUser(st, tag, email, o);
            && st'.running
            && (forall t :: t != tag && t in st'.live ==> t in st.live && st'.live[t] == st.live[t])
            && (ok && !o.direct ==>
                  st'.file.Some? && Find(st'.file.value, tag, false) < |st'.file.value| && tag in st'.live
                      && SameUsers(st'.live[tag], ClientsAt(st'.file.value, tag)))
            && (ok && o.direct && tag in st.live ==> tag in st'.live && st'.live[tag] == DropEmail(st.live[tag], email))
            && (!ok && tag in st'.live ==>
                  || (tag in st.live && st'.live[tag] == st.live[tag])
                  || (st'.file.Some? && Find(st'.file.value, tag, false) < |st'.file.value|
                        && SameUsers(st'.live[tag], ClientsAt(st'.file.value, tag))))
  {
    hide RemoveEmail, PutBack, ReloadInbound, SameUsers, ClientsAt, Find, DropEmail, RemovedClient;
    var written := Update(st, RemoveEmail(st.file.value, tag, email));
    ReloadEffect(written, tag, o.first);
    var reloaded := ReloadInbound(written, tag, o.first).0;
    var removed := RemovedClient(st.file.value, tag, email);
    if removed.Some? {
      var restored := Update(reloaded, PutBack(reloaded.file.value, tag, removed.value));
      ReloadEffect(restored, tag, o.second);
    }
  }

  lemma UserCommandInStep(st: State, op: Op)
    requires InStep(st) && st.running && Admissible(st, op) && (op.AddUserOp? || op.RemoveUserOp?)
    ensures InStep(Exec(st, op).0)
  {
    hide HotAddUser, HotRemoveUser, AppendClient, RemoveEmail, ClientFor, Find, Edited, Count, ClientsAt, DropEmail;
    var before, tag := st.file.value, op.tag;
    var (st', ok) := Exec(st, op);
    match op
    case AddUserOp(_, row, protocol, o) =>
      AddUserLive(st, tag, row, protocol, o);
      if ok {
        SucceededFile(st, tag, protocol, AddUser(row, o));
        AppendEdits(before, tag, protocol, row);
        EditedFind(before, st'.file.value, tag, ClientsAt(before, tag)
            + [ClientFor(protocol, MethodAt(before, tag), row)]);
        if tag in st.live {
          AddedFile(before, tag, protocol, row, ClientFor(protocol, "", row), st.live[tag]);
        }
        EditedServed(before, st'.file.value, tag, ClientsAt(before, tag)
            + [ClientFor(protocol, MethodAt(before, tag), row)]);
      } else {
        FailedAddUser(st, tag, row, protocol, o);
      }
      EditedLength(before, st'.file.value, tag, ClientsAt(st'.file.value, tag));
      EditServes(st.live, st'.live, before, st'.file.value, tag);
    case RemoveUserOp(_, email, o) =>
      RemoveUserLive(st, tag, email, o);
      if ok {
        SucceededFile(st, tag, "", RemoveUser(email, o));
        RemoveEdits(before, tag, email);
        EditedFind(before, st'.file.value, tag, DropEmail(ClientsAt(before, tag), email));
        if tag in st.live {
          RemovedFile(before, tag, email, st.live[tag]);
        }
        EditedServed(before, st'.file.value, tag, DropEmail(ClientsAt(before, tag), email));
      } else {
        FailedRemoveUser(st, tag, email, o);
        MultisetUsers(ClientsAt(st'.file.value, tag), ClientsAt(before, tag));
      }
      EditedLength(before, st'.file.value, tag, ClientsAt(st'.file.value, tag));
      EditServes(st.live, st'.live, before, st'.file.value, tag);
  }

  lemma EditedServed(inbounds: seq<Inbound>, r: seq<Inbound>, tag: string, cs: seq<ClientObj>)
    requires Edited(inbounds, r, tag, cs) && UniqueTags(inbounds)
    ensures Edited(inbounds, r, tag, ClientsAt(r, tag)) && |r| == |inbounds|
  {
    EditedFind(inbounds, r, tag, cs);
  }

  lemma MultisetUsers(a: seq<ClientObj>, b: seq<ClientObj>)
    requires multiset(a) == multiset(b)
    ensures SameUsers(a, b)
  {
    hide Count;
    forall email ensures Count(a, email) == Count(b, email) {
      CountByMultiset(a, b, email);
    }
  }

  // ---------------------------------------------------------------- the inbound commands

  lemma {:induction false} DroppedTags(inbounds: seq<Inbound>, tag: string)
    ensures forall ib :: ib in DropTag(inbounds, tag) <==> ib in inbounds && ib.tag != tag
    ensures UniqueTags(inbounds) ==> UniqueTags(DropTag(inbounds, tag))
    ensures TagsOk(inbounds) && tag != API_TAG ==> TagsOk(DropTag(inbounds, tag))
  {
    hide UniqueTags, TagsOk;
    if inbounds == [] {
      NoTags();
    } else {
      var rest, ib := inbounds[..|inbounds| - 1], inbounds[|inbounds| - 1];
      assert inbounds == rest + [ib];
      DroppedTags(rest, tag);
      var kept := DropTag(rest, tag);
      assert DropTag(inbounds, tag) == if ib.tag == tag then kept + [] else kept + [ib];
      assert kept + [] == kept;
      SplitTags(rest, ib);
      if forall x :: x in rest ==> x.tag != ib.tag {
        JoinTags(kept, ib);
      }
    }
  }

  lemma NoTags()
    ensures UniqueTags([]) && !TagsOk([])
  {
  }

  lemma SplitTags(rest: seq<Inbound>, ib: Inbound)
    ensures UniqueTags(rest + [ib]) ==> UniqueTags(rest) && forall x :: x in rest ==> x.tag != ib.tag
    ensures TagsOk(rest + [ib]) ==> UniqueTags(rest + [ib]) && (TagsOk(rest) || (rest == [] && ib.tag == API_TAG))
  {
    var all := rest + [ib];
    if UniqueTags(all) {
      forall x | x in rest ensures x.tag != ib.tag {
        var i :| 0 <= i < |rest| && rest[i] == x;
        assert all[i].tag != all[|rest|].tag;
      }
      assert forall i :: 0 <= i < |rest| ==> all[i] == rest[i];
    }
  }

  lemma JoinTags(kept: seq<Inbound>, ib: Inbound)
    ensures UniqueTags(kept) && (forall x :: x in kept ==> x.tag != ib.tag) ==> UniqueTags(kept + [ib])
    ensures TagsOk(kept) && (forall x :: x in kept ==> x.tag != ib.tag) ==> TagsOk(kept + [ib])
    ensures kept == [] && ib.tag == API_TAG ==> TagsOk(kept + [ib])
  {
  }

  lemma AppendedTags(inbounds: seq<Inbound>, ib: Inbound)
    requires UniqueTags(inbounds) && forall x :: x in inbounds ==> x.tag != ib.tag
    ensures UniqueTags(inbounds + [ib])
    ensures TagsOk(inbounds) ==> TagsOk(inbounds + [ib])
  {
  }

  /** With distinct tags, an inbound of the list is the one its tag finds. */
  lemma FoundBy(inbounds: seq<Inbound>, ib: Inbound)
    requires UniqueTags(inbounds) && ib in inbounds
    ensures Find(inbounds, ib.tag, false) < |inbounds| && inbounds[Find(inbounds, ib.tag, false)] == ib
  {
    var k :| 0 <= k < |inbounds| && inbounds[k] == ib;
    FindIs(inbounds, ib.tag, false, k) by {
      assert forall j :: 0 <= j < k ==> inbounds[j].tag != inbounds[k].tag;
    }
  }

  /** Inbounds that both lists have serve the same clients from either. */
  lemma SharedInbound(a: seq<Inbound>, b: seq<Inbound>, t: string)
    requires UniqueTags(a) && UniqueTags(b) && Find(a, t, false) < |a| && a[Find(a, t, false)] in b
    ensures Find(b, t, false) < |b| && ClientsAt(b, t) == ClientsAt(a, t)
  {
    FoundBy(b, a[Find(a, t, false)]);
  }

  lemma LoadedServes(inbounds: seq<Inbound>)
    ensures Serves(Loaded(inbounds), inbounds)
  {
    hide Count;
    forall t | t in Loaded(inbounds)
      ensures Find(inbounds, t, false) < |inbounds| && Loaded(inbounds)[t] == ClientsAt(inbounds, t)
    {
      var i := Find(inbounds, t, false);
      assert exists ib :: ib in inbounds && ib.tag == t;
    }
  }

  lemma StartedInStep(st: State, o: StartOutcome)
    requires st.file.Some? ==> TagsOk(st.file.value)
    ensures InStep(Started(st, o))
  {
    hide TagsOk, Loaded, Serves;
    if st.file.Some? {
      LoadedServes(st.file.value);
    }
  }

  lemma ReplacedTag(inbounds: seq<Inbound>, ib: Inbound)
    requires TagsOk(inbounds) && ib.tag != API_TAG
    ensures TagsOk(DropTag(inbounds, ib.tag) + [ib])
  {
    hide DropTag, TagsOk;
    DroppedTags(inbounds, ib.tag);
    assert UniqueTags(inbounds) by { UniqueOf(inbounds); }
    AppendedTags(DropTag(inbounds, ib.tag), ib);
  }

  lemma UniqueOf(inbounds: seq<Inbound>)
    requires TagsOk(inbounds)
    ensures UniqueTags(inbounds)
  {
  }

  lemma AddInboundInStep(st: State, ib: Inbound, o: AddOutcome)
    requires InStep(st) && ib.tag != API_TAG
    ensures InStep(HotAddInbound(st, ib, o).0)
  {
    hide DropTag, Started, Find, SameUsers, ClientsAt, UniqueTags;
    if !st.running {
      var base := if st.file == None then BaseConfig([]) else st.file.value;
      assert UniqueTags([ApiInbound]) by { SingleUnique(ApiInbound); }
      assert BaseConfig([]) == [ApiInbound];
      ReplacedTag(base, ib);
      StartedInStep(Update(st, DropTag(base, ib.tag) + [ib]), o.start);
    } else {
      var before := st.file.value;
      var after := DropTag(before, ib.tag) + [ib];
      ReplacedTag(before, ib);
      DroppedTags(before, ib.tag);
      var live' := st.live[ib.tag := ClientsOf(ib)];
      forall t | t in live' ensures Find(after, t, false) < |after| && SameUsers(live'[t], ClientsAt(after, t)) {
        if t == ib.tag {
          FoundBy(after, ib);
          OwnClients(after, ib);
        } else {
          SharedInbound(before, after, t);
        }
      }
    }
  }

  /** An inbound that is added with the panel's merge agrees with it from the start. */
  lemma AddedInboundAgrees(st: State, ib: Inbound, ssMethod: string, rows: seq<ClientRow>, o: AddOutcome)
    requires InStep(st) && ib.tag != API_TAG && HotAddInbound(st, ib, o).1
    requires ib.settings == Some(Settings(ssMethod, Merged(ib.protocol, ssMethod, rows))) && DistinctEmails(rows)
    ensures Agrees(HotAddInbound(st, ib, o).0, ib.tag, ib.protocol, ssMethod, rows)
  {
    hide DropTag, Find, Merged, Serves, Loaded;
    AddInboundInStep(st, ib, o);
    var st' := HotAddInbound(st, ib, o).0;
    var base := if st.file == None then BaseConfig([]) else st.file.value;
    assert st'.file == Some(DropTag(base, ib.tag) + [ib]);
    FoundBy(st'.file.value, ib);
  }

  lemma SingleUnique(ib: Inbound)
    ensures UniqueTags([ib])
  {
  }

  lemma OwnClients(inbounds: seq<Inbound>, ib: Inbound)
    requires Find(inbounds, ib.tag, false) < |inbounds| && inbounds[Find(inbounds, ib.tag, false)] == ib
    ensures SameUsers(ClientsOf(ib), ClientsAt(inbounds, ib.tag))
  {
  }

  lemma RemoveInboundInStep(st: State, tag: string, rmi: bool)
    requires InStep(st) && tag != API_TAG
    ensures InStep(HotRemoveInbound(st, tag, rmi).0)
  {
    hide DropTag, Find, SameUsers, ClientsAt, UniqueTags;
    if st.running && rmi {
      var before := st.file.value;
      var after := DropTag(before, tag);
      DroppedTags(before, tag);
      var live' := st.live - {tag};
      forall t | t in live' ensures Find(after, t, false) < |after| && SameUsers(live'[t], ClientsAt(after, t)) {
        SharedInbound(before, after, t);
      }
    }
  }

  /** A failed ApplyConfig puts back the file that was there, and only a file that was there. */
  lemma FailedApply(st: State, inbounds: seq<Inbound>, o: StartOutcome, again: StartOutcome)
    requires InStep(st) && TagsOk(BaseConfig(inbounds))
    ensures InStep(ApplyConfig(st, inbounds, o, again).0)
    ensures !ApplyConfig(st, inbounds, o, again).1 ==>
              (ApplyConfig(st, inbounds, o, again).0.file == st.file <==> st.file.Some?)
    ensures ApplyConfig(st, inbounds, o, again).1 ==>
              ApplyConfig(st, inbounds, o, again).0.file == Some(BaseConfig(inbounds))
  {
    hide Loaded, TagsOk, BaseConfig, Serves;
    var written := Update(st, BaseConfig(inbounds));
    StartedInStep(written, o);
    if st.file.Some? {
      StartedInStep(Update(Started(written, o), st.file.value), again);
    }
  }

  lemma ExecInStep(st: State, op: Op)
    requires InStep(st) && Admissible(st, op)
    ensures InStep(Exec(st, op).0)
  {
    hide HotAddUser, HotRemoveUser, HotAddInbound, HotRemoveInbound, ApplyConfig, TagsOk, Serves, Count;
    match op
    case AddUserOp(tag, row, protocol, o) =>
      if st.running { UserCommandInStep(st, op); } else { StoppedRefuses(st, op); }
    case RemoveUserOp(tag, email, o) =>
      if st.running { UserCommandInStep(st, op); } else { StoppedRefuses(st, op); }
    case AddInboundOp(ib, o) => AddInboundInStep(st, ib, o);
    case RemoveInboundOp(tag, rmi) => RemoveInboundInStep(st, tag, rmi);
    case ApplyOp(inbounds, o, again) => FailedApply(st, inbounds, o, again);
    case CrashOp =>
  }

  lemma StoppedRefuses(st: State, op: Op)
    requires !st.running && (op.AddUserOp? || op.RemoveUserOp?)
    ensures Exec(st, op) == (st, false)
  {
  }

  /** Over every run of hot commands, full configurations and crashes, whatever the external commands answer:
      the tags stay distinct with "api" in front, and a running process serves no inbound that its file lacks, and
      each that it serves with exactly the file's users. */
  lemma {:induction false} RunInStep(st: State, ops: seq<Op>)
    requires InStep(st) && AdmissibleRun(st, ops)
    ensures InStep(Run(st, ops))
  {
    hide Exec, InStep, Admissible;
    if ops != [] {
      var before := ops[..|ops| - 1];
      assert forall k :: 0 <= k < |before| ==> before[..k] == ops[..k];
      RunInStep(st, before);
      ExecInStep(Run(st, before), ops[|ops| - 1]);
    }
  }
}
