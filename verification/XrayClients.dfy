/** What a client object says, field by field, for every protocol: in the panel's merge, in what the node appends, and
    after a reload has completed it (go-backend/service/xray_inbound.go, go-node/x/xray/manager.go). */
module XrayClients {
  import opened Text
  import opened Filters
  import opened XrayConfig
  import opened XrayProperties

  /** The object has exactly the fields of the protocol, with the row's values. A client of a shadowsocks inbound with a
      method has a method of its own: none of the 2022 family, else the inbound's. */
  ghost predicate Describes(obj: ClientObj, protocol: string, ssMethod: string, row: ClientRow) {
    && (forall key :: key in obj <==>
          || key == "email" || key == "level"
          || (key == "id" && (protocol == "vmess" || protocol == "vless"))
          || (key == "alterId" && protocol == "vmess")
          || (key == "flow" && protocol == "vless")
          || (key == "password" && (protocol == "trojan" || protocol == "shadowsocks"))
          || (key == "method" && protocol == "shadowsocks" && ssMethod != ""))
    && obj["email"] == JStr(row.email) && obj["level"] == JNum(0)
    && ("id" in obj ==> obj["id"] == JStr(row.secret))
    && ("alterId" in obj ==> obj["alterId"] == JNum(row.alterId))
    && ("flow" in obj ==> obj["flow"] == JStr(row.flow))
    && ("password" in obj ==> obj["password"] == JStr(row.secret))
    && ("method" in obj ==> obj["method"] == JStr(if "2022-blake3-" <= ssMethod then "" else ssMethod))
  }

  /** That leaves nothing open. */
  lemma DescribedOnce(a: ClientObj, b: ClientObj, protocol: string, ssMethod: string, row: ClientRow)
    requires Describes(a, protocol, ssMethod, row) && Describes(b, protocol, ssMethod, row)
    ensures a == b
  {
    assert a.Keys == b.Keys;
  }

  lemma ClientDescribes(protocol: string, ssMethod: string, row: ClientRow)
    ensures Describes(ClientFor(protocol, ssMethod, row), protocol, ssMethod, row)
  {
  }

  /** The merge writes one object for each row, in their order. */
  lemma {:induction false} MergeDescribes(protocol: string, ssMethod: string, rows: seq<ClientRow>)
    ensures var cs := Merged(protocol, ssMethod, rows);
            |cs| == |rows| && forall i :: 0 <= i < |rows| ==> Describes(cs[i], protocol, ssMethod, rows[i])
  {
    hide Describes, MergedClient, ClientFor;
    if rows != [] {
      var last := rows[|rows| - 1];
      MergeDescribes(protocol, ssMethod, rows[..|rows| - 1]);
      SameObject(protocol, ssMethod, last);
      ClientDescribes(protocol, ssMethod, last);
    }
  }

  // ---------------------------------------------------------------- what the hot commands write

  /** A successful addition appends one client, which describes the row with the inbound's own method, to the inbound of
      that tag, and changes nothing else in the file. */
  lemma AddUserWrites(st: State, tag: string, row: ClientRow, protocol: string, o: Outcome) returns (obj: ClientObj)
    requires st.running && st.file.Some? && UniqueTags(st.file.value)
    requires Find(st.file.value, tag, false) < |st.file.value| && HotAddUser(st, tag, row, protocol, o).1
    ensures var before := st.file.value; var (st', _) := HotAddUser(st, tag, row, protocol, o);
            && Describes(obj, protocol, MethodAt(before, tag), row)
            && st'.file.Some? && Edited(before, st'.file.value, tag, ClientsAt(before, tag) + [obj])
            && ClientsAt(st'.file.value, tag) == ClientsAt(before, tag) + [obj]
  {
    hide ClientFor, AppendClient, RemoveEmail, FixAll, ClientsAt, MethodAt, Find, Describes;
    obj := ClientFor(protocol, MethodAt(st.file.value, tag), row);
    ClientDescribes(protocol, MethodAt(st.file.value, tag), row);
    AppendEdits(st.file.value, tag, protocol, row);
    var after := AppendClient(st.file.value, tag, protocol, row);
    assert HotAddUser(st, tag, row, protocol, o).0.file == Some(after);
    EditedFind(st.file.value, after, tag, ClientsAt(st.file.value, tag) + [obj]);
  }

  function OfOthers(email: string): ClientObj -> bool { c => !("email" in c && c["email"] == JStr(email)) }

  lemma {:induction false} DroppedKeepsOrder(cs: seq<ClientObj>, email: string)
    ensures Filtered(cs, DropEmail(cs, email), OfOthers(email))
  {
    hide Filtered;
    if cs == [] {
      NothingFiltered(OfOthers(email));
    } else {
      var last, rest := cs[|cs| - 1], cs[..|cs| - 1];
      DroppedKeepsOrder(rest, email);
      OneMoreFiltered(rest, DropEmail(rest, email), OfOthers(email), last);
      assert cs == rest + [last];
      assert DropEmail(cs, email) == if OfOthers(email)(last) then DropEmail(rest, email) + [last]
                                     else DropEmail(rest, email);
    }
  }

  /** A successful removal keeps exactly the clients of other emails, in their order, and changes nothing else. */
  lemma RemoveUserWrites(st: State, tag: string, email: string, o: Outcome)
    requires st.running && st.file.Some? && UniqueTags(st.file.value) && HotRemoveUser(st, tag, email, o).1
    ensures var before := st.file.value; var (st', _) := HotRemoveUser(st, tag, email, o);
            && st'.file.Some? && Edited(before, st'.file.value, tag, ClientsAt(st'.file.value, tag))
            && Filtered(ClientsAt(before, tag), ClientsAt(st'.file.value, tag), OfOthers(email))
  {
    hide RemoveEmail, PutBack, RemovedClient, FixAll, ClientsAt, Find, DropEmail, Filtered;
    var before := st.file.value;
    var after, kept := RemoveEmail(before, tag, email), DropEmail(ClientsAt(before, tag), email);
    assert HotRemoveUser(st, tag, email, o).0.file == Some(after);
    RemoveEdits(before, tag, email);
    EditedFind(before, after, tag, kept);
    DroppedKeepsOrder(ClientsAt(before, tag), email);
    if Find(before, tag, false) >= |before| {
      NoClients(before, tag);
      assert kept == [] by { assert DropEmail([], email) == []; }
    }
  }

  lemma NoClients(inbounds: seq<Inbound>, tag: string)
    requires Find(inbounds, tag, false) >= |inbounds|
    ensures ClientsAt(inbounds, tag) == []
  {
  }

  /** Over every run of additions of fresh emails and removals, whatever the external commands answer, there is a client
      in the file for each enabled row that describes it, and none besides. */
  lemma RunDescribes(st: State, rows: seq<ClientRow>, tag: string, protocol: string, ssMethod: string,
      ops: seq<UserOp>)
    requires Agrees(st, tag, protocol, ssMethod, rows) && FreshRun(st, rows, tag, protocol, ops)
    ensures var (st', rows') := RunUsers(st, rows, tag, protocol, ops);
            && st'.file.Some? && |ClientsAt(st'.file.value, tag)| == |rows'| && DistinctEmails(rows')
            && (forall c | c in ClientsAt(st'.file.value, tag) ::
                  exists r :: r in rows' && Describes(c, protocol, ssMethod, r))
            && (forall r | r in rows' ::
                  exists c :: c in ClientsAt(st'.file.value, tag) && Describes(c, protocol, ssMethod, r))
  {
    hide Agrees, FreshRun, RunUsers, Merged, Describes, ClientsAt;
    var (st', rows') := RunUsers(st, rows, tag, protocol, ops);
    IncrementalAgrees(st, rows, tag, protocol, ssMethod, ops, rows');
    MergeDescribes(protocol, ssMethod, rows');
    AgreesDistinct(st', tag, protocol, ssMethod, rows');
    var cs, merged := ClientsAt(st'.file.value, tag), Merged(protocol, ssMethod, rows');
    assert |cs| == |multiset(cs)| == |multiset(merged)| == |merged|;
    forall c | c in cs ensures exists r :: r in rows' && Describes(c, protocol, ssMethod, r) {
      assert c in multiset(cs);
      assert c in merged;
      var i :| 0 <= i < |merged| && merged[i] == c;
      assert rows'[i] in rows';
    }
    forall r | r in rows' ensures exists c :: c in cs && Describes(c, protocol, ssMethod, r) {
      var i :| 0 <= i < |rows'| && rows'[i] == r;
      assert merged[i] in multiset(merged);
      assert merged[i] in cs;
    }
  }

  lemma AgreesDistinct(st: State, tag: string, protocol: string, ssMethod: string, rows: seq<ClientRow>)
    requires Agrees(st, tag, protocol, ssMethod, rows)
    ensures DistinctEmails(rows) && st.file.Some?
  {
  }

  /** An inbound without settings is passed over by a removal and by its roll-back. */
  lemma BareInboundStays(inbounds: seq<Inbound>, tag: string, email: string, c: ClientObj)
    requires forall ib | ib in inbounds && ib.tag == tag :: ib.settings == None
    ensures RemoveEmail(inbounds, tag, email) == inbounds && RemovedClient(inbounds, tag, email) == None
    ensures PutBack(inbounds, tag, c) == inbounds
  {
    assert forall k :: 0 <= k < |inbounds| && inbounds[k].tag == tag ==> inbounds[k].settings == None by {
      assert forall k :: 0 <= k < |inbounds| ==> inbounds[k] in inbounds;
    }
    assert Find(inbounds, tag, true) == |inbounds|;
  }

  // ---------------------------------------------------------------- what a reload completes

  /** A reload succeeds if and only if the file has the inbound and the adding does. It never changes the file, and a
      failed one takes at most that inbound from the process. */
  lemma ReloadAnswers(st: State, tag: string, o: Reload)
    ensures var (st', ok) := ReloadInbound(st, tag, o);
            var known := st.file.Some? && exists ib :: ib in st.file.value && ib.tag == tag;
            && (ok <==> known && o.adi) && st'.file == st.file && st'.running == st.running
            && (!known ==> st' == st)
            && (known && !o.adi ==> st'.live == if o.rmi then st.live - {tag} else st.live)
            && (ok ==> st'.live.Keys == st.live.Keys + {tag})
            && (ok ==> forall t | t in st.live && t != tag :: st'.live[t] == st.live[t])
  {
    hide FixAll;
    if st.file.Some? {
      var i := Find(st.file.value, tag, false);
      if i < |st.file.value| {
        assert st.file.value[i] in st.file.value;
      }
    }
  }

  /** What goes to the process for a client of the file: the same fields, but that every client of a shadowsocks inbound
      with a method has a method: none of the 2022 family, else its own, else the inbound's. */
  ghost predicate Completes(c: ClientObj, r: ClientObj, protocol: string, m: string) {
    && (forall key | key != "method" :: (key in r <==> key in c) && (key in c ==> r[key] == c[key]))
    && (protocol == "shadowsocks" && m != "" ==>
          && "method" in r
          && ("2022-blake3-" <= m ==> r["method"] == JStr(""))
          && (!("2022-blake3-" <= m) ==> r["method"] == if "method" in c then c["method"] else JStr(m)))
    && (protocol != "shadowsocks" || m == "" ==> r == c)
  }

  lemma FixCompletes(ib: Inbound, c: ClientObj)
    ensures Completes(c, FixMethod(ib, c), ib.protocol, MethodOf(ib))
  {
  }

  /** A reload that succeeds serves the file's clients of that inbound in their order, each completed. */
  lemma ReloadCompletes(st: State, tag: string, o: Reload)
    requires st.file.Some? && Find(st.file.value, tag, false) < |st.file.value| && o.adi
    ensures var (st', ok) := ReloadInbound(st, tag, o);
            var ib := st.file.value[Find(st.file.value, tag, false)];
            var cs := ClientsAt(st.file.value, tag);
            && ok && tag in st'.live && |st'.live[tag]| == |cs|
            && forall i :: 0 <= i < |cs| ==> Completes(cs[i], st'.live[tag][i], ib.protocol, MethodOf(ib))
  {
    hide Find, FixMethod, MethodOf, ClientsOf, Completes;
    var ib := st.file.value[Find(st.file.value, tag, false)];
    forall c ensures Completes(c, FixMethod(ib, c), ib.protocol, MethodOf(ib)) {
      FixCompletes(ib, c);
    }
  }

  /** What the merge and the additions write for an inbound is complete: a reload sends it as it is. */
  lemma DescribedIsComplete(ib: Inbound, c: ClientObj, row: ClientRow)
    requires Describes(c, ib.protocol, MethodOf(ib), row)
    ensures FixMethod(ib, c) == c
  {
  }

  /** So a reload serves exactly the clients of an inbound that the panel merged. */
  lemma ReloadServesMerged(st: State, tag: string, o: Reload, rows: seq<ClientRow>)
    requires st.file.Some? && Find(st.file.value, tag, false) < |st.file.value| && o.adi
    requires var ib := st.file.value[Find(st.file.value, tag, false)];
             ClientsOf(ib) == Merged(ib.protocol, MethodOf(ib), rows)
    ensures var (st', ok) := ReloadInbound(st, tag, o);
            ok && tag in st'.live && st'.live[tag] == ClientsAt(st.file.value, tag)
  {
    hide Find, Merged, FixMethod, MethodOf, ClientsOf;
    var ib := st.file.value[Find(st.file.value, tag, false)];
    var cs := ClientsOf(ib);
    MergeDescribes(ib.protocol, MethodOf(ib), rows);
    forall i | 0 <= i < |cs| ensures FixMethod(ib, cs[i]) == cs[i] {
      DescribedIsComplete(ib, cs[i], rows[i]);
    }
    assert FixAll(ib, cs) == cs;
  }

  // ---------------------------------------------------------------- what the inbound commands write

  function OfOtherTag(tag: string): Inbound -> bool { (ib: Inbound) => ib.tag != tag }

  lemma {:induction false} DroppedTagKeepsOrder(inbounds: seq<Inbound>, tag: string)
    ensures Filtered(inbounds, DropTag(inbounds, tag), OfOtherTag(tag))
  {
    hide Filtered;
    if inbounds == [] {
      NothingFiltered(OfOtherTag(tag));
    } else {
      var rest, ib := inbounds[..|inbounds| - 1], inbounds[|inbounds| - 1];
      DroppedTagKeepsOrder(rest, tag);
      OneMoreFiltered(rest, DropTag(rest, tag), OfOtherTag(tag), ib);
      assert inbounds == rest + [ib];
      assert DropTag(rest, tag) + [] == DropTag(rest, tag);
    }
  }

  /** The file lists the inbounds of other tags that it listed, in their order, and then that one. */
  ghost predicate ListedLast(before: seq<Inbound>, after: seq<Inbound>, ib: Inbound) {
    after != [] && after[|after| - 1] == ib && Filtered(before, after[..|after| - 1], OfOtherTag(ib.tag))
  }

  /** A running process gets the inbound by command, and the file follows; a stopped one starts on the file that lists
      it. Without the binary, or when the command fails, nothing changes. */
  lemma AddInboundWrites(st: State, ib: Inbound, o: AddOutcome)
    ensures var (st', ok) := HotAddInbound(st, ib, o);
            var base := if st.file.Some? then st.file.value
                       else [Inbound("api", "dokodemo-door", Some(Settings("", [])))];
            && ((if st.running then !o.hot else !o.binary) ==> st' == st && !ok)
            && (st.running && o.hot ==>
                  && ok && st'.running && st'.live == st.live[ib.tag := ClientsOf(ib)]
                  && (st.file == None ==> st'.file == None)
                  && (st.file.Some? ==> st'.file.Some? && ListedLast(base, st'.file.value, ib)))
            && (!st.running && o.binary ==>
                  && ok == (o.start == Survives) && st'.running == ok
                  && st'.file.Some? && ListedLast(base, st'.file.value, ib)
                  && (!ok ==> st'.live == map[]) && (ok ==> st'.live == Loaded(st'.file.value)))
  {
    hide Filtered, Loaded, DropTag;
    var base := if st.file.Some? then st.file.value else BaseConfig([]);
    assert BaseConfig([]) == [ApiInbound];
    DroppedTagKeepsOrder(base, ib.tag);
    var kept := DropTag(base, ib.tag);
    assert (kept + [ib])[..|kept|] == kept;
  }

  /** A removal succeeds if and only if the process runs and the command does; then file and process lose that inbound
      and no other. */
  lemma RemoveInboundWrites(st: State, tag: string, rmi: bool)
    ensures var (st', ok) := HotRemoveInbound(st, tag, rmi);
            && (ok <==> st.running && rmi) && (!ok ==> st' == st)
            && (ok ==>
                  && st'.running && st'.live == st.live - {tag}
                  && (st.file == None ==> st'.file == None)
                  && (st.file.Some? ==>
                        st'.file.Some? && Filtered(st.file.value, st'.file.value, OfOtherTag(tag))))
  {
    hide Filtered, DropTag;
    if st.file.Some? {
      DroppedTagKeepsOrder(st.file.value, tag);
    }
  }

  /** What a process that starts on a file serves: each tag of it, with the clients of the first inbound of that tag. */
  lemma LoadedMeans(inbounds: seq<Inbound>, i: nat)
    requires i < |inbounds| && forall j :: 0 <= j < i ==> inbounds[j].tag != inbounds[i].tag
    ensures inbounds[i].tag in Loaded(inbounds) && Loaded(inbounds)[inbounds[i].tag] == ClientsOf(inbounds[i])
  {
    FindIs(inbounds, inbounds[i].tag, false, i);
    assert inbounds[i] in inbounds;
  }

  /** A full configuration is written behind the "api" inbound and started on. If that fails and there was a file
      before, that one is put back and started on again; the answer stays a failure. */
  lemma ApplyWrites(st: State, inbounds: seq<Inbound>, o: StartOutcome, again: StartOutcome)
    ensures var (st', ok) := ApplyConfig(st, inbounds, o, again);
            var whole := [Inbound("api", "dokodemo-door", Some(Settings("", [])))] + inbounds;
            && (ok <==> o == Survives)
            && st'.file == (if ok || st.file == None then Some(whole) else st.file)
            && (st'.running <==> ok || (st.file.Some? && again == Survives))
            && st'.live == (if st'.running then Loaded(st'.file.value) else map[])
  {
    hide Loaded;
  }
}
