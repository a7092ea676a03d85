/** What the hot commands keep, whatever the external commands answer. */
module XrayProperties {
  import opened Text
  import opened XrayConfig

  ghost predicate UniqueTags(inbounds: seq<Inbound>) {
    forall i, j :: 0 <= i < j < |inbounds| ==> inbounds[i].tag != inbounds[j].tag
  }

  // ---------------------------------------------------------------- dropping and restoring clients

  lemma {:induction false} DropLength(cs: seq<ClientObj>, email: string)
    ensures |DropEmail(cs, email)| + Count(cs, email) == |cs|
    ensures Count(cs, email) == 0 <==> forall c | c in cs :: !HasEmail(c, email)
    ensures Count(cs, email) == 0 ==> DropEmail(cs, email) == cs
  {
    if cs != [] {
      DropLength(cs[..|cs| - 1], email);
      assert cs == cs[..|cs| - 1] + [cs[|cs| - 1]];
    }
  }

  lemma DropAppended(cs: seq<ClientObj>, c: ClientObj, email: string)
    requires HasEmail(c, email)
    ensures DropEmail(cs + [c], email) == DropEmail(cs, email)
  {
    assert (cs + [c])[..|cs|] == cs;
  }

  lemma {:induction false} DropMultiset(cs: seq<ClientObj>, email: string, x: ClientObj)
    ensures multiset(DropEmail(cs, email))[x] == if HasEmail(x, email) then 0 else multiset(cs)[x]
  {
    if cs != [] {
      DropMultiset(cs[..|cs| - 1], email, x);
      assert cs == cs[..|cs| - 1] + [cs[|cs| - 1]];
    }
  }

  /** Putting the last removed client back makes the list whole exactly when at most one was removed. */
  lemma {:induction false} DropAndPutBack(cs: seq<ClientObj>, email: string)
    ensures LastOf(cs, email) == None ==> DropEmail(cs, email) == cs
    ensures LastOf(cs, email).Some? ==>
              (multiset(DropEmail(cs, email) + [LastOf(cs, email).value]) == multiset(cs) <==> Count(cs, email) <= 1)
    ensures LastOf(cs, email) == None <==> Count(cs, email) == 0
  {
    DropLength(cs, email);
    var last := LastOf(cs, email);
    if last.Some? {
      var back := DropEmail(cs, email) + [last.value];
      if multiset(back) == multiset(cs) {
        assert |back| == |multiset(back)| == |multiset(cs)| == |cs|;
      }
      if Count(cs, email) == 1 {
        DropOne(cs, email);
      }
    }
  }

  lemma {:induction false} DropOne(cs: seq<ClientObj>, email: string)
    requires Count(cs, email) == 1
    ensures LastOf(cs, email).Some? && multiset(DropEmail(cs, email) + [LastOf(cs, email).value]) == multiset(cs)
  {
    var c, rest := cs[|cs| - 1], cs[..|cs| - 1];
    assert cs == rest + [c];
    DropLength(rest, email);
    if !HasEmail(c, email) {
      DropOne(rest, email);
    }
  }

  // ---------------------------------------------------------------- the file after a failed command

  function ClientsAt(inbounds: seq<Inbound>, tag: string): seq<ClientObj> {
    var i := Find(inbounds, tag, false);
    if i < |inbounds| then ClientsOf(inbounds[i]) else []
  }

  function MethodAt(inbounds: seq<Inbound>, tag: string): string {
    var i := Find(inbounds, tag, false);
    if i < |inbounds| then MethodOf(inbounds[i]) else ""
  }

  ghost predicate SameShape(ib: Inbound, ib': Inbound) {
    && ib'.tag == ib.tag && ib'.protocol == ib.protocol && MethodOf(ib') == MethodOf(ib)
    && (ib.settings.Some? ==> ib'.settings.Some?)
  }

  /** r is inbounds with nothing but the client list of that tag replaced. */
  ghost predicate Edited(inbounds: seq<Inbound>, r: seq<Inbound>, tag: string, cs: seq<ClientObj>) {
    && |r| == |inbounds|
    && (forall k :: 0 <= k < |inbounds| ==> SameShape(inbounds[k], r[k]))
    && (forall k :: 0 <= k < |inbounds| ==>
          ClientsOf(r[k]) == if inbounds[k].tag == tag then cs else ClientsOf(inbounds[k]))
  }

  lemma FindIs(inbounds: seq<Inbound>, tag: string, needSettings: bool, i: nat)
    requires i < |inbounds| && inbounds[i].tag == tag && (needSettings ==> inbounds[i].settings.Some?)
    requires forall j :: 0 <= j < i ==> inbounds[j].tag != tag
    ensures Find(inbounds, tag, needSettings) == i
  {
    var k := Find(inbounds, tag, needSettings);
  }

  lemma EditedFind(inbounds: seq<Inbound>, r: seq<Inbound>, tag: string, cs: seq<ClientObj>)
    requires Edited(inbounds, r, tag, cs) && UniqueTags(inbounds)
    ensures UniqueTags(r)
    ensures Find(r, tag, false) == Find(inbounds, tag, false)
    ensures ClientsAt(r, tag) == if Find(inbounds, tag, false) < |inbounds| then cs else []
    ensures MethodAt(r, tag) == MethodAt(inbounds, tag)
  {
    forall k | 0 <= k < |r| ensures r[k].tag == inbounds[k].tag {
      assert SameShape(inbounds[k], r[k]);
    }
    var i := Find(inbounds, tag, false);
    if i < |r| {
      FindIs(r, tag, false, i);
      assert SameShape(inbounds[i], r[i]);
    } else {
      assert Find(r, tag, false) == |r|;
    }
  }

  lemma EditedTwice(a: seq<Inbound>, b: seq<Inbound>, c: seq<Inbound>, tag: string, x: seq<ClientObj>,
      y: seq<ClientObj>)
    requires Edited(a, b, tag, x) && Edited(b, c, tag, y)
    ensures Edited(a, c, tag, y)
  {
    forall k | 0 <= k < |a| ensures SameShape(a[k], c[k])
        && ClientsOf(c[k]) == if a[k].tag == tag then y else ClientsOf(a[k]) {
      assert SameShape(a[k], b[k]) && SameShape(b[k], c[k]);
    }
  }

  lemma AppendEdits(inbounds: seq<Inbound>, tag: string, protocol: string, row: ClientRow)
    requires UniqueTags(inbounds)
    ensures Edited(inbounds, AppendClient(inbounds, tag, protocol, row), tag,
                   ClientsAt(inbounds, tag) + [ClientFor(protocol, MethodAt(inbounds, tag), row)])
    ensures var i := Find(inbounds, tag, false);
            i < |inbounds| ==> Find(AppendClient(inbounds, tag, protocol, row), tag, true) == i
  {
    hide ClientFor;
    var i := Find(inbounds, tag, false);
    if i < |inbounds| {
      FindIs(AppendClient(inbounds, tag, protocol, row), tag, true, i);
      assert forall k :: 0 <= k < |inbounds| && k != i ==> inbounds[k].tag != tag;
    }
  }

  lemma RemoveEdits(inbounds: seq<Inbound>, tag: string, email: string)
    requires UniqueTags(inbounds)
    ensures Edited(inbounds, RemoveEmail(inbounds, tag, email), tag, DropEmail(ClientsAt(inbounds, tag), email))
  {
    var i, j := Find(inbounds, tag, true), Find(inbounds, tag, false);
    assert DropEmail([], email) == [];
    if i < |inbounds| {
      FindIs(inbounds, tag, false, i) by {
        assert forall k :: 0 <= k < |inbounds| && k != i ==> inbounds[k].tag != tag;
      }
      assert forall k :: 0 <= k < |inbounds| && k != i ==> inbounds[k].tag != tag;
    } else if j < |inbounds| {
      assert inbounds[j].settings == None;
      assert forall k :: 0 <= k < |inbounds| && k != j ==> inbounds[k].tag != tag;
    }
  }

  lemma PutBackEdits(inbounds: seq<Inbound>, tag: string, c: ClientObj)
    requires UniqueTags(inbounds) && Find(inbounds, tag, true) < |inbounds|
    ensures Edited(inbounds, PutBack(inbounds, tag, c), tag, ClientsAt(inbounds, tag) + [c])
  {
    var i := Find(inbounds, tag, true);
    assert forall k :: 0 <= k < |inbounds| && k != i ==> inbounds[k].tag != tag;
    FindIs(inbounds, tag, false, i);
  }

  lemma RemovedClientIs(inbounds: seq<Inbound>, tag: string, email: string)
    requires UniqueTags(inbounds)
    ensures RemovedClient(inbounds, tag, email) == LastOf(ClientsAt(inbounds, tag), email)
    ensures RemovedClient(inbounds, tag, email).Some? ==>
              Find(RemoveEmail(inbounds, tag, email), tag, true) < |inbounds|
    ensures RemovedClient(inbounds, tag, email).Some? ==> Find(inbounds, tag, false) < |inbounds|
  {
    hide LastOf, DropEmail;
    var i, j := Find(inbounds, tag, true), Find(inbounds, tag, false);
    assert LastOf([], email) == None;
    if i < |inbounds| {
      FindIs(inbounds, tag, false, i) by {
        assert forall k :: 0 <= k < |inbounds| && k != i ==> inbounds[k].tag != tag;
      }
      FindIs(RemoveEmail(inbounds, tag, email), tag, true, i) by {
        assert forall k :: 0 <= k < |inbounds| && k != i ==> inbounds[k].tag != tag;
      }
    } else if j < |inbounds| {
      assert inbounds[j].settings == None;
    }
  }

  /** The file a failed HotAddUser leaves. */
  lemma FailedAddFile(st: State, tag: string, row: ClientRow, protocol: string, o: Outcome)
    requires st.running && st.file.Some? && !HotAddUser(st, tag, row, protocol, o).1
    ensures HotAddUser(st, tag, row, protocol, o).0.file
              == Some(RemoveEmail(AppendClient(st.file.value, tag, protocol, row), tag, row.email))
  {
    hide RemoveEmail, AppendClient, ClientFor, FixAll;
  }

  /** A failed HotAddUser touches nothing but that inbound's client list, and leaves the list exactly as it was
      if and only if the inbound had no client of that email before (or the process was not running). */
  lemma FailedAddUser(st: State, tag: string, row: ClientRow, protocol: string, o: Outcome)
    requires st.file.Some? && UniqueTags(st.file.value)
    requires !HotAddUser(st, tag, row, protocol, o).1
    ensures HotAddUser(st, tag, row, protocol, o).0.file.Some?
    ensures var before, after := st.file.value, HotAddUser(st, tag, row, protocol, o).0.file.value;
            && Edited(before, after, tag, ClientsAt(after, tag))
            && Find(after, tag, false) == Find(before, tag, false)
            && (ClientsAt(after, tag) == ClientsAt(before, tag) <==>
                  !st.running || Count(ClientsAt(before, tag), row.email) == 0)
  {
    var before := st.file.value;
    EditedSelf(before, tag);
    if st.running {
      FailedAddFile(st, tag, row, protocol, o);
      hide HotAddUser, AppendClient, RemoveEmail, DropEmail, Count, ClientFor, Find;
      var appended := AppendClient(before, tag, protocol, row);
      var c := ClientFor(protocol, MethodAt(before, tag), row);
      AppendEdits(before, tag, protocol, row);
      EditedFind(before, appended, tag, ClientsAt(before, tag) + [c]);
      RemoveEdits(appended, tag, row.email);
      DropAppended(ClientsAt(before, tag), c, row.email);
      DropLength(ClientsAt(before, tag), row.email);
      var after := RemoveEmail(appended, tag, row.email);
      var dropped := DropEmail(ClientsAt(appended, tag), row.email);
      EditedTwice(before, appended, after, tag, ClientsAt(before, tag) + [c], dropped);
      EditedFind(before, after, tag, dropped);
      DropLength([], row.email);
    }
  }

  lemma EditedSelf(inbounds: seq<Inbound>, tag: string)
    requires UniqueTags(inbounds)
    ensures Edited(inbounds, inbounds, tag, ClientsAt(inbounds, tag))
  {
    var i := Find(inbounds, tag, false);
    if i < |inbounds| {
      assert forall k :: 0 <= k < |inbounds| && k != i ==> inbounds[k].tag != tag;
    }
  }

  lemma FailedRemoveFile(st: State, tag: string, email: string, o: Outcome)
    requires st.running && st.file.Some? && !HotRemoveUser(st, tag, email, o).1
    ensures var cut, removed := RemoveEmail(st.file.value, tag, email), RemovedClient(st.file.value, tag, email);
            HotRemoveUser(st, tag, email, o).0.file
                == Some(if removed == None then cut else PutBack(cut, tag, removed.value))
  {
    hide RemoveEmail, PutBack, RemovedClient, FixAll;
  }

  /** A failed HotRemoveUser touches nothing but that inbound's client list, and leaves the list the same
      as a multiset if and only if at most one client carried the email (or the process was not running). */
  lemma FailedRemoveUser(st: State, tag: string, email: string, o: Outcome)
    requires st.file.Some? && UniqueTags(st.file.value)
    requires !HotRemoveUser(st, tag, email, o).1
    ensures HotRemoveUser(st, tag, email, o).0.file.Some?
    ensures var before, after := st.file.value, HotRemoveUser(st, tag, email, o).0.file.value;
            && Edited(before, after, tag, ClientsAt(after, tag))
            && Find(after, tag, false) == Find(before, tag, false)
            && (multiset(ClientsAt(after, tag)) == multiset(ClientsAt(before, tag)) <==>
                  !st.running || Count(ClientsAt(before, tag), email) <= 1)
  {
    var before := st.file.value;
    EditedSelf(before, tag);
    if st.running {
      FailedRemoveFile(st, tag, email, o);
      hide HotRemoveUser, RemoveEmail, PutBack, DropEmail, Count, LastOf, RemovedClient, Find;
      var cut, dropped := RemoveEmail(before, tag, email), DropEmail(ClientsAt(before, tag), email);
      RemoveEdits(before, tag, email);
      EditedFind(before, cut, tag, dropped);
      RemovedClientIs(before, tag, email);
      DropAndPutBack(ClientsAt(before, tag), email);
      DropLength([], email);
      var removed := RemovedClient(before, tag, email);
      if removed.Some? {
        var back := PutBack(cut, tag, removed.value);
        PutBackEdits(cut, tag, removed.value);
        EditedTwice(before, cut, back, tag, dropped, dropped + [removed.value]);
        EditedFind(before, back, tag, dropped + [removed.value]);
      }
    }
  }

  function OneInbound(cs: seq<ClientObj>): State {
    State(Some([Inbound("a", "vless", Some(Settings("", cs)))]), true, map[])
  }

  /** A failed addition of an email that a client has already takes that client away. */
  lemma AddUndoneTakesMore()
    ensures var c: ClientObj := map["email" := JStr("u")];
            var st, o := OneInbound([c]), Outcome(false, Reload(true, false), Reload(true, false));
            var (after, ok) := HotAddUser(st, "a", ClientRow("u", "id", "", 0), "vless", o);
            !ok && after.file.Some? && ClientsAt(st.file.value, "a") == [c] && ClientsAt(after.file.value, "a") != [c]
  {
    hide AppendClient, RemoveEmail, ClientFor, FixAll;
    var c: ClientObj := map["email" := JStr("u")];
    var st, o := OneInbound([c]), Outcome(false, Reload(true, false), Reload(true, false));
    var row := ClientRow("u", "id", "", 0);
    assert [c][..0] == [] && Count([c], "u") == 1;
    assert ClientsAt(st.file.value, "a") == [c];
    FailedAddUser(st, "a", row, "vless", o);
  }

  /** A failed removal of an email that two clients have puts one of them back. */
  lemma RemovalPutsOneBack()
    ensures var c: ClientObj := map["email" := JStr("u")];
            var st, o := OneInbound([c, c]), Outcome(false, Reload(true, false), Reload(true, false));
            var (after, ok) := HotRemoveUser(st, "a", "u", o);
            && !ok && after.file.Some? && ClientsAt(st.file.value, "a") == [c, c]
            && multiset(ClientsAt(after.file.value, "a")) != multiset([c, c])
  {
    hide RemoveEmail, PutBack, RemovedClient, FixAll;
    var c: ClientObj := map["email" := JStr("u")];
    var st, o := OneInbound([c, c]), Outcome(false, Reload(true, false), Reload(true, false));
    assert [c][..0] == [] && [c, c][..1] == [c] && Count([c], "u") == 1 && Count([c, c], "u") == 2;
    assert ClientsAt(st.file.value, "a") == [c, c];
    FailedRemoveUser(st, "a", "u", o);
  }

  // ---------------------------------------------------------------- incremental agrees with from-scratch

  datatype UserOp = AddUser(row: ClientRow, o: Outcome) | RemoveUser(email: string, o: Outcome)

  function ExecUser(st: State, tag: string, protocol: string, op: UserOp): (State, bool) {
    match op
    case AddUser(row, o) => HotAddUser(st, tag, row, protocol, o)
    case RemoveUser(email, o) => HotRemoveUser(st, tag, email, o)
  }

  function DropRow(rows: seq<ClientRow>, email: string): seq<ClientRow> {
    if rows == [] then []
    else DropRow(rows[..|rows| - 1], email) + if rows[|rows| - 1].email == email then [] else [rows[|rows| - 1]]
  }

  /** The enabled rows the panel is left with: a failed command changes nothing. */
  function EnabledAfter(st: State, rows: seq<ClientRow>, tag: string, protocol: string, op: UserOp): seq<ClientRow> {
    if !ExecUser(st, tag, protocol, op).1 then rows
    else match op
      case AddUser(row, _) => rows + [row]
      case RemoveUser(email, _) => DropRow(rows, email)
  }

  function RunUsers(st: State, rows: seq<ClientRow>, tag: string, protocol: string, ops: seq<UserOp>): (State,
      seq<ClientRow>) {
    if ops == [] then (st, rows)
    else
      var (s, r) := RunUsers(st, rows, tag, protocol, ops[..|ops| - 1]);
      var op := ops[|ops| - 1];
      (ExecUser(s, tag, protocol, op).0, EnabledAfter(s, r, tag, protocol, op))
  }

  ghost predicate DistinctEmails(rows: seq<ClientRow>) {
    forall i, j :: 0 <= i < j < |rows| ==> rows[i].email != rows[j].email
  }

  predicate Fresh(rows: seq<ClientRow>, email: string) { forall r | r in rows :: r.email != email }

  /** Every user that is added has an email no enabled client carries. */
  ghost predicate FreshRun(st: State, rows: seq<ClientRow>, tag: string, protocol: string, ops: seq<UserOp>) {
    forall k :: 0 <= k < |ops| && ops[k].AddUser? ==>
        Fresh(RunUsers(st, rows, tag, protocol, ops[..k]).1, ops[k].row.email)
  }

  /** The file's inbound carries the client objects a from-scratch merge of the rows would write. */
  ghost predicate Agrees(st: State, tag: string, protocol: string, ssMethod: string, rows: seq<ClientRow>) {
    && st.running && st.file.Some? && UniqueTags(st.file.value) && DistinctEmails(rows)
    && Find(st.file.value, tag, false) < |st.file.value| && MethodAt(st.file.value, tag) == ssMethod
    && multiset(ClientsAt(st.file.value, tag)) == multiset(Merged(protocol, ssMethod, rows))
  }

  lemma {:induction false} MergedFresh(protocol: string, ssMethod: string, rows: seq<ClientRow>, email: string)
    ensures Count(Merged(protocol, ssMethod, rows), email) == 0 <==> Fresh(rows, email)
    ensures DistinctEmails(rows) ==> Count(Merged(protocol, ssMethod, rows), email) <= 1
  {
    hide MergedClient;
    if rows != [] {
      var r, rest := rows[|rows| - 1], rows[..|rows| - 1];
      assert rows == rest + [r];
      MergedFresh(protocol, ssMethod, rest, email);
      if r.email == email && DistinctEmails(rows) {
        assert Fresh(rest, email);
      }
      assert Merged(protocol, ssMethod, rows)[..|rest|] == Merged(protocol, ssMethod, rest);
      assert HasEmail(MergedClient(protocol, ssMethod, r), email) <==> r.email == email;
    }
  }

  lemma {:induction false} MergedDrop(protocol: string, ssMethod: string, rows: seq<ClientRow>, email: string)
    ensures Merged(protocol, ssMethod, DropRow(rows, email)) == DropEmail(Merged(protocol, ssMethod, rows), email)
    ensures forall r :: r in DropRow(rows, email) <==> r in rows && r.email != email
    ensures DistinctEmails(rows) ==> DistinctEmails(DropRow(rows, email))
  {
    hide MergedClient, DistinctEmails;
    if rows != [] {
      var r, rest := rows[|rows| - 1], rows[..|rows| - 1];
      assert rows == rest + [r];
      MergedDrop(protocol, ssMethod, rest, email);
      DistinctSplit(rest, r);
      var m, c := Merged(protocol, ssMethod, rest), MergedClient(protocol, ssMethod, r);
      assert Merged(protocol, ssMethod, rows) == m + [c];
      assert (m + [c])[..|m|] == m;
      assert HasEmail(c, email) <==> r.email == email;
      var d := DropRow(rest, email);
      if r.email != email {
        assert DropRow(rows, email) == d + [r];
        assert (d + [r])[..|d|] == d;
        DistinctSplit(d, r);
      } else {
        assert DropRow(rows, email) == d + [] == d;
        assert DropEmail(m + [c], email) == DropEmail(m, email) + [] == DropEmail(m, email);
      }
    }
  }

  lemma DistinctSplit(rest: seq<ClientRow>, r: ClientRow)
    ensures DistinctEmails(rest + [r]) <==> DistinctEmails(rest) && Fresh(rest, r.email)
  {
    var rows := rest + [r];
    if DistinctEmails(rows) {
      forall q | q in rest ensures q.email != r.email {
        var i :| 0 <= i < |rest| && rest[i] == q;
        assert rows[i].email != rows[|rest|].email;
      }
      assert forall i, j :: 0 <= i < j < |rest| ==> rest[i] == rows[i] && rest[j] == rows[j];
    }
  }

  lemma {:induction false} CountByMultiset(a: seq<ClientObj>, b: seq<ClientObj>, email: string)
    requires multiset(a) == multiset(b)
    ensures Count(a, email) == Count(b, email)
    ensures multiset(DropEmail(a, email)) == multiset(DropEmail(b, email))
  {
    hide HasEmail, DropEmail, Count;
    forall x ensures multiset(DropEmail(a, email))[x] == multiset(DropEmail(b, email))[x] {
      DropMultiset(a, email, x);
      DropMultiset(b, email, x);
    }
    DropLength(a, email);
    DropLength(b, email);
    assert multiset(DropEmail(a, email)) == multiset(DropEmail(b, email));
    assert |a| == |multiset(a)| == |b|;
    assert |DropEmail(a, email)| == |multiset(DropEmail(a, email))| == |DropEmail(b, email)|;
  }

  lemma AppendAgrees(st: State, tag: string, protocol: string, ssMethod: string, rows: seq<ClientRow>, row: ClientRow)
    requires Agrees(st, tag, protocol, ssMethod, rows) && Fresh(rows, row.email)
    ensures Agrees(Update(st, AppendClient(st.file.value, tag, protocol, row)), tag, protocol, ssMethod, rows + [row])
  {
    hide ClientFor, MergedClient, AppendClient, Find, MethodAt, ClientsAt;
    var before := st.file.value;
    var c := ClientFor(protocol, ssMethod, row);
    SameObject(protocol, ssMethod, row);
    AppendEdits(before, tag, protocol, row);
    EditedFind(before, AppendClient(before, tag, protocol, row), tag, ClientsAt(before, tag) + [c]);
    assert (rows + [row])[..|rows|] == rows;
    assert Merged(protocol, ssMethod, rows + [row]) == Merged(protocol, ssMethod, rows) + [c];
  }

  lemma RemoveAgrees(st: State, tag: string, protocol: string, ssMethod: string, rows: seq<ClientRow>, email: string)
    requires Agrees(st, tag, protocol, ssMethod, rows)
    ensures Agrees(Update(st, RemoveEmail(st.file.value, tag, email)), tag, protocol, ssMethod, DropRow(rows, email))
  {
    hide RemoveEmail, DropEmail, Merged, Find, MethodAt, ClientsAt, DropRow;
    var before := st.file.value;
    RemoveEdits(before, tag, email);
    EditedFind(before, RemoveEmail(before, tag, email), tag, DropEmail(ClientsAt(before, tag), email));
    MergedDrop(protocol, ssMethod, rows, email);
    CountByMultiset(ClientsAt(before, tag), Merged(protocol, ssMethod, rows), email);
  }

  lemma SameFile(st: State, st': State, tag: string, protocol: string, ssMethod: string, rows: seq<ClientRow>)
    requires Agrees(st, tag, protocol, ssMethod, rows) && st'.running && st'.file == st.file
    ensures Agrees(st', tag, protocol, ssMethod, rows)
  {
  }

  lemma SucceededFile(st: State, tag: string, protocol: string, op: UserOp)
    requires st.running && st.file.Some? && ExecUser(st, tag, protocol, op).1
    ensures ExecUser(st, tag, protocol, op).0.running
    ensures ExecUser(st, tag, protocol, op).0.file ==
            Some(match op
                 case AddUser(row, _) => AppendClient(st.file.value, tag, protocol, row)
                 case RemoveUser(email, _) => RemoveEmail(st.file.value, tag, email))
  {
    hide AppendClient, RemoveEmail, PutBack, RemovedClient, ClientFor, DropEmail, FixAll;
  }

  lemma StaysRunning(st: State, tag: string, protocol: string, op: UserOp)
    requires st.running
    ensures ExecUser(st, tag, protocol, op).0.running
  {
    hide AppendClient, RemoveEmail, PutBack, RemovedClient, ClientFor, DropEmail, FixAll, Find;
  }

  lemma FailedAgrees(st: State, st': State, tag: string, protocol: string, ssMethod: string, rows: seq<ClientRow>)
    requires Agrees(st, tag, protocol, ssMethod, rows) && st'.running && st'.file.Some?
    requires Edited(st.file.value, st'.file.value, tag, ClientsAt(st'.file.value, tag))
    requires multiset(ClientsAt(st'.file.value, tag)) == multiset(ClientsAt(st.file.value, tag))
    ensures Agrees(st', tag, protocol, ssMethod, rows)
  {
    hide Merged, ClientsAt, MethodAt, Find;
    EditedFind(st.file.value, st'.file.value, tag, ClientsAt(st'.file.value, tag));
  }

  lemma ExecUserAgrees(st: State, tag: string, protocol: string, ssMethod: string, rows: seq<ClientRow>, op: UserOp)
    requires Agrees(st, tag, protocol, ssMethod, rows)
    requires op.AddUser? ==> Fresh(rows, op.row.email)
    ensures Agrees(ExecUser(st, tag, protocol, op).0, tag, protocol, ssMethod,
              EnabledAfter(st, rows, tag, protocol, op))
  {
    hide HotAddUser, HotRemoveUser, AppendClient, RemoveEmail, Merged, Count, Find, ClientsAt, MethodAt, DropRow;
    var before := st.file.value;
    var st' := ExecUser(st, tag, protocol, op).0;
    StaysRunning(st, tag, protocol, op);
    if ExecUser(st, tag, protocol, op).1 {
      SucceededFile(st, tag, protocol, op);
      match op
      case AddUser(row, o) =>
        AppendAgrees(st, tag, protocol, ssMethod, rows, row);
        SameFile(Update(st, AppendClient(before, tag, protocol, row)), st', tag, protocol, ssMethod, rows + [row]);
      case RemoveUser(email, o) =>
        RemoveAgrees(st, tag, protocol, ssMethod, rows, email);
        SameFile(Update(st, RemoveEmail(before, tag, email)), st', tag, protocol, ssMethod, DropRow(rows, email));
    } else {
      var email := if op.AddUser? then op.row.email else op.email;
      MergedFresh(protocol, ssMethod, rows, email);
      CountByMultiset(ClientsAt(before, tag), Merged(protocol, ssMethod, rows), email);
      match op
      case AddUser(row, o) =>
        FailedAddUser(st, tag, row, protocol, o);
        FailedAgrees(st, st', tag, protocol, ssMethod, rows);
      case RemoveUser(_, o) =>
        FailedRemoveUser(st, tag, email, o);
        FailedAgrees(st, st', tag, protocol, ssMethod, rows);
    }
  }

  /** One element of a permutation can be taken out of the middle. */
  lemma TakeOut<T>(rest: seq<T>, r: T, b: seq<T>) returns (left: seq<T>, right: seq<T>)
    requires multiset(rest + [r]) == multiset(b)
    ensures b == left + ([r] + right) && multiset(rest) == multiset(left + right)
  {
    assert r in multiset(rest + [r]);
    assert r in multiset(b);
    var k :| 0 <= k < |b| && b[k] == r;
    left, right := b[..k], b[k + 1..];
    assert b == left + ([r] + right);
    assert multiset(b) == multiset(left + right) + multiset{r};
    assert multiset(rest) == multiset(rest + [r]) - multiset{r} == multiset(left + right);
  }

  lemma Regroup<T>(rest: seq<T>, m: seq<T>, left: seq<T>, right: seq<T>)
    requires multiset(rest) == multiset(left + right)
    ensures multiset(rest + m) == multiset(left + (m + right))
  {
  }

  lemma {:induction false} MergedPermutes(protocol: string, ssMethod: string, a: seq<ClientRow>, b: seq<ClientRow>)
    requires multiset(a) == multiset(b)
    ensures multiset(Merged(protocol, ssMethod, a)) == multiset(Merged(protocol, ssMethod, b))
  {
    hide MergedClient, Merged;
    if a == [] {
      assert |b| == |multiset(b)| == 0;
      assert b == [];
    } else {
      var r, rest := a[|a| - 1], a[..|a| - 1];
      assert a == rest + [r];
      var left, right := TakeOut(rest, r, b);
      MergedPermutes(protocol, ssMethod, rest, left + right);
      MergedConcat(protocol, ssMethod, rest, [r]);
      MergedConcat(protocol, ssMethod, left, [r] + right);
      MergedConcat(protocol, ssMethod, [r], right);
      MergedConcat(protocol, ssMethod, left, right);
      Regroup(Merged(protocol, ssMethod, rest), Merged(protocol, ssMethod, [r]), Merged(protocol, ssMethod, left),
          Merged(protocol, ssMethod, right));
    }
  }

  lemma {:induction false} MergedConcat(protocol: string, ssMethod: string, a: seq<ClientRow>, b: seq<ClientRow>)
    ensures Merged(protocol, ssMethod, a + b) == Merged(protocol, ssMethod, a) + Merged(protocol, ssMethod, b)
  {
    hide MergedClient;
    if b == [] {
      assert a + b == a;
    } else {
      MergedConcat(protocol, ssMethod, a, b[..|b| - 1]);
      assert (a + b)[..|a + b| - 1] == a + b[..|b| - 1];
    }
  }

  /** Over every run of additions (of fresh emails) and removals with any outcomes, the file's clients are,
      as a multiset, what a from-scratch merge writes for the enabled rows, in whatever order they are listed. */
  lemma {:induction false} IncrementalAgrees(st: State, rows: seq<ClientRow>, tag: string, protocol: string,
      ssMethod: string, ops: seq<UserOp>, listed: seq<ClientRow>)
    requires Agrees(st, tag, protocol, ssMethod, rows) && FreshRun(st, rows, tag, protocol, ops)
    requires multiset(listed) == multiset(RunUsers(st, rows, tag, protocol, ops).1)
    ensures RunUsers(st, rows, tag, protocol, ops).0.file.Some?
    ensures multiset(ClientsAt(RunUsers(st, rows, tag, protocol, ops).0.file.value, tag))
              == multiset(Merged(protocol, ssMethod, listed))
    ensures Agrees(RunUsers(st, rows, tag, protocol, ops).0, tag, protocol, ssMethod,
              RunUsers(st, rows, tag, protocol, ops).1)
    decreases |ops|
  {
    hide ExecUser, EnabledAfter, Merged;
    var (s', r') := RunUsers(st, rows, tag, protocol, ops);
    if ops != [] {
      var before := ops[..|ops| - 1];
      assert forall k :: 0 <= k < |before| ==> before[..k] == ops[..k];
      var (s, r) := RunUsers(st, rows, tag, protocol, before);
      IncrementalAgrees(st, rows, tag, protocol, ssMethod, before, r);
      ExecUserAgrees(s, tag, protocol, ssMethod, r, ops[|ops| - 1]);
    }
    MergedPermutes(protocol, ssMethod, listed, r');
  }
}
