/** The manager object: its fields changed in place, one loop over the inbounds per edit of the file
    (go-node/x/xray/manager.go). Each command is what XrayConfig says of it. */
module XrayManager {
  import opened Text
  import opened XrayConfig

  class Manager {
    var file: Option<seq<Inbound>>
    var running: bool
    var live: map<string, seq<ClientObj>>

    ghost function Now(): State reads this { State(file, running, live) }

    constructor ()
      ensures Now() == State(None, false, map[])
    {
      file, running, live := None, false, map[];
    }

    /** The loops over config["inbounds"] that stop at the first match. */
    method FindInbound(inbounds: seq<Inbound>, tag: string, needSettings: bool) returns (k: nat)
      ensures k == Find(inbounds, tag, needSettings)
    {
      for i := 0 to |inbounds|
        invariant forall j :: 0 <= j < i ==> inbounds[j].tag != tag || (needSettings && inbounds[j].settings == None)
      {
        if inbounds[i].tag == tag && (needSettings ==> inbounds[i].settings.Some?) {
          FindFirst(inbounds, tag, needSettings, i);
          return i;
        }
      }
      FindFirst(inbounds, tag, needSettings, |inbounds|);
      k := |inbounds|;
    }

    /** The clients that are kept, and the last one that was not. */
    method FilterClients(cs: seq<ClientObj>, email: string)
      returns (filtered: seq<ClientObj>, removed: Option<ClientObj>)
      ensures filtered == DropEmail(cs, email) && removed == LastOf(cs, email)
    {
      filtered, removed := [], None;
      for i := 0 to |cs|
        invariant filtered == DropEmail(cs[..i], email) && removed == LastOf(cs[..i], email)
      {
        assert cs[..i + 1][..i] == cs[..i];
        if HasEmail(cs[i], email) {
          removed := Some(cs[i]);
          assert DropEmail(cs[..i + 1], email) == DropEmail(cs[..i], email) + [];
        } else {
          filtered := filtered + [cs[i]];
        }
      }
      assert cs[..|cs|] == cs;
    }

    method NewClient(protocol: string, ssMethod: string, row: ClientRow) returns (clientObj: ClientObj)
      ensures clientObj == ClientFor(protocol, ssMethod, row)
    {
      clientObj := map["email" := JStr(row.email), "level" := JNum(0)];
      match protocol {
        case "vmess" =>
          clientObj := clientObj["id" := JStr(row.secret)];
          clientObj := clientObj["alterId" := JNum(row.alterId)];
        case "vless" =>
          clientObj := clientObj["id" := JStr(row.secret)];
          clientObj := clientObj["flow" := JStr(row.flow)];
        case "trojan" =>
          clientObj := clientObj["password" := JStr(row.secret)];
        case "shadowsocks" =>
          clientObj := clientObj["password" := JStr(row.secret)];
          if ssMethod != "" {
            clientObj := clientObj["method" := JStr(if HasPrefix(ssMethod, SS2022) then "" else ssMethod)];
          }
        case _ =>
      }
    }

    method WriteClient(tag: string, protocol: string, row: ClientRow)
      modifies this`file
      ensures file == if old(file) == None then None else Some(AppendClient(old(file).value, tag, protocol, row))
    {
      hide Find, ClientFor;
      if file == None { return; }
      var inbounds := file.value;
      var i := FindInbound(inbounds, tag, false);
      if i < |inbounds| {
        var ib := inbounds[i];
        var clientObj := NewClient(protocol, MethodOf(ib), row);
        file := Some(inbounds[i := WithClients(ib, ClientsOf(ib) + [clientObj])]);
      }
    }

    method EraseClient(tag: string, email: string) returns (removed: Option<ClientObj>)
      modifies this`file
      ensures file == if old(file) == None then None else Some(RemoveEmail(old(file).value, tag, email))
      ensures removed == if old(file) == None then None else RemovedClient(old(file).value, tag, email)
    {
      hide Find, DropEmail, LastOf;
      if file == None { return None; }
      var inbounds := file.value;
      var i := FindInbound(inbounds, tag, true);
      removed := None;
      if i < |inbounds| {
        var filtered;
        filtered, removed := FilterClients(ClientsOf(inbounds[i]), email);
        file := Some(inbounds[i := WithClients(inbounds[i], filtered)]);
      }
    }

    method RestoreClient(tag: string, c: ClientObj)
      modifies this`file
      ensures file == if old(file) == None then None else Some(PutBack(old(file).value, tag, c))
    {
      hide Find;
      if file == None { return; }
      var inbounds := file.value;
      var i := FindInbound(inbounds, tag, true);
      if i < |inbounds| {
        file := Some(inbounds[i := WithClients(inbounds[i], ClientsOf(inbounds[i]) + [c])]);
      }
    }

    /** The copy of the clients that goes to the process, with the shadowsocks method filled in. */
    method FixClients(ib: Inbound) returns (cs: seq<ClientObj>)
      ensures cs == FixAll(ib, ClientsOf(ib))
    {
      cs := ClientsOf(ib);
      if ib.protocol == "shadowsocks" && MethodOf(ib) != "" {
        ghost var was := cs;
        for i := 0 to |cs|
          invariant |cs| == |was|
          invariant forall j :: 0 <= j < i ==> cs[j] == FixMethod(ib, was[j])
          invariant forall j :: i <= j < |cs| ==> cs[j] == was[j]
        {
          if HasPrefix(MethodOf(ib), SS2022) {
            cs := cs[i := cs[i]["method" := JStr("")]];
          } else if "method" !in cs[i] {
            cs := cs[i := cs[i]["method" := JStr(MethodOf(ib))]];
          }
        }
      }
    }

    method Reload(tag: string, o: XrayConfig.Reload) returns (ok: bool)
      modifies this`live
      ensures (Now(), ok) == ReloadInbound(old(Now()), tag, o)
    {
      hide Find, FixAll;
      if file == None { return false; }
      var inbounds := file.value;
      var i := FindInbound(inbounds, tag, false);
      if i == |inbounds| { return false; }
      var cs := FixClients(inbounds[i]);
      if o.rmi {
        live := live - {tag};
      }
      if o.adi {
        live := live[tag := cs];
      }
      ok := o.adi;
    }

    method HotAddUser(tag: string, row: ClientRow, protocol: string, o: Outcome) returns (ok: bool)
      modifies this
      ensures (Now(), ok) == XrayConfig.HotAddUser(old(Now()), tag, row, protocol, o)
    {
      hide AppendClient, RemoveEmail, RemovedClient, ReloadInbound, ClientFor;
      if !running { return false; }
      WriteClient(tag, protocol, row);
      if o.direct {
        var before := if tag in live then live[tag] else [];
        live := live[tag := before + [ClientFor(protocol, "", row)]];
        return true;
      }
      ok := Reload(tag, o.first);
      if !ok {
        var _ := EraseClient(tag, row.email);
        var _ := Reload(tag, o.second);
      }
    }

    method HotRemoveUser(tag: string, email: string, o: Outcome) returns (ok: bool)
      modifies this
      ensures (Now(), ok) == XrayConfig.HotRemoveUser(old(Now()), tag, email, o)
    {
      hide RemoveEmail, RemovedClient, ReloadInbound, PutBack;
      if !running { return false; }
      var removed := EraseClient(tag, email);
      if o.direct {
        var before := if tag in live then live[tag] else [];
        var kept, _ := FilterClients(before, email);
        live := live[tag := kept];
        return true;
      }
      ghost var written := Now();
      ok := Reload(tag, o.first);
      ReloadKeepsFile(written, tag, o.first);
      if !ok && removed.Some? {
        RestoreClient(tag, removed.value);
        var _ := Reload(tag, o.second);
      }
    }

    method FilterTag(inbounds: seq<Inbound>, tag: string) returns (filtered: seq<Inbound>)
      ensures filtered == DropTag(inbounds, tag)
    {
      filtered := [];
      for i := 0 to |inbounds|
        invariant filtered == DropTag(inbounds[..i], tag)
      {
        assert inbounds[..i + 1][..i] == inbounds[..i];
        if inbounds[i].tag == tag {
          assert DropTag(inbounds[..i + 1], tag) == DropTag(inbounds[..i], tag) + [];
        } else {
          filtered := filtered + [inbounds[i]];
        }
      }
      assert inbounds[..|inbounds|] == inbounds;
    }

    method Start(o: StartOutcome) returns (ok: bool)
      requires file.Some?
      modifies this`running, this`live
      ensures Now() == Started(old(Now()), o) && ok == (o == Survives)
    {
      ok := o == Survives;
      running := ok;
      live := if ok then Loaded(file.value) else map[];
    }

    method HotAddInbound(ib: Inbound, o: AddOutcome) returns (ok: bool)
      modifies this
      ensures (Now(), ok) == XrayConfig.HotAddInbound(old(Now()), ib, o)
    {
      hide DropTag, Started;
      if !running {
        if !o.binary { return false; }
        if file == None {
          file := Some(BaseConfig([]));
        }
        var filtered := FilterTag(file.value, ib.tag);
        file := Some(filtered + [ib]);
        ok := Start(o.start);
        return;
      }
      if !o.hot { return false; }
      live := live[ib.tag := ClientsOf(ib)];
      if file.Some? {
        var filtered := FilterTag(file.value, ib.tag);
        file := Some(filtered + [ib]);
      }
      ok := true;
    }

    method HotRemoveInbound(tag: string, rmi: bool) returns (ok: bool)
      modifies this
      ensures (Now(), ok) == XrayConfig.HotRemoveInbound(old(Now()), tag, rmi)
    {
      hide DropTag;
      if !running || !rmi { return false; }
      live := live - {tag};
      if file.Some? {
        var filtered := FilterTag(file.value, tag);
        file := Some(filtered);
      }
      ok := true;
    }

    method ApplyConfig(inbounds: seq<Inbound>, o: StartOutcome, again: StartOutcome) returns (ok: bool)
      modifies this
      ensures (Now(), ok) == XrayConfig.ApplyConfig(old(Now()), inbounds, o, again)
    {
      hide Loaded, BaseConfig;
      var oldConfig := file;
      file := Some(BaseConfig(inbounds));
      ok := Start(o);
      if !ok && oldConfig.Some? {
        file := oldConfig;
        var _ := Start(again);
      }
    }
  }

  lemma FindFirst(inbounds: seq<Inbound>, tag: string, needSettings: bool, i: nat)
    requires i <= |inbounds|
    requires i < |inbounds| ==> inbounds[i].tag == tag && (needSettings ==> inbounds[i].settings.Some?)
    requires forall j :: 0 <= j < i ==> inbounds[j].tag != tag || (needSettings && inbounds[j].settings == None)
    ensures Find(inbounds, tag, needSettings) == i
  {
    var k := Find(inbounds, tag, needSettings);
  }

  lemma ReloadKeepsFile(st: State, tag: string, o: XrayConfig.Reload)
    ensures ReloadInbound(st, tag, o).0.file == st.file
  {
  }
}
