/** The node's Xray configuration file and running process, and the hot commands that keep them in step
    (go-node/x/xray/manager.go), beside the panel's from-scratch merge (go-backend/service/xray_inbound.go).
    The outcome of every external command is a parameter. */
module XrayConfig {
  import opened Text

  datatype Json = JStr(s: string) | JNum(n: int)

  type ClientObj = map<string, Json>

  datatype Settings = Settings(ssMethod: string, clients: seq<ClientObj>)

  datatype Inbound = Inbound(tag: string, protocol: string, settings: Option<Settings>)

  /** file is None while there is no readable configuration file. */
  datatype State = State(file: Option<seq<Inbound>>, running: bool, live: map<string, seq<ClientObj>>)

  datatype ClientRow = ClientRow(email: string, secret: string, flow: string, alterId: int)

  const API_TAG: string := "api"

  // ---------------------------------------------------------------- client objects

  predicate HasPrefix(s: string, p: string) { |p| <= |s| && s[..|p|] == p }

  const SS2022: string := "2022-blake3-"

  /** The client object that the node appends for one row. */
  function ClientFor(protocol: string, ssMethod: string, c: ClientRow): (obj: ClientObj)
    ensures "email" in obj && obj["email"] == JStr(c.email)
  {
    var obj: ClientObj := map["email" := JStr(c.email), "level" := JNum(0)];
    if protocol == "vmess" then obj["id" := JStr(c.secret)]["alterId" := JNum(c.alterId)]
    else if protocol == "vless" then obj["id" := JStr(c.secret)]["flow" := JStr(c.flow)]
    else if protocol == "trojan" then obj["password" := JStr(c.secret)]
    else if protocol == "shadowsocks" then
      var withPassword := obj["password" := JStr(c.secret)];
      if ssMethod == "" then withPassword
      else withPassword["method" := JStr(if HasPrefix(ssMethod, SS2022) then "" else ssMethod)]
    else obj
  }

  /** The client object that the panel's merge writes for one row. */
  function MergedClient(protocol: string, ssMethod: string, c: ClientRow): (obj: ClientObj)
    ensures "email" in obj && obj["email"] == JStr(c.email)
  {
    var obj: ClientObj := map["email" := JStr(c.email), "level" := JNum(0)];
    match protocol
    case "vmess" => obj + map["id" := JStr(c.secret), "alterId" := JNum(c.alterId)]
    case "vless" => obj + map["id" := JStr(c.secret), "flow" := JStr(c.flow)]
    case "trojan" => obj + map["password" := JStr(c.secret)]
    case "shadowsocks" =>
      var withPassword := obj + map["password" := JStr(c.secret)];
      if ssMethod == "" then withPassword
      else if HasPrefix(ssMethod, SS2022) then withPassword + map["method" := JStr("")]
      else withPassword + map["method" := JStr(ssMethod)]
    case _ => obj
  }

  /** The two sides write the same object. */
  lemma SameObject(protocol: string, ssMethod: string, c: ClientRow)
    ensures MergedClient(protocol, ssMethod, c) == ClientFor(protocol, ssMethod, c)
  {
  }

  /** mergeClientsIntoSettings: the client array the panel builds from the enabled rows. */
  function Merged(protocol: string, ssMethod: string, rows: seq<ClientRow>): (cs: seq<ClientObj>)
    ensures |cs| == |rows|
  {
    if rows == [] then []
    else Merged(protocol, ssMethod, rows[..|rows| - 1]) + [MergedClient(protocol, ssMethod, rows[|rows| - 1])]
  }

  method MergeClients(protocol: string, ssMethod: string, rows: seq<ClientRow>) returns (clientArr: seq<ClientObj>)
    ensures clientArr == Merged(protocol, ssMethod, rows)
  {
    clientArr := [];
    for i := 0 to |rows|
      invariant clientArr == Merged(protocol, ssMethod, rows[..i])
    {
      assert rows[..i + 1][..i] == rows[..i];
      var c := rows[i];
      var obj: ClientObj := map["email" := JStr(c.email), "level" := JNum(0)];
      match protocol {
        case "vmess" =>
          obj := obj["id" := JStr(c.secret)];
          obj := obj["alterId" := JNum(c.alterId)];
        case "vless" =>
          obj := obj["id" := JStr(c.secret)];
          obj := obj["flow" := JStr(c.flow)];
        case "trojan" =>
          obj := obj["password" := JStr(c.secret)];
        case "shadowsocks" =>
          obj := obj["password" := JStr(c.secret)];
          if ssMethod != "" {
            obj := obj["method" := JStr(if HasPrefix(ssMethod, SS2022) then "" else ssMethod)];
          }
        case _ =>
      }
      assert obj == MergedClient(protocol, ssMethod, c);
      clientArr := clientArr + [obj];
    }
    assert rows[..|rows|] == rows;
  }

  predicate HasEmail(c: ClientObj, email: string) { "email" in c && c["email"] == JStr(email) }

  function DropEmail(cs: seq<ClientObj>, email: string): (r: seq<ClientObj>)
    ensures |r| <= |cs|
  {
    if cs == [] then []
    else
      var c := cs[|cs| - 1];
      DropEmail(cs[..|cs| - 1], email) + if HasEmail(c, email) then [] else [c]
  }

  /** The last client of that email, which is the one the removal loop remembers. */
  function LastOf(cs: seq<ClientObj>, email: string): (r: Option<ClientObj>)
    ensures r.Some? ==> r.value in cs && HasEmail(r.value, email)
    ensures r == None <==> forall c | c in cs :: !HasEmail(c, email)
  {
    if cs == [] then None
    else if HasEmail(cs[|cs| - 1], email) then Some(cs[|cs| - 1])
    else
      assert cs == cs[..|cs| - 1] + [cs[|cs| - 1]];
      LastOf(cs[..|cs| - 1], email)
  }

  function Count(cs: seq<ClientObj>, email: string): nat {
    if cs == [] then 0 else Count(cs[..|cs| - 1], email) + if HasEmail(cs[|cs| - 1], email) then 1 else 0
  }

  // ---------------------------------------------------------------- the inbound list

  /** The first inbound of that tag (and with settings, when asked for), |inbounds| when there is none. */
  function Find(inbounds: seq<Inbound>, tag: string, needSettings: bool): (i: nat)
    ensures i <= |inbounds|
    ensures i < |inbounds| ==> inbounds[i].tag == tag && (needSettings ==> inbounds[i].settings.Some?)
    ensures forall j :: 0 <= j < i ==> inbounds[j].tag != tag || (needSettings && inbounds[j].settings == None)
  {
    if inbounds == [] || (inbounds[0].tag == tag && (needSettings ==> inbounds[0].settings.Some?)) then 0
    else 1 + Find(inbounds[1..], tag, needSettings)
  }

  function ClientsOf(ib: Inbound): seq<ClientObj> {
    if ib.settings.Some? then ib.settings.value.clients else []
  }

  function WithClients(ib: Inbound, cs: seq<ClientObj>): Inbound {
    ib.(settings := Some(if ib.settings.Some? then ib.settings.value.(clients := cs) else Settings("", cs)))
  }

  function MethodOf(ib: Inbound): string { if ib.settings.Some? then ib.settings.value.ssMethod else "" }

  function AppendClient(inbounds: seq<Inbound>, tag: string, protocol: string, row: ClientRow): (r: seq<Inbound>)
    ensures |r| == |inbounds|
  {
    var i := Find(inbounds, tag, false);
    if i == |inbounds| then inbounds
    else
      var ib := inbounds[i];
      inbounds[i := WithClients(ib, ClientsOf(ib) + [ClientFor(protocol, MethodOf(ib), row)])]
  }

  function RemoveEmail(inbounds: seq<Inbound>, tag: string, email: string): (r: seq<Inbound>)
    ensures |r| == |inbounds|
  {
    var i := Find(inbounds, tag, true);
    if i == |inbounds| then inbounds
    else inbounds[i := WithClients(inbounds[i], DropEmail(ClientsOf(inbounds[i]), email))]
  }

  function RemovedClient(inbounds: seq<Inbound>, tag: string, email: string): Option<ClientObj> {
    var i := Find(inbounds, tag, true);
    if i == |inbounds| then None else LastOf(ClientsOf(inbounds[i]), email)
  }

  function PutBack(inbounds: seq<Inbound>, tag: string, c: ClientObj): (r: seq<Inbound>)
    ensures |r| == |inbounds|
  {
    var i := Find(inbounds, tag, true);
    if i == |inbounds| then inbounds
    else inbounds[i := WithClients(inbounds[i], ClientsOf(inbounds[i]) + [c])]
  }

  function DropTag(inbounds: seq<Inbound>, tag: string): seq<Inbound> {
    if inbounds == [] then []
    else
      var ib := inbounds[|inbounds| - 1];
      DropTag(inbounds[..|inbounds| - 1], tag) + if ib.tag == tag then [] else [ib]
  }

  function Update(st: State, inbounds: seq<Inbound>): State { st.(file := Some(inbounds)) }

  // ---------------------------------------------------------------- the commands

  /** Whether the removal and the re-adding of one reload succeed. */
  datatype Reload = Reload(rmi: bool, adi: bool)

  /** A shadowsocks client gets its method before it is re-added. */
  function FixMethod(ib: Inbound, c: ClientObj): (r: ClientObj)
    ensures "email" in c <==> "email" in r
    ensures "email" in c ==> c["email"] == r["email"]
  {
    var m := MethodOf(ib);
    if ib.protocol != "shadowsocks" || m == "" then c
    else if HasPrefix(m, SS2022) then c["method" := JStr("")]
    else if "method" in c then c
    else c["method" := JStr(m)]
  }

  function FixAll(ib: Inbound, cs: seq<ClientObj>): (r: seq<ClientObj>)
    ensures |r| == |cs|
  {
    seq(|cs|, i requires 0 <= i < |cs| => FixMethod(ib, cs[i]))
  }

  /** Removes the inbound from the process, whatever that answers, and adds it as the file has it. */
  function ReloadInbound(st: State, tag: string, o: Reload): (State, bool) {
    if st.file == None then (st, false)
    else
      var inbounds := st.file.value;
      var i := Find(inbounds, tag, false);
      if i == |inbounds| then (st, false)
      else
        var removed := if o.rmi then st.live - {tag} else st.live;
        if o.adi then (st.(live := removed[tag := FixAll(inbounds[i], ClientsOf(inbounds[i]))]), true)
        else (st.(live := removed), false)
  }

  datatype Outcome = Outcome(direct: bool, first: Reload, second: Reload)

  function HotAddUser(st: State, tag: string, row: ClientRow, protocol: string, o: Outcome): (State, bool) {
    if !st.running then (st, false)
    else
      var written := if st.file == None then st else Update(st, AppendClient(st.file.value, tag, protocol, row));
      if o.direct then
        var before := if tag in st.live then st.live[tag] else [];
        (written.(live := st.live[tag := before + [ClientFor(protocol, "", row)]]), true)
      else
        var (reloaded, ok) := ReloadInbound(written, tag, o.first);
        if ok then (reloaded, true)
        else
          var reverted := if reloaded.file == None then reloaded
              else Update(reloaded, RemoveEmail(reloaded.file.value, tag, row.email));
          (ReloadInbound(reverted, tag, o.second).0, false)
  }

  function HotRemoveUser(st: State, tag: string, email: string, o: Outcome): (State, bool) {
    if !st.running then (st, false)
    else
      var written := if st.file == None then st else Update(st, RemoveEmail(st.file.value, tag, email));
      if o.direct then
        var before := if tag in st.live then st.live[tag] else [];
        (written.(live := st.live[tag := DropEmail(before, email)]), true)
      else
        var (reloaded, ok) := ReloadInbound(written, tag, o.first);
        var removed := if st.file == None then None else RemovedClient(st.file.value, tag, email);
        if ok then (reloaded, true)
        else if removed == None then (reloaded, false)
        else
          var restored := Update(reloaded, PutBack(reloaded.file.value, tag, removed.value));
          (ReloadInbound(restored, tag, o.second).0, false)
  }

  const ApiInbound: Inbound := Inbound(API_TAG, "dokodemo-door", Some(Settings("", [])))

  function BaseConfig(inbounds: seq<Inbound>): seq<Inbound> { [ApiInbound] + inbounds }

  /** What the process serves after it loaded the file. */
  function Loaded(inbounds: seq<Inbound>): map<string, seq<ClientObj>> {
    map t | t in (set ib | ib in inbounds :: ib.tag) :: var i := Find(inbounds, t, false);
                                                        if i < |inbounds| then ClientsOf(inbounds[i]) else []
  }

  /** Start, and the check two seconds later that the process survived. */
  datatype StartOutcome = StartFails | Crashes | Survives

  function Started(st: State, o: StartOutcome): State {
    if o == Survives && st.file.Some? then st.(running := true, live := Loaded(st.file.value))
    else st.(running := false, live := map[])
  }

  /** hot: the command that adds to a running process; binary and start: what a stopped one needs. */
  datatype AddOutcome = AddOutcome(hot: bool, binary: bool, start: StartOutcome)

  function HotAddInbound(st: State, ib: Inbound, o: AddOutcome): (State, bool) {
    if !st.running then
      if !o.binary then (st, false)
      else
        var base := if st.file == None then BaseConfig([]) else st.file.value;
        (Started(Update(st, DropTag(base, ib.tag) + [ib]), o.start), o.start == Survives)
    else if !o.hot then (st, false)
    else
      var added := st.(live := st.live[ib.tag := ClientsOf(ib)]);
      (if st.file == None then added else Update(added, DropTag(st.file.value, ib.tag) + [ib]), true)
  }

  function HotRemoveInbound(st: State, tag: string, rmi: bool): (State, bool) {
    if !st.running || !rmi then (st, false)
    else
      var removed := st.(live := st.live - {tag});
      (if st.file == None then removed else Update(removed, DropTag(st.file.value, tag)), true)
  }

  /** Writes a fresh configuration and (re)starts; a failed start or a crash puts the old file back and starts again. */
  function ApplyConfig(st: State, inbounds: seq<Inbound>, o: StartOutcome, again: StartOutcome): (State, bool) {
    var started := Started(Update(st, BaseConfig(inbounds)), o);
    if o == Survives then (started, true)
    else if st.file == None then (started, false)
    else (Started(Update(started, st.file.value), again), false)
  }
}
