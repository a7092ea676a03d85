/** Flow quotas (go-backend/service/flow.go, go-backend/service/forward.go): uploads charge counters and pause
    what is over its limit, and users can create or resume only below their limits. */
module Quota {
  import opened Text
  import opened Rows

  datatype User = User(flow: nat, inFlow: int, outFlow: int, expTime: int, status: int)

  datatype Grant = Grant(userId: int, tunnelId: int, flow: nat, inFlow: int, outFlow: int, expTime: int, status: int)

  datatype Entry = Entry(userId: int, tunnelId: int, inFlow: int, outFlow: int, status: Status)

  /** grants are the user_tunnel rows; tunnels maps the tunnels there are to whether they are active. */
  datatype Book = Book(users: map<int, User>, grants: map<int, Grant>, tunnels: map<int, bool>,
      forwards: map<int, Entry>)

  const GB: int := 0x4000_0000

  predicate UserOver(u: User) { u.flow != 0 && u.flow * GB < u.inFlow + u.outFlow }

  predicate UserSpent(u: User) { u.flow != 0 && u.flow * GB <= u.inFlow + u.outFlow }

  predicate GrantSpent(g: Grant) { g.flow != 0 && g.flow * GB <= g.inFlow + g.outFlow }

  predicate Expired(expTime: int, now: int) { expTime > 0 && expTime <= now }

  // ---------------------------------------------------------------- uploads

  function Charge(b: Book, fid: int, uid: int, gid: int, d: int, u: int): Book {
    var forwards :=
      if fid !in b.forwards then b.forwards
      else var e := b.forwards[fid]; b.forwards[fid := e.(inFlow := e.inFlow + d, outFlow := e.outFlow + u)];
    var users :=
      if uid !in b.users then b.users
      else var v := b.users[uid]; b.users[uid := v.(inFlow := v.inFlow + d, outFlow := v.outFlow + u)];
    var grants :=
      if gid == 0 || gid !in b.grants then b.grants
      else var g := b.grants[gid]; b.grants[gid := g.(inFlow := g.inFlow + d, outFlow := g.outFlow + u)];
    Book(users, grants, b.tunnels, forwards)
  }

  function PausedEntry(b: Book, e: Entry): Entry {
    if e.tunnelId in b.tunnels then e.(status := Paused) else e
  }

  /** pauseForwardServices; a forward whose tunnel is gone is passed over. */
  function PauseThese(b: Book, ids: set<int>): Book {
    b.(forwards := map i | i in b.forwards :: if i in ids then PausedEntry(b, b.forwards[i]) else b.forwards[i])
  }

  function OfUser(b: Book, uid: int): set<int> { set i | i in b.forwards && b.forwards[i].userId == uid }

  function OfUserOn(b: Book, uid: int, tunnelId: int): set<int> {
    set i | i in b.forwards && b.forwards[i].tunnelId == tunnelId && b.forwards[i].userId == uid
  }

  function CheckUserLimits(b: Book, uid: int, now: int): Book {
    if uid in b.users && (UserOver(b.users[uid]) || Expired(b.users[uid].expTime, now) || b.users[uid].status != 1)
    then PauseThese(b, OfUser(b, uid)) else b
  }

  function CheckUserTunnelLimits(b: Book, gid: int, uid: int, now: int): Book {
    if gid in b.grants
        && (GrantSpent(b.grants[gid]) || Expired(b.grants[gid].expTime, now) || b.grants[gid].status != 1)
    then PauseThese(b, OfUserOn(b, uid, b.grants[gid].tunnelId)) else b
  }

  /** processFlowData for a service name fid_uid_gid, with the amounts to charge. */
  function ProcessFlowData(b: Book, fid: int, uid: int, gid: int, d: int, u: int, now: int): Book {
    if fid !in b.forwards then b
    else
      var charged := Charge(b, fid, uid, gid, d, u);
      if gid == 0 then charged
      else CheckUserTunnelLimits(CheckUserLimits(charged, uid, now), gid, uid, now)
  }

  // ---------------------------------------------------------------- the other handlers

  predicate Grants(b: Book, g: int, uid: int, tunnelId: int) {
    g in b.grants && b.grants[g].userId == uid && b.grants[g].tunnelId == tunnelId
  }

  ghost predicate UniqueGrants(b: Book) {
    forall g, h, uid, t :: Grants(b, g, uid, t) && Grants(b, h, uid, t) ==> g == h
  }

  /** What lets a user create on a tunnel, or resume there. */
  predicate MayUse(b: Book, uid: int, g: int, now: int)
    requires g in b.grants
  {
    && uid in b.users
    && !(b.users[uid].expTime != 0 && b.users[uid].expTime <= now)
    && b.grants[g].status == 1
    && !(b.grants[g].expTime != 0 && b.grants[g].expTime <= now)
    && !UserSpent(b.users[uid])
    && !GrantSpent(b.grants[g])
  }

  ghost predicate Permitted(b: Book, uid: int, tunnelId: int, now: int) {
    exists g :: Grants(b, g, uid, tunnelId) && MayUse(b, uid, g, now)
  }

  /** other: ports, counts of forwards, node access and addresses; synced: what the nodes answer. */
  ghost function UserCreate(b: Book, id: int, uid: int, tunnelId: int, other: bool, synced: bool, now: int): Book {
    if tunnelId in b.tunnels && b.tunnels[tunnelId] && other && Permitted(b, uid, tunnelId, now)
    then b.(forwards := b.forwards[id := Entry(uid, tunnelId, 0, 0, if synced then Active else Error)])
    else b
  }

  ghost function UserResume(b: Book, id: int, uid: int, synced: bool, now: int): Book {
    if id in b.forwards && b.forwards[id].userId == uid
       && uid in b.users && b.users[uid].status != 0
       && b.forwards[id].tunnelId in b.tunnels && b.tunnels[b.forwards[id].tunnelId]
       && Permitted(b, uid, b.forwards[id].tunnelId, now) && synced
    then b.(forwards := b.forwards[id := b.forwards[id].(status := Active)])
    else b
  }

  function Pause(b: Book, id: int, done: bool): Book {
    if id in b.forwards && b.forwards[id].tunnelId in b.tunnels && done
    then b.(forwards := b.forwards[id := b.forwards[id].(status := Paused)])
    else b
  }

  function Delete(b: Book, id: int, done: bool): Book { if done then b.(forwards := b.forwards - {id}) else b }

  function ResetUser(b: Book, uid: int): Book {
    if uid in b.users then b.(users := b.users[uid := b.users[uid].(inFlow := 0, outFlow := 0)]) else b
  }

  function ResetGrant(b: Book, g: int): Book {
    if g in b.grants then b.(grants := b.grants[g := b.grants[g].(inFlow := 0, outFlow := 0)]) else b
  }

  datatype Op =
    | Upload(fid: int, uid: int, gid: int, d: int, u: int, now: int)
    | Create(id: int, uid: int, tunnelId: int, other: bool, synced: bool, now: int)
    | Resume(id: int, uid: int, synced: bool, now: int)
    | PauseOp(id: int, done: bool)
    | DeleteOp(id: int, done: bool)
    | ResetUserOp(uid: int)
    | ResetGrantOp(gid: int)

  ghost function Exec(b: Book, op: Op): Book {
    match op
    case Upload(fid, uid, gid, d, u, now) => ProcessFlowData(b, fid, uid, gid, d, u, now)
    case Create(id, uid, t, other, synced, now) => UserCreate(b, id, uid, t, other, synced, now)
    case Resume(id, uid, synced, now) => UserResume(b, id, uid, synced, now)
    case PauseOp(id, done) => Pause(b, id, done)
    case DeleteOp(id, done) => Delete(b, id, done)
    case ResetUserOp(uid) => ResetUser(b, uid)
    case ResetGrantOp(g) => ResetGrant(b, g)
  }

  ghost function Run(b: Book, ops: seq<Op>): Book {
    if ops == [] then b else Exec(Run(b, ops[..|ops| - 1]), ops[|ops| - 1])
  }

  /** Uploads name a user tunnel, and the user it belongs to. */
  predicate WellNamed(b: Book, op: Op) {
    op.Upload? ==> op.gid != 0 && (op.gid in b.grants ==> b.grants[op.gid].userId == op.uid)
  }

  ghost predicate WellNamedRun(b: Book, ops: seq<Op>) {
    forall k :: 0 <= k < |ops| ==> WellNamed(Run(b, ops[..k]), ops[k])
  }

  // ---------------------------------------------------------------- what holds over every run

  /** A forward that its user's limit or its grant's limit rules out is paused. */
  ghost predicate Stopped(b: Book, i: int) {
    i in b.forwards && b.forwards[i].tunnelId in b.tunnels ==> b.forwards[i].status == Paused
  }

  ghost predicate UsersLimited(b: Book) {
    forall i :: i in b.forwards && b.forwards[i].userId in b.users && UserOver(b.users[b.forwards[i].userId]) ==>
        Stopped(b, i)
  }

  ghost predicate GrantsLimited(b: Book) {
    forall g, i :: i in b.forwards && Grants(b, g, b.forwards[i].userId, b.forwards[i].tunnelId) ==>
                     GrantSpent(b.grants[g]) ==> Stopped(b, i)
  }

  ghost predicate Limited(b: Book) { UniqueGrants(b) && UsersLimited(b) && GrantsLimited(b) }

  lemma ChargeKeepsOthers(b: Book, fid: int, uid: int, gid: int, d: int, u: int)
    ensures var c := Charge(b, fid, uid, gid, d, u);
            && c.forwards.Keys == b.forwards.Keys && c.tunnels == b.tunnels
            && c.users.Keys == b.users.Keys && c.grants.Keys == b.grants.Keys
            && (forall i :: i in b.forwards ==>
                  && c.forwards[i].userId == b.forwards[i].userId
                  && c.forwards[i].tunnelId == b.forwards[i].tunnelId
                  && c.forwards[i].status == b.forwards[i].status)
            && (forall v :: v in b.users && v != uid ==> c.users[v] == b.users[v])
            && (forall g :: g in b.grants && g != gid ==> c.grants[g] == b.grants[g])
            && (forall g :: g in b.grants ==>
                  c.grants[g].userId == b.grants[g].userId && c.grants[g].tunnelId == b.grants[g].tunnelId)
  {
  }

  lemma CheckedUser(b: Book, uid: int, now: int)
    ensures var c := CheckUserLimits(b, uid, now);
            && c.users == b.users && c.grants == b.grants && c.tunnels == b.tunnels
                  && c.forwards.Keys == b.forwards.Keys
            && (forall i :: i in b.forwards ==>
                  c.forwards[i] == b.forwards[i] || c.forwards[i] == b.forwards[i].(status := Paused))
            && (uid in b.users && UserOver(b.users[uid]) ==>
                  forall i :: i in b.forwards && b.forwards[i].userId == uid ==> Stopped(c, i))
  {
  }

  lemma CheckedGrant(b: Book, gid: int, uid: int, now: int)
    ensures var c := CheckUserTunnelLimits(b, gid, uid, now);
            && c.users == b.users && c.grants == b.grants && c.tunnels == b.tunnels
                  && c.forwards.Keys == b.forwards.Keys
            && (forall i :: i in b.forwards ==>
                  c.forwards[i] == b.forwards[i] || c.forwards[i] == b.forwards[i].(status := Paused))
            && (gid in b.grants && GrantSpent(b.grants[gid]) ==>
                  forall i :: i in OfUserOn(b, uid, b.grants[gid].tunnelId) ==> Stopped(c, i))
  {
  }

  lemma UploadLimited(b: Book, fid: int, uid: int, gid: int, d: int, u: int, now: int)
    requires Limited(b) && gid != 0 && (gid in b.grants ==> b.grants[gid].userId == uid)
    ensures Limited(ProcessFlowData(b, fid, uid, gid, d, u, now))
  {
    if fid in b.forwards {
      hide Charge, CheckUserLimits, CheckUserTunnelLimits, UserOver, GrantSpent;
      var c := Charge(b, fid, uid, gid, d, u);
      var c1 := CheckUserLimits(c, uid, now);
      var c2 := CheckUserTunnelLimits(c1, gid, uid, now);
      ChargeKeepsOthers(b, fid, uid, gid, d, u);
      CheckedUser(c, uid, now);
      CheckedGrant(c1, gid, uid, now);
      forall g, v, t | Grants(c2, g, v, t) ensures Grants(b, g, v, t) {
      }
      forall i | i in c2.forwards && c2.forwards[i].userId in c2.users
          && UserOver(c2.users[c2.forwards[i].userId]) ensures Stopped(c2, i) {
        if c2.forwards[i].userId == uid {
          assert Stopped(c1, i);
        } else {
          assert Stopped(b, i);
        }
      }
      forall g, i | i in c2.forwards && Grants(c2, g, c2.forwards[i].userId, c2.forwards[i].tunnelId)
          && GrantSpent(c2.grants[g]) ensures Stopped(c2, i) {
        if g != gid {
          assert Grants(b, g, b.forwards[i].userId, b.forwards[i].tunnelId);
          assert Stopped(b, i);
        }
      }
    }
  }

  /** A write to one forward keeps the limits when the forward is paused or its user and grant are below theirs. */
  lemma WriteLimited(b: Book, id: int, e: Entry)
    requires Limited(b)
    requires e.status == Paused
             || ((e.userId in b.users ==> !UserOver(b.users[e.userId])) && forall g ::
                   Grants(b, g, e.userId, e.tunnelId) ==> !GrantSpent(b.grants[g]))
    ensures Limited(b.(forwards := b.forwards[id := e]))
  {
    hide UserOver, GrantSpent;
    var c := b.(forwards := b.forwards[id := e]);
    forall g, v, t ensures Grants(c, g, v, t) == Grants(b, g, v, t) {
    }
    forall i | i in c.forwards && i != id ensures Stopped(b, i) ==> Stopped(c, i) {
    }
  }

  lemma ResetLimited(b: Book, c: Book)
    requires Limited(b) && c.forwards == b.forwards && c.tunnels == b.tunnels
    requires c.users.Keys == b.users.Keys && forall v :: v in c.users && UserOver(c.users[v]) ==>
               c.users[v] == b.users[v]
    requires c.grants.Keys == b.grants.Keys
    requires forall g :: g in c.grants ==>
               c.grants[g].userId == b.grants[g].userId && c.grants[g].tunnelId == b.grants[g].tunnelId
    requires forall g :: g in c.grants && GrantSpent(c.grants[g]) ==> GrantSpent(b.grants[g])
    ensures Limited(c)
  {
    hide UserOver, GrantSpent;
    forall g, v, t ensures Grants(c, g, v, t) == Grants(b, g, v, t) {
    }
    forall i ensures Stopped(b, i) == Stopped(c, i) {
    }
  }

  lemma PermittedIsBelow(b: Book, uid: int, tunnelId: int, now: int)
    requires UniqueGrants(b) && Permitted(b, uid, tunnelId, now)
    ensures uid in b.users && !UserOver(b.users[uid])
    ensures forall g :: Grants(b, g, uid, tunnelId) ==> !GrantSpent(b.grants[g])
  {
  }

  lemma ExecLimited(b: Book, op: Op)
    requires Limited(b) && WellNamed(b, op)
    ensures Limited(Exec(b, op))
  {
    hide UserOver, GrantSpent, Limited, ProcessFlowData, Permitted;
    match op
    case Upload(fid, uid, gid, d, u, now) => UploadLimited(b, fid, uid, gid, d, u, now);
    case Create(id, uid, t, other, synced, now) =>
      if Exec(b, op) != b {
        BelowLimits(b, uid, t, now);
        WriteLimited(b, id, Entry(uid, t, 0, 0, if synced then Active else Error));
      }
    case Resume(id, uid, synced, now) =>
      if Exec(b, op) != b {
        BelowLimits(b, uid, b.forwards[id].tunnelId, now);
        WriteLimited(b, id, b.forwards[id].(status := Active));
      }
    case PauseOp(id, done) =>
      if Exec(b, op) != b {
        WriteLimited(b, id, b.forwards[id].(status := Paused));
      }
    case DeleteOp(id, done) => DeleteLimited(b, id, done);
    case ResetUserOp(uid) => ResetUserLimited(b, uid);
    case ResetGrantOp(g) => ResetGrantLimited(b, g);
  }

  lemma BelowLimits(b: Book, uid: int, tunnelId: int, now: int)
    requires Limited(b) && Permitted(b, uid, tunnelId, now)
    ensures uid in b.users && !UserOver(b.users[uid])
    ensures forall g :: Grants(b, g, uid, tunnelId) ==> !GrantSpent(b.grants[g])
  {
    PermittedIsBelow(b, uid, tunnelId, now);
  }

  lemma DeleteLimited(b: Book, id: int, done: bool)
    requires Limited(b)
    ensures Limited(Delete(b, id, done))
  {
    hide UserOver, GrantSpent;
    var c := Delete(b, id, done);
    forall g, v, t ensures Grants(c, g, v, t) == Grants(b, g, v, t) {
    }
    forall i | i in c.forwards ensures Stopped(b, i) ==> Stopped(c, i) {
    }
  }

  lemma ResetUserLimited(b: Book, uid: int)
    requires Limited(b)
    ensures Limited(ResetUser(b, uid))
  {
    hide Limited;
    ResetLimited(b, ResetUser(b, uid));
  }

  lemma ResetGrantLimited(b: Book, g: int)
    requires Limited(b)
    ensures Limited(ResetGrant(b, g))
  {
    hide Limited;
    ResetLimited(b, ResetGrant(b, g));
  }

  /** Over every run of uploads that name a user tunnel, user creations, user resumptions, pauses, deletions and
      counter resets, with every answer of the nodes: a forward of a user strictly over his limit, or on a tunnel
      where his grant is used up, is paused (unless its tunnel row is gone). */
  lemma {:induction false} RunLimited(b: Book, ops: seq<Op>)
    requires Limited(b) && WellNamedRun(b, ops)
    ensures Limited(Run(b, ops))
  {
    hide Exec, Limited, WellNamed;
    if ops != [] {
      var before := ops[..|ops| - 1];
      assert forall k :: 0 <= k < |before| ==> before[..k] == ops[..k];
      RunLimited(b, before);
      ExecLimited(Run(b, before), ops[|ops| - 1]);
    }
  }

  /** An upload that names no user tunnel charges without checking: it keeps the users' limits exactly when it
      does not take its user over the limit, or his forwards are stopped already. */
  lemma UnnamedUpload(b: Book, fid: int, uid: int, d: int, u: int, now: int)
    requires UsersLimited(b) && fid in b.forwards && uid in b.users
    ensures var over := b.users[uid].(inFlow := b.users[uid].inFlow + d, outFlow := b.users[uid].outFlow + u);
            UsersLimited(ProcessFlowData(b, fid, uid, 0, d, u, now)) <==>
            (UserOver(over) ==> forall i :: i in b.forwards && b.forwards[i].userId == uid ==> Stopped(b, i))
  {
    var c := ProcessFlowData(b, fid, uid, 0, d, u, now);
    assert c == Charge(b, fid, uid, 0, d, u);
    hide Charge, UserOver, ProcessFlowData;
    ChargeKeepsOthers(b, fid, uid, 0, d, u);
    ChargedUser(b, fid, uid, 0, d, u);
    forall i ensures Stopped(b, i) == Stopped(c, i) {
    }
  }

  /** Such an upload takes a user with a limit of one past it, and his forward runs on. */
  lemma UnnamedUploadPasses(now: int)
    ensures var b := Book(map[1 := User(1, 0, 0, 0, 1)], map[], map[1 := true], map[1 := Entry(1, 1, 0, 0, Active)]);
            UsersLimited(b) && !UsersLimited(ProcessFlowData(b, 1, 1, 0, GB + 1, 0, now))
  {
    var b := Book(map[1 := User(1, 0, 0, 0, 1)], map[], map[1 := true], map[1 := Entry(1, 1, 0, 0, Active)]);
    assert UsersLimited(b);
    UnnamedUpload(b, 1, 1, GB + 1, 0, now);
    assert !Stopped(b, 1);
  }

  lemma ChargedUser(b: Book, fid: int, uid: int, gid: int, d: int, u: int)
    requires uid in b.users
    ensures Charge(b, fid, uid, gid, d, u).users
            == b.users[uid := b.users[uid].(inFlow := b.users[uid].inFlow + d, outFlow := b.users[uid].outFlow + u)]
  {
  }

  datatype Amounts = Amounts(down: int, up: int)

  /** What the uploads of a run charge to a user. */
  ghost function Charged(b: Book, ops: seq<Op>, uid: int): Amounts {
    if ops == [] then Amounts(0, 0)
    else
      var before, op := Charged(b, ops[..|ops| - 1], uid), ops[|ops| - 1];
      if op.Upload? && op.uid == uid && op.fid in Run(b, ops[..|ops| - 1]).forwards
      then Amounts(before.down + op.d, before.up + op.u) else before
  }

  lemma ExecCharges(b: Book, op: Op, uid: int)
    requires uid in b.users && op != ResetUserOp(uid)
    ensures uid in Exec(b, op).users
    ensures Exec(b, op).users[uid] ==
            if op.Upload? && op.uid == uid && op.fid in b.forwards
            then b.users[uid].(inFlow := b.users[uid].inFlow + op.d, outFlow := b.users[uid].outFlow + op.u)
            else b.users[uid]
  {
    hide CheckUserLimits, CheckUserTunnelLimits, Charge, Permitted, UserOver, GrantSpent;
    if op.Upload? {
      var charged := Charge(b, op.fid, op.uid, op.gid, op.d, op.u);
      ChargeKeepsOthers(b, op.fid, op.uid, op.gid, op.d, op.u);
      if op.uid in b.users {
        ChargedUser(b, op.fid, op.uid, op.gid, op.d, op.u);
      }
      CheckedUser(charged, op.uid, op.now);
      CheckedGrant(CheckUserLimits(charged, op.uid, op.now), op.gid, op.uid, op.now);
    }
  }

  /** Until his counters are reset, what a user has used is exactly what was uploaded in his name: nothing that
      creates, pauses, resumes or deletes forwards, and no limit, changes it. */
  lemma {:induction false} CountersAddUp(b: Book, ops: seq<Op>, uid: int)
    requires uid in b.users && ResetUserOp(uid) !in ops
    ensures uid in Run(b, ops).users
    ensures Run(b, ops).users[uid] == b.users[uid].(inFlow := b.users[uid].inFlow + Charged(b, ops, uid).down,
                                                    outFlow := b.users[uid].outFlow + Charged(b, ops, uid).up)
  {
    hide Exec;
    if ops != [] {
      var before, op := ops[..|ops| - 1], ops[|ops| - 1];
      assert ops == before + [op];
      CountersAddUp(b, before, uid);
      ExecCharges(Run(b, before), op, uid);
    }
  }

  // ---------------------------------------------------------------- the rows in place

  class Ledger {
    var users: map<int, User>
    var grants: map<int, Grant>
    var tunnels: map<int, bool>
    var forwards: map<int, Entry>

    ghost function Now(): Book reads this { Book(users, grants, tunnels, forwards) }

    /** The loop of pauseForwardServices over rows read before it, in any order. */
    method PauseForwardServices(ids: set<int>)
      requires ids <= forwards.Keys
      modifies this`forwards
      ensures Now() == PauseThese(old(Now()), ids)
    {
      var todo := ids;
      while todo != {}
        invariant todo <= ids && forwards.Keys == old(forwards).Keys
        invariant forall i :: i in forwards ==>
                    forwards[i] ==
                    if i in ids && i !in todo then PausedEntry(old(Now()), old(forwards)[i]) else old(forwards)[i]
        decreases todo
      {
        SomeMember(todo);
        var i :| i in todo;
        todo := todo - {i};
        if forwards[i].status != Paused && forwards[i].tunnelId in tunnels {
          forwards := forwards[i := forwards[i].(status := Paused)];
        }
      }
      ghost var want := PauseThese(old(Now()), ids).forwards;
      assert forall i :: i in want ==> forwards[i] == want[i];
      assert forwards == want;
    }

    method ProcessFlow(fid: int, uid: int, gid: int, d: int, u: int, now: int)
      modifies this
      ensures Now() == ProcessFlowData(old(Now()), fid, uid, gid, d, u, now)
    {
      if fid !in forwards { return; }
      forwards := forwards[fid := forwards[fid].(inFlow := forwards[fid].inFlow + d,
          outFlow := forwards[fid].outFlow + u)];
      if uid in users {
        users := users[uid := users[uid].(inFlow := users[uid].inFlow + d, outFlow := users[uid].outFlow + u)];
      }
      if gid != 0 && gid in grants {
        grants := grants[gid := grants[gid].(inFlow := grants[gid].inFlow + d, outFlow := grants[gid].outFlow + u)];
      }
      assert Now() == Charge(old(Now()), fid, uid, gid, d, u);
      if gid != 0 {
        hide PauseThese;
        CheckUser(uid, now);
        CheckGrant(gid, uid, now);
      }
    }

    method CheckUser(uid: int, now: int)
      modifies this`forwards
      ensures Now() == CheckUserLimits(old(Now()), uid, now)
    {
      hide PauseThese;
      if uid !in users { return; }
      var user := users[uid];
      var mine := set i | i in forwards && forwards[i].userId == uid;
      assert mine == OfUser(Now(), uid);
      if user.flow != 0 {
        var userFlowLimit, userCurrentFlow := user.flow * GB, user.inFlow + user.outFlow;
        if userFlowLimit < userCurrentFlow {
          PauseForwardServices(mine);
          return;
        }
      }
      if user.expTime > 0 && user.expTime <= now {
        PauseForwardServices(mine);
        return;
      }
      if user.status != 1 {
        PauseForwardServices(mine);
      }
    }

    method CheckGrant(gid: int, uid: int, now: int)
      modifies this`forwards
      ensures Now() == CheckUserTunnelLimits(old(Now()), gid, uid, now)
    {
      hide PauseThese;
      if gid !in grants { return; }
      var ut := grants[gid];
      var mine := set i | i in forwards && forwards[i].tunnelId == ut.tunnelId && forwards[i].userId == uid;
      assert mine == OfUserOn(Now(), uid, ut.tunnelId);
      if ut.flow != 0 {
        var flow := ut.inFlow + ut.outFlow;
        if flow >= ut.flow * GB {
          PauseForwardServices(mine);
          return;
        }
      }
      if ut.expTime > 0 && ut.expTime <= now {
        PauseForwardServices(mine);
        return;
      }
      if ut.status != 1 {
        PauseForwardServices(mine);
      }
    }
  }
}
