/** Why a forward is paused: exactly which uploads pause it, and that over whole runs nothing else does but a pause of
    its own (go-backend/service/flow.go, go-backend/service/forward.go). Limits are spelled out on the rows. */
module QuotaPauses {
  import opened Rows
  import opened Quota

  /** After an upload of d and u the user may not go on: past his limit, expired or not enabled. */
  predicate UserOut(v: User, d: int, u: int, now: int) {
    || (v.flow > 0 && v.inFlow + d + v.outFlow + u > v.flow * 1073741824)
    || (v.expTime > 0 && v.expTime <= now)
    || v.status != 1
  }

  /** Likewise the grant: its limit counts as used up when it is reached. */
  predicate GrantOut(g: Grant, d: int, u: int, now: int) {
    || (g.flow > 0 && g.inFlow + d + g.outFlow + u >= g.flow * 1073741824)
    || (g.expTime > 0 && g.expTime <= now)
    || g.status != 1
  }

  /** The upload rules forward i out. */
  predicate RulesOut(b: Book, uid: int, gid: int, d: int, u: int, now: int, i: int)
    requires i in b.forwards
  {
    && gid != 0 && b.forwards[i].userId == uid
    && (|| (uid in b.users && UserOut(b.users[uid], d, u, now))
        || (gid in b.grants && b.grants[gid].tunnelId == b.forwards[i].tunnelId && GrantOut(b.grants[gid], d, u, now)))
  }

  /** The rows that a limit rules out are paused where their tunnel exists, the others are as they were. */
  ghost predicate Stops(b: Book, c: Book, out: set<int>) {
    && c.users == b.users && c.grants == b.grants && c.tunnels == b.tunnels && c.forwards.Keys == b.forwards.Keys
    && forall i :: i in b.forwards ==>
         c.forwards[i] == if i in out && b.forwards[i].tunnelId in b.tunnels then b.forwards[i].(status := Paused)
                          else b.forwards[i]
  }

  lemma UserCheckStops(b: Book, uid: int, now: int)
    ensures Stops(b, CheckUserLimits(b, uid, now), set i | i in b.forwards && b.forwards[i].userId == uid
                                                          && uid in b.users && UserOut(b.users[uid], 0, 0, now))
  {
  }

  lemma GrantCheckStops(b: Book, gid: int, uid: int, now: int)
    ensures Stops(b, CheckUserTunnelLimits(b, gid, uid, now),
                  set i | i in b.forwards && b.forwards[i].userId == uid && gid in b.grants
                          && b.grants[gid].tunnelId == b.forwards[i].tunnelId && GrantOut(b.grants[gid], 0, 0, now))
  {
  }

  /** What an upload of a known forward charges: that forward, the named user and the named grant. */
  ghost predicate Charges(b: Book, c: Book, fid: int, uid: int, gid: int, d: int, u: int) {
    && c.tunnels == b.tunnels
    && c.users.Keys == b.users.Keys && c.grants.Keys == b.grants.Keys && c.forwards.Keys == b.forwards.Keys
    && (forall v :: v in b.users ==>
          c.users[v] == if v != uid then b.users[v]
                        else b.users[v].(inFlow := b.users[v].inFlow + d, outFlow := b.users[v].outFlow + u))
    && (forall g :: g in b.grants ==>
          c.grants[g] == if g != gid || gid == 0 then b.grants[g]
                         else b.grants[g].(inFlow := b.grants[g].inFlow + d, outFlow := b.grants[g].outFlow + u))
    && (forall i :: i in b.forwards ==>
          && c.forwards[i].userId == b.forwards[i].userId && c.forwards[i].tunnelId == b.forwards[i].tunnelId
          && c.forwards[i].inFlow == b.forwards[i].inFlow + (if i == fid then d else 0)
          && c.forwards[i].outFlow == b.forwards[i].outFlow + (if i == fid then u else 0))
  }

  lemma ChargeCharges(b: Book, fid: int, uid: int, gid: int, d: int, u: int)
    requires fid in b.forwards
    ensures Charges(b, Charge(b, fid, uid, gid, d, u), fid, uid, gid, d, u)
    ensures forall i :: i in b.forwards ==> Charge(b, fid, uid, gid, d, u).forwards[i].status == b.forwards[i].status
  {
  }

  lemma StopsCharges(b: Book, c: Book, c': Book, fid: int, uid: int, gid: int, d: int, u: int, out: set<int>)
    requires Charges(b, c, fid, uid, gid, d, u) && Stops(c, c', out)
    ensures Charges(b, c', fid, uid, gid, d, u)
  {
  }

  lemma ChargedRows(b: Book, c: Book, fid: int, uid: int, gid: int, d: int, u: int)
    requires Charges(b, c, fid, uid, gid, d, u)
    ensures c.tunnels == b.tunnels && c.forwards.Keys == b.forwards.Keys
    ensures forall i :: i in b.forwards ==> c.forwards[i].tunnelId == b.forwards[i].tunnelId
  {
  }

  lemma StopsTwice(b: Book, c: Book, c1: Book, c2: Book, users: set<int>, grants: set<int>)
    requires c.tunnels == b.tunnels && c.forwards.Keys == b.forwards.Keys
    requires forall i :: i in b.forwards ==>
               c.forwards[i].status == b.forwards[i].status && c.forwards[i].tunnelId == b.forwards[i].tunnelId
    requires Stops(c, c1, users) && Stops(c1, c2, grants)
    ensures forall i :: i in b.forwards ==>
              && i in c2.forwards
              && (c2.forwards[i].status != b.forwards[i].status <==>
                    b.forwards[i].status != Paused && b.forwards[i].tunnelId in b.tunnels && i in users + grants)
              && (c2.forwards[i].status != b.forwards[i].status ==> c2.forwards[i].status == Paused)
  {
  }

  lemma OutAfterCharge(b: Book, c: Book, c1: Book, fid: int, uid: int, gid: int, d: int, u: int, now: int, i: int)
    requires Charges(b, c, fid, uid, gid, d, u) && Charges(b, c1, fid, uid, gid, d, u) && gid != 0
    requires i in b.forwards
    ensures i in c.forwards && i in c1.forwards && c.forwards[i].userId == c1.forwards[i].userId
    ensures RulesOut(b, uid, gid, d, u, now, i) <==>
              && c.forwards[i].userId == uid
              && (|| (uid in c.users && UserOut(c.users[uid], 0, 0, now))
                  || (gid in c1.grants && c1.grants[gid].tunnelId == c1.forwards[i].tunnelId
                      && GrantOut(c1.grants[gid], 0, 0, now)))
  {
  }

  lemma UnnamedRulesNoneOut(b: Book, uid: int, d: int, u: int, now: int)
    ensures forall i | i in b.forwards :: !RulesOut(b, uid, 0, d, u, now, i)
  {
  }

  /** The whole effect of an upload of a known forward: it charges, and pauses exactly the running forwards it rules out
      whose tunnel exists. */
  lemma UploadEffect(b: Book, fid: int, uid: int, gid: int, d: int, u: int, now: int)
    requires fid in b.forwards
    ensures Charges(b, ProcessFlowData(b, fid, uid, gid, d, u, now), fid, uid, gid, d, u)
    ensures var c := ProcessFlowData(b, fid, uid, gid, d, u, now);
            forall i :: i in b.forwards ==>
              && i in c.forwards
              && (c.forwards[i].status != b.forwards[i].status <==>
                    && b.forwards[i].status != Paused && b.forwards[i].tunnelId in b.tunnels
                    && RulesOut(b, uid, gid, d, u, now, i))
              && (c.forwards[i].status != b.forwards[i].status ==> c.forwards[i].status == Paused)
  {
    hide Charge, CheckUserLimits, CheckUserTunnelLimits, Stops, Charges, UserOut, GrantOut, RulesOut;
    var c := Charge(b, fid, uid, gid, d, u);
    ChargeCharges(b, fid, uid, gid, d, u);
    ChargedRows(b, c, fid, uid, gid, d, u);
    if gid == 0 {
      UnnamedRulesNoneOut(b, uid, d, u, now);
    } else {
      var c1 := CheckUserLimits(c, uid, now);
      UserCheckStops(c, uid, now);
      var users := set i | i in c.forwards && c.forwards[i].userId == uid
                           && uid in c.users && UserOut(c.users[uid], 0, 0, now);
      StopsCharges(b, c, c1, fid, uid, gid, d, u, users);
      GrantCheckStops(c1, gid, uid, now);
      var grants := set i | i in c1.forwards && c1.forwards[i].userId == uid && gid in c1.grants
                            && c1.grants[gid].tunnelId == c1.forwards[i].tunnelId
                            && GrantOut(c1.grants[gid], 0, 0, now);
      StopsCharges(b, c1, CheckUserTunnelLimits(c1, gid, uid, now), fid, uid, gid, d, u, grants);
      forall i | i in b.forwards ensures i in users + grants <==> RulesOut(b, uid, gid, d, u, now, i) {
        OutAfterCharge(b, c, c1, fid, uid, gid, d, u, now, i);
      }
      StopsTwice(b, c, c1, CheckUserTunnelLimits(c1, gid, uid, now), users, grants);
    }
  }

  lemma UnknownUpload(b: Book, fid: int, uid: int, gid: int, d: int, u: int, now: int)
    ensures fid !in b.forwards ==> ProcessFlowData(b, fid, uid, gid, d, u, now) == b
  {
  }

  /** The upload pauses forward i. */
  ghost predicate PausedByUpload(b: Book, op: Op, i: int) {
    && op.Upload? && op.fid in b.forwards && i in b.forwards
    && b.forwards[i].status != Paused && b.forwards[i].tunnelId in b.tunnels
    && RulesOut(b, op.uid, op.gid, op.d, op.u, op.now, i)
  }

  ghost predicate PausesItself(b: Book, op: Op, i: int) {
    op == PauseOp(i, true) && i in b.forwards && b.forwards[i].tunnelId in b.tunnels
  }

  ghost predicate IsPaused(b: Book, i: int) { i in b.forwards && b.forwards[i].status == Paused }

  /** One step pauses a forward that was not paused if and only if it is such an upload or the forward's own pause. */
  lemma StepPauses(b: Book, op: Op, i: int)
    requires !IsPaused(b, i)
    ensures IsPaused(Exec(b, op), i) <==> PausedByUpload(b, op, i) || PausesItself(b, op, i)
  {
    hide Permitted, RulesOut, ProcessFlowData, Charges;
    if op.Upload? {
      UnknownUpload(b, op.fid, op.uid, op.gid, op.d, op.u, op.now);
      if op.fid in b.forwards {
        UploadEffect(b, op.fid, op.uid, op.gid, op.d, op.u, op.now);
        ChargedRows(b, Exec(b, op), op.fid, op.uid, op.gid, op.d, op.u);
      }
    }
  }

  /** Over a run, a forward that was not paused before is paused at the end if and only if some step pauses it, by one
      of those two causes, and it is paused from then on. */
  lemma {:induction false} RunPauses(b: Book, ops: seq<Op>, i: int)
    requires !IsPaused(b, i)
    ensures IsPaused(Run(b, ops), i) <==>
              exists k :: 0 <= k < |ops| && PausedAtStep(b, ops, i, k) && StaysPaused(b, ops, i, k)
  {
    hide Exec, IsPaused, PausedByUpload, PausesItself;
    assert ops[..|ops|] == ops;
    if ops == [] {
    } else {
      var rest, op := ops[..|ops| - 1], ops[|ops| - 1];
      assert ops == rest + [op];
      forall m | 0 <= m <= |rest| ensures ops[..m] == rest[..m] {
      }
      RunPauses(b, rest, i);
      if IsPaused(Run(b, ops), i) {
        if IsPaused(Run(b, rest), i) {
          var k :| 0 <= k < |rest| && PausedAtStep(b, rest, i, k) && StaysPaused(b, rest, i, k);
          assert PausedAtStep(b, ops, i, k) && StaysPaused(b, ops, i, k);
        } else {
          StepPauses(Run(b, rest), op, i);
          assert PausedAtStep(b, ops, i, |rest|) && StaysPaused(b, ops, i, |rest|);
        }
      }
    }
  }

  ghost predicate PausedAtStep(b: Book, ops: seq<Op>, i: int, k: nat)
    requires k < |ops|
  {
    var before := Run(b, ops[..k]);
    !IsPaused(before, i) && (PausedByUpload(before, ops[k], i) || PausesItself(before, ops[k], i))
  }

  ghost predicate StaysPaused(b: Book, ops: seq<Op>, i: int, k: nat) {
    forall m :: k < m <= |ops| ==> IsPaused(Run(b, ops[..m]), i)
  }

  // ---------------------------------------------------------------- what the other handlers write

  /** The user may create or resume on the tunnel: it exists and is enabled, he has not expired and has not used up his
      limit, and he has a grant there that is enabled, has not expired and is not used up. */
  ghost predicate MayRun(b: Book, uid: int, tunnelId: int, now: int) {
    && tunnelId in b.tunnels && b.tunnels[tunnelId] && uid in b.users
    && var v := b.users[uid];
       && (v.expTime == 0 || now < v.expTime) && (v.flow == 0 || v.inFlow + v.outFlow < v.flow * 1073741824)
       && exists g | g in b.grants ::
            var h := b.grants[g];
            && h.userId == uid && h.tunnelId == tunnelId && h.status == 1 && (h.expTime == 0 || now < h.expTime)
            && (h.flow == 0 || h.inFlow + h.outFlow < h.flow * 1073741824)
  }

  lemma PermittedMeans(b: Book, uid: int, tunnelId: int, now: int)
    ensures MayRun(b, uid, tunnelId, now) <==>
              tunnelId in b.tunnels && b.tunnels[tunnelId] && Permitted(b, uid, tunnelId, now)
  {
    if tunnelId in b.tunnels && b.tunnels[tunnelId] && Permitted(b, uid, tunnelId, now) {
      var g :| Grants(b, g, uid, tunnelId) && MayUse(b, uid, g, now);
      assert g in b.grants;
    }
    if MayRun(b, uid, tunnelId, now) {
      var g :| g in b.grants && b.grants[g].userId == uid && b.grants[g].tunnelId == tunnelId
               && b.grants[g].status == 1 && (b.grants[g].expTime == 0 || now < b.grants[g].expTime)
               && (b.grants[g].flow == 0
                   || b.grants[g].inFlow + b.grants[g].outFlow < b.grants[g].flow * 1073741824);
      assert Grants(b, g, uid, tunnelId) && MayUse(b, uid, g, now);
    }
  }

  /** Nothing but forward i differs. */
  ghost predicate OnlyForward(b: Book, c: Book, i: int) {
    && c.users == b.users && c.grants == b.grants && c.tunnels == b.tunnels
    && forall k :: k != i ==>
         && (k in c.forwards <==> k in b.forwards)
         && (k in b.forwards ==> c.forwards[k] == b.forwards[k])
  }

  /** A creation writes an unused row of the user if and only if he may; the nodes decide its status. */
  lemma CreationWrites(b: Book, id: int, uid: int, tunnelId: int, other: bool, synced: bool, now: int)
    ensures var c := Exec(b, Op.Create(id, uid, tunnelId, other, synced, now));
            && OnlyForward(b, c, id)
            && (if other && MayRun(b, uid, tunnelId, now)
                then id in c.forwards && c.forwards[id] == Entry(uid, tunnelId, 0, 0, if synced then Active else Error)
                else c == b)
  {
    hide Permitted, MayRun;
    PermittedMeans(b, uid, tunnelId, now);
  }

  /** A resumption runs the user's own forward if and only if he is enabled and may, and the nodes accept. */
  lemma ResumptionWrites(b: Book, id: int, uid: int, synced: bool, now: int)
    ensures var c := Exec(b, Op.Resume(id, uid, synced, now));
            && OnlyForward(b, c, id)
            && (if && id in b.forwards && b.forwards[id].userId == uid && synced
                   && MayRun(b, uid, b.forwards[id].tunnelId, now) && uid in b.users && b.users[uid].status != 0
                then id in c.forwards && c.forwards[id] == b.forwards[id].(status := Active)
                else c == b)
  {
    hide Permitted, MayRun;
    if id in b.forwards {
      PermittedMeans(b, uid, b.forwards[id].tunnelId, now);
    }
  }

  /** A pause and a deletion act if and only if they are carried out. */
  lemma StoppingWrites(b: Book, id: int, done: bool)
    ensures var c := Exec(b, PauseOp(id, done));
            && OnlyForward(b, c, id)
            && (if id in b.forwards && b.forwards[id].tunnelId in b.tunnels && done
                then id in c.forwards && c.forwards[id] == b.forwards[id].(status := Paused)
                else c == b)
    ensures var c := Exec(b, DeleteOp(id, done));
            OnlyForward(b, c, id) && (if done then id !in c.forwards else c == b)
  {
  }

  /** A reset clears both counters of one user or of one grant. */
  lemma ResetsClear(b: Book, uid: int, gid: int)
    ensures var c := Exec(b, ResetUserOp(uid));
            && c.forwards == b.forwards && c.grants == b.grants && c.tunnels == b.tunnels
            && c.users.Keys == b.users.Keys
            && forall v | v in b.users ::
                 c.users[v] == if v == uid then b.users[v].(inFlow := 0, outFlow := 0) else b.users[v]
    ensures var c := Exec(b, ResetGrantOp(gid));
            && c.forwards == b.forwards && c.users == b.users && c.tunnels == b.tunnels
            && c.grants.Keys == b.grants.Keys
            && forall g | g in b.grants ::
                 c.grants[g] == if g == gid then b.grants[g].(inFlow := 0, outFlow := 0) else b.grants[g]
  {
  }
}
