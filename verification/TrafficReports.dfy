/** The dashboard's loops (go-backend/service/dashboard.go): maps filled record by record, ids taken in any
    order, hours in order. Each computes what Traffic says. */
module TrafficReports {
  import opened Text
  import opened SetSums
  import opened Traffic

  function Get(m: map<int, int>, b: int): int { if b in m then m[b] else 0 }

  /** A later record of the same id and hour replaces an earlier one. */
  method CollectSnapshots(records: seq<Record>) returns (snaps: Snapshots)
    ensures snaps == SnapshotsOf(records)
    ensures forall key :: key in snaps <==> exists k: nat :: LastFor(records, key, k)
    ensures forall key, k: nat :: LastFor(records, key, k) ==> snaps[key] == records[k].flow
  {
    snaps := map[];
    for i := 0 to |records|
      invariant snaps == SnapshotsOf(records[..i])
    {
      var r := records[i];
      assert records[..i + 1][..i] == records[..i];
      snaps := snaps[(r.id, BucketOf(r.time)) := r.flow];
    }
    assert records[..|records|] == records;
    forall key | key in snaps ensures exists k: nat :: LastFor(records, key, k) {
      var k := SnapshotIsRecorded(records, key);
    }
    forall key, k: nat | LastFor(records, key, k) ensures key in snaps && snaps[key] == records[k].flow {
      LastIsSnapshot(records, key, k);
    }
  }

  method Insert(bs: seq<int>, b: int) returns (r: seq<int>)
    requires Ascending(bs) && b !in bs
    ensures Ascending(r) && forall x :: x in r <==> x in bs || x == b
  {
    var i := 0;
    while i < |bs| && bs[i] < b
      invariant i <= |bs| && forall j :: 0 <= j < i ==> bs[j] < b
    {
      i := i + 1;
    }
    assert bs == bs[..i] + bs[i..];
    r := bs[..i] + [b] + bs[i..];
    assert forall j :: i <= j < |bs| ==> bs[j] > b;
  }

  method SortBuckets(buckets: set<int>) returns (sorted: seq<int>)
    ensures Lists(sorted, buckets)
  {
    sorted := [];
    var todo := buckets;
    while todo != {}
      invariant todo <= buckets && Lists(sorted, buckets - todo)
      decreases todo
    {
      SomeMember(todo);
      var b :| b in todo;
      sorted := Insert(sorted, b);
      todo := todo - {b};
    }
  }

  /** One id's walk over the hours, adding into the flow of each. */
  method AddDayDeltas(snaps: Snapshots, id: int, bs: seq<int>, start: int, into: map<int, int>)
    returns (bucketFlow: map<int, int>)
    ensures forall b :: Get(bucketFlow, b) == Get(into, b) + MovedIn(snaps, id, bs, |bs|, start, b)
    ensures forall b :: b in bucketFlow && b !in into ==> b in bs && b >= start
  {
    hide Delta;
    bucketFlow := into;
    var prev := 0;
    var firstSeen := false;
    for k := 0 to |bs|
      invariant Prev(snaps, id, bs, k) == if firstSeen then Some(prev) else None
      invariant forall b :: Get(bucketFlow, b) == Get(into, b) + MovedIn(snaps, id, bs, k, start, b)
      invariant forall b :: b in bucketFlow && b !in into ==> b in bs && b >= start
    {
      ghost var was := bucketFlow;
      DeltaCases(snaps, id, bs, k, start, false);
      if (id, bs[k]) in snaps {
        var snap := snaps[(id, bs[k])];
        if firstSeen && bs[k] >= start {
          var delta := Clamp(snap - prev);
          bucketFlow := bucketFlow[bs[k] := Get(bucketFlow, bs[k]) + delta];
        }
        prev, firstSeen := snap, true;
      }
      forall b ensures Get(bucketFlow, b) == Get(into, b) + MovedIn(snaps, id, bs, k + 1, start, b) {
        assert Get(was, b) == Get(into, b) + MovedIn(snaps, id, bs, k, start, b);
      }
    }
  }

  lemma DeltaCases(snaps: Snapshots, id: int, bs: seq<int>, k: nat, start: int, countFirst: bool)
    requires k < |bs|
    ensures (id, bs[k]) !in snaps || bs[k] < start ==> Delta(snaps, id, bs, k, start, countFirst) == 0
    ensures (id, bs[k]) in snaps && bs[k] >= start ==>
              Delta(snaps, id, bs, k, start, countFirst)
              == match Prev(snaps, id, bs, k)
                 case None => if countFirst then Clamp(snaps[(id, bs[k])]) else 0
                 case Some(prev) => Clamp(snaps[(id, bs[k])] - prev)
  {
  }

  /** One id's walk of the monthly figures. */
  method MonthDeltas(snaps: Snapshots, id: int, bs: seq<int>, monthStart: int) returns (flow: int)
    ensures flow == Moved(snaps, id, bs, |bs|, monthStart, true)
  {
    hide Delta;
    flow := 0;
    var prev := 0;
    var firstSeen := false;
    for k := 0 to |bs|
      invariant Prev(snaps, id, bs, k) == if firstSeen then Some(prev) else None
      invariant flow == Moved(snaps, id, bs, k, monthStart, true)
    {
      DeltaCases(snaps, id, bs, k, monthStart, true);
      if (id, bs[k]) in snaps {
        var snap := snaps[(id, bs[k])];
        if bs[k] >= monthStart {
          flow := flow + Clamp(if firstSeen then snap - prev else snap);
        }
        prev, firstSeen := snap, true;
      }
    }
  }

  method BucketFlows(snaps: Snapshots, bs: seq<int>, start: int) returns (bucketFlow: map<int, int>)
    requires Lists(bs, Buckets(snaps))
    ensures forall b :: Get(bucketFlow, b) == BucketFlow(snaps, Ids(snaps), bs, start, b)
    ensures bucketFlow.Keys <= HoursFrom(snaps, start)
  {
    hide MovedIn, Sum, Ids, Buckets;
    bucketFlow := map[];
    var ids := Ids(snaps);
    ghost var seen: set<int> := {};
    forall b ensures BucketFlow(snaps, seen, bs, start, b) == 0 {
      SumNothing({}, id => MovedIn(snaps, id, bs, |bs|, start, b));
    }
    while ids != {}
      invariant ids !! seen && ids + seen == Ids(snaps)
      invariant forall b :: Get(bucketFlow, b) == BucketFlow(snaps, seen, bs, start, b)
      invariant forall b :: b in bucketFlow ==> b in bs && b >= start
      decreases ids
    {
      SomeMember(ids);
      var id :| id in ids;
      ghost var was := bucketFlow;
      bucketFlow := AddDayDeltas(snaps, id, bs, start, bucketFlow);
      forall b ensures Get(bucketFlow, b) == BucketFlow(snaps, seen + {id}, bs, start, b) {
        SumAdd(seen, id, i => MovedIn(snaps, i, bs, |bs|, start, b));
        assert Get(was, b) == BucketFlow(snaps, seen, bs, start, b);
      }
      ids, seen := ids - {id}, seen + {id};
    }
    assert seen == Ids(snaps);
    forall b | b in bucketFlow ensures b in HoursFrom(snaps, start) {
      assert b in bs && b >= start;
    }
  }

  method SumRecent(bucketFlow: map<int, int>, cutoff: int) returns (total: int)
    ensures total == Sum(Recent(bucketFlow.Keys, cutoff), b => Get(bucketFlow, b))
  {
    hide Sum;
    total := 0;
    var todo := bucketFlow.Keys;
    ghost var seen: set<int> := {};
    ghost var f := b => Get(bucketFlow, b);
    SumNothing({}, f);
    assert Recent(seen, cutoff) == {};
    while todo != {}
      invariant todo !! seen && todo + seen == bucketFlow.Keys
      invariant total == Sum(Recent(seen, cutoff), f)
      decreases todo
    {
      SomeMember(todo);
      var b :| b in todo;
      if b >= cutoff {
        total := total + bucketFlow[b];
        SumAdd(Recent(seen, cutoff), b, f);
        assert Recent(seen + {b}, cutoff) == Recent(seen, cutoff) + {b};
      } else {
        assert Recent(seen + {b}, cutoff) == Recent(seen, cutoff);
      }
      todo, seen := todo - {b}, seen + {b};
    }
    assert seen == bucketFlow.Keys;
  }

  /** The 24 bars and today's total; the bars come oldest first. */
  method GetTrafficData(records: seq<Record>, now: int) returns (history: seq<Bar>, todayFlow: int)
    requires now >= DAY
    ensures var snaps, bs := SnapshotsOf(records), Hours(SnapshotsOf(records));
            && history == Bars(snaps, bs, now) && todayFlow == TodayFlow(snaps, bs, now)
            && ((forall r | r in records :: r.time <= now) ==>
                  SumBars(history) + (if now % HOUR == 0
                      then BucketFlow(snaps, Ids(snaps), bs, now - DAY, now - DAY) else 0) == todayFlow)
  {
    hide SnapshotsOf, BucketFlow, Sum, Buckets, Ids, Lists, LastFor, Hours, TodayFlow;
    var snaps := CollectSnapshots(records);
    var bs := SortBuckets(Buckets(snaps));
    OneOrder(snaps, bs);
    var bucketFlow := BucketFlows(snaps, bs, now - DAY);
    history := [];
    for i := 0 to 24
      invariant history == Bars(snaps, bs, now)[..i]
    {
      var bt := BarTime(now, i);
      history := history + [Bar(bt, Get(bucketFlow, bt))];
    }
    todayFlow := SumRecent(bucketFlow, now - DAY);
    TodayFromMap(snaps, bs, now, bucketFlow);
    assert history == Bars(snaps, bs, now);
    if forall r | r in records :: r.time <= now {
      ChartSumsToToday(records, bs, now);
    }
  }

  lemma TodayFromMap(snaps: Snapshots, bs: seq<int>, now: int, bucketFlow: map<int, int>)
    requires forall b :: Get(bucketFlow, b) == BucketFlow(snaps, Ids(snaps), bs, now - DAY, b)
    requires bucketFlow.Keys <= HoursFrom(snaps, now - DAY)
    ensures Sum(Recent(bucketFlow.Keys, now - DAY), b => Get(bucketFlow, b)) == TodayFlow(snaps, bs, now)
  {
    hide BucketFlow, Sum;
    var f, g := b => Get(bucketFlow, b), b => BucketFlow(snaps, Ids(snaps), bs, now - DAY, b);
    SumSupport(Recent(bucketFlow.Keys, now - DAY), HoursFrom(snaps, now - DAY), f);
    SumSame(HoursFrom(snaps, now - DAY), f, g);
  }

  method GetMonthlyTraffic(records: seq<Record>, monthStart: int) returns (monthly: int)
    ensures monthly == MonthlyTotal(SnapshotsOf(records), Hours(SnapshotsOf(records)), monthStart)
  {
    hide SnapshotsOf, Sum, Buckets, Ids, Moved, Lists, LastFor, Hours;
    var snaps := CollectSnapshots(records);
    var bs := SortBuckets(Buckets(snaps));
    OneOrder(snaps, bs);
    monthly := 0;
    var ids := Ids(snaps);
    ghost var seen: set<int> := {};
    ghost var f := id => Moved(snaps, id, bs, |bs|, monthStart, true);
    SumNothing({}, f);
    while ids != {}
      invariant ids !! seen && ids + seen == Ids(snaps)
      invariant monthly == Sum(seen, f)
      decreases ids
    {
      SomeMember(ids);
      var id :| id in ids;
      var flow := MonthDeltas(snaps, id, bs, monthStart);
      monthly := monthly + flow;
      SumAdd(seen, id, f);
      ids, seen := ids - {id}, seen + {id};
    }
    assert seen == Ids(snaps);
  }

  /** Per forward first, then over the forwards that are joined to a node. */
  method GetNodeTrafficRanking(records: seq<Record>, monthStart: int, toNode: map<int, int>)
    returns (nodeFlow: map<int, int>)
    ensures var snaps, bs := SnapshotsOf(records), Hours(SnapshotsOf(records));
            && (forall node :: Get(nodeFlow, node) == NodeTotal(snaps, bs, monthStart, toNode, node))
            && Sum(toNode.Values, node => Get(nodeFlow, node))
               + Sum(Unjoined(snaps, toNode), id => Moved(snaps, id, bs, |bs|, monthStart, true))
               == MonthlyTotal(snaps, bs, monthStart)
  {
    hide SnapshotsOf, Sum, Buckets, Ids, Moved, Lists, LastFor, Hours, NodeTotal, Unjoined, MonthlyTotal;
    var snaps := CollectSnapshots(records);
    var bs := SortBuckets(Buckets(snaps));
    OneOrder(snaps, bs);
    var fwFlow: map<int, int> := map[];
    var ids := Ids(snaps);
    while ids != {}
      invariant fwFlow.Keys !! ids && fwFlow.Keys + ids == Ids(snaps)
      invariant forall id :: id in fwFlow ==> fwFlow[id] == Moved(snaps, id, bs, |bs|, monthStart, true)
      decreases ids
    {
      SomeMember(ids);
      var id :| id in ids;
      var flow := MonthDeltas(snaps, id, bs, monthStart);
      fwFlow := fwFlow[id := flow];
      ids := ids - {id};
    }
    nodeFlow := SumPerNode(snaps, bs, monthStart, toNode, fwFlow);
    RankingPartitionsMonth(snaps, bs, monthStart, toNode);
    SumSame(toNode.Values, node => Get(nodeFlow, node), node => NodeTotal(snaps, bs, monthStart, toNode, node));
  }

  method SumPerNode(snaps: Snapshots, bs: seq<int>, monthStart: int, toNode: map<int, int>, fwFlow: map<int, int>)
    returns (nodeFlow: map<int, int>)
    requires fwFlow.Keys == Ids(snaps)
    requires forall id :: id in fwFlow ==> fwFlow[id] == Moved(snaps, id, bs, |bs|, monthStart, true)
    ensures forall node :: Get(nodeFlow, node) == NodeTotal(snaps, bs, monthStart, toNode, node)
  {
    hide Sum, Ids, Moved;
    nodeFlow := map[];
    var todo := fwFlow.Keys;
    ghost var seen: set<int> := {};
    ghost var f := id => Moved(snaps, id, bs, |bs|, monthStart, true);
    SumNothing({}, f);
    forall node ensures JoinedOf(seen, toNode, node) == {} {
    }
    while todo != {}
      invariant todo !! seen && todo + seen == fwFlow.Keys
      invariant forall node :: Get(nodeFlow, node) == Sum(JoinedOf(seen, toNode, node), f)
      decreases todo
    {
      SomeMember(todo);
      var id :| id in todo;
      ghost var was := nodeFlow;
      if id in toNode {
        nodeFlow := nodeFlow[toNode[id] := Get(nodeFlow, toNode[id]) + fwFlow[id]];
      }
      forall node ensures Get(nodeFlow, node) == Sum(JoinedOf(seen + {id}, toNode, node), f) {
        assert Get(was, node) == Sum(JoinedOf(seen, toNode, node), f);
        if id in toNode && toNode[id] == node {
          SumAdd(JoinedOf(seen, toNode, node), id, f);
          assert JoinedOf(seen + {id}, toNode, node) == JoinedOf(seen, toNode, node) + {id};
        } else {
          assert JoinedOf(seen + {id}, toNode, node) == JoinedOf(seen, toNode, node);
        }
      }
      todo, seen := todo - {id}, seen + {id};
    }
    forall node ensures Get(nodeFlow, node) == NodeTotal(snaps, bs, monthStart, toNode, node) {
      assert JoinedOf(seen, toNode, node) == Joined(snaps, toNode, {node});
    }
  }

  ghost function JoinedOf(ids: set<int>, toNode: map<int, int>, node: int): set<int> {
    set id | id in ids && id in toNode && toNode[id] == node
  }

  ghost function Recent(s: set<int>, cutoff: int): set<int> { set b | b in s && b >= cutoff }
}
