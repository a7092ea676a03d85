/** The dashboard's traffic figures (go-backend/service/dashboard.go): cumulative snapshots per hour, the clamped
    differences between them, and the sums that are shown. */
module Traffic {
  import opened Text
  import opened SetSums

  datatype Record = Record(id: int, time: int, flow: int)

  datatype Bar = Bar(time: int, flow: int)

  /** The last snapshot of an id in an hour. */
  type Snapshots = map<(int, int), int>

  const HOUR: int := 3600
  const DAY: int := 86400

  function BucketOf(time: int): int { time / HOUR * HOUR }

  function SnapshotsOf(records: seq<Record>): Snapshots {
    if records == [] then map[]
    else
      var r := records[|records| - 1];
      SnapshotsOf(records[..|records| - 1])[(r.id, BucketOf(r.time)) := r.flow]
  }

  function Ids(snaps: Snapshots): set<int> { set k | k in snaps :: k.0 }

  function Buckets(snaps: Snapshots): set<int> { set k | k in snaps :: k.1 }

  // ---------------------------------------------------------------- hours in order

  ghost predicate Ascending(bs: seq<int>) { forall i, j :: 0 <= i < j < |bs| ==> bs[i] < bs[j] }

  ghost predicate Lists(bs: seq<int>, s: set<int>) {
    Ascending(bs) && forall b :: b in bs <==> b in s
  }

  /** There is one way to list a set in order. */
  lemma {:induction false} ListingIsUnique(a: seq<int>, b: seq<int>, s: set<int>)
    requires Lists(a, s) && Lists(b, s)
    ensures a == b
  {
    if a == [] {
      assert forall x :: x !in b;
      assert forall i :: 0 <= i < |b| ==> b[i] in b;
    } else {
      var m := a[|a| - 1];
      assert m in b;
      var j :| 0 <= j < |b| && b[j] == m;
      var top := b[|b| - 1];
      assert top in a;
      var i :| 0 <= i < |a| && a[i] == top;
      assert m == top;
      LastOut(a, s);
      LastOut(b, s);
      ListingIsUnique(a[..|a| - 1], b[..|b| - 1], s - {m});
    }
  }

  lemma LastOut(a: seq<int>, s: set<int>)
    requires Lists(a, s) && a != []
    ensures Lists(a[..|a| - 1], s - {a[|a| - 1]})
  {
    var rest, m := a[..|a| - 1], a[|a| - 1];
    assert a == rest + [m];
    forall b ensures b in rest <==> b in s - {m} {
      assert b in a <==> b in s;
      if b in rest {
        var i :| 0 <= i < |rest| && rest[i] == b;
        assert a[i] < a[|a| - 1];
      }
    }
  }

  /** b in its place among bs. */
  function Inserted(bs: seq<int>, b: int): seq<int> {
    if bs == [] || bs[|bs| - 1] < b then bs + [b] else Inserted(bs[..|bs| - 1], b) + [bs[|bs| - 1]]
  }

  lemma AppendLists(bs: seq<int>, b: int)
    requires Ascending(bs) && forall x :: x in bs ==> x < b
    ensures Ascending(bs + [b])
  {
    assert forall i :: 0 <= i < |bs| ==> bs[i] in bs;
  }

  lemma {:induction false} InsertedLists(bs: seq<int>, b: int)
    requires Ascending(bs) && b !in bs
    ensures Ascending(Inserted(bs, b)) && forall x :: x in Inserted(bs, b) <==> x in bs || x == b
  {
    if bs == [] || bs[|bs| - 1] < b {
      AppendLists(bs, b);
    } else {
      var rest, top := bs[..|bs| - 1], bs[|bs| - 1];
      assert bs == rest + [top];
      InsertedLists(rest, b);
      AppendLists(Inserted(rest, b), top);
    }
  }

  lemma {:induction false} ListingExists(s: set<int>) returns (bs: seq<int>)
    ensures Lists(bs, s)
  {
    if s == {} {
      bs := [];
    } else {
      SomeMember(s);
      var b :| b in s;
      var rest := ListingExists(s - {b});
      InsertedLists(rest, b);
      bs := Inserted(rest, b);
    }
  }

  lemma ListingThere(s: set<int>)
    ensures exists bs :: Lists(bs, s)
  {
    var bs := ListingExists(s);
  }

  /** The hours with snapshots, in order. */
  ghost function Hours(snaps: Snapshots): (bs: seq<int>)
    ensures Lists(bs, Buckets(snaps))
  {
    ListingThere(Buckets(snaps));
    var bs :| Lists(bs, Buckets(snaps));
    bs
  }

  /** However the hours were collected, once in order they are the same. */
  lemma OneOrder(snaps: Snapshots, bs: seq<int>)
    requires Lists(bs, Buckets(snaps))
    ensures bs == Hours(snaps)
  {
    ListingIsUnique(bs, Hours(snaps), Buckets(snaps));
  }

  // ---------------------------------------------------------------- differences

  /** The latest snapshot of the id before the k-th hour. */
  function Prev(snaps: Snapshots, id: int, bs: seq<int>, k: nat): Option<int>
    requires k <= |bs|
  {
    if k == 0 then None
    else if (id, bs[k - 1]) in snaps then Some(snaps[(id, bs[k - 1])])
    else Prev(snaps, id, bs, k - 1)
  }

  function Clamp(d: int): int { if d < 0 then 0 else d }

  /** What the id moved in the k-th hour, for hours from start on. A first snapshot counts only in the
      monthly figures, which take it to start from zero. */
  function Delta(snaps: Snapshots, id: int, bs: seq<int>, k: nat, start: int, countFirst: bool): int
    requires k < |bs|
  {
    if (id, bs[k]) !in snaps || bs[k] < start then 0
    else
      var snap := snaps[(id, bs[k])];
      match Prev(snaps, id, bs, k)
      case None => if countFirst then Clamp(snap) else 0
      case Some(prev) => Clamp(snap - prev)
  }

  /** What the id moved in the first k hours. */
  function Moved(snaps: Snapshots, id: int, bs: seq<int>, k: nat, start: int, countFirst: bool): int
    requires k <= |bs|
  {
    if k == 0 then 0
    else Moved(snaps, id, bs, k - 1, start, countFirst) + Delta(snaps, id, bs, k - 1, start, countFirst)
  }

  /** The part of it that falls into hour b. */
  function MovedIn(snaps: Snapshots, id: int, bs: seq<int>, k: nat, start: int, b: int): int
    requires k <= |bs|
  {
    if k == 0 then 0
    else MovedIn(snaps, id, bs, k - 1, start, b) + if bs[k - 1] == b
        then Delta(snaps, id, bs, k - 1, start, false) else 0
  }

  ghost function BucketFlow(snaps: Snapshots, ids: set<int>, bs: seq<int>, start: int, b: int): int {
    Sum(ids, id => MovedIn(snaps, id, bs, |bs|, start, b))
  }

  function BarTime(now: int, i: int): int { BucketOf(now - (23 - i) * HOUR) }

  ghost function Bars(snaps: Snapshots, bs: seq<int>, now: int): seq<Bar> {
    seq(24, i => Bar(BarTime(now, i), BucketFlow(snaps, Ids(snaps), bs, now - DAY, BarTime(now, i))))
  }

  function SumBars(bars: seq<Bar>): int {
    if bars == [] then 0 else SumBars(bars[..|bars| - 1]) + bars[|bars| - 1].flow
  }

  function HoursFrom(snaps: Snapshots, start: int): set<int> { set b | b in Buckets(snaps) && b >= start }

  /** The ids joined to one of the nodes, and those joined to none. */
  function Joined(snaps: Snapshots, toNode: map<int, int>, nodes: set<int>): set<int> {
    set id | id in Ids(snaps) && id in toNode && toNode[id] in nodes
  }

  function Unjoined(snaps: Snapshots, toNode: map<int, int>): set<int> {
    set id | id in Ids(snaps) && id !in toNode
  }

  ghost function TodayFlow(snaps: Snapshots, bs: seq<int>, now: int): int {
    Sum(HoursFrom(snaps, now - DAY), b => BucketFlow(snaps, Ids(snaps), bs, now - DAY, b))
  }

  ghost function MonthlyTotal(snaps: Snapshots, bs: seq<int>, start: int): int {
    Sum(Ids(snaps), id => Moved(snaps, id, bs, |bs|, start, true))
  }

  /** What the forwards joined to that node moved. */
  ghost function NodeTotal(snaps: Snapshots, bs: seq<int>, start: int, toNode: map<int, int>, node: int): int {
    Sum(Joined(snaps, toNode, {node}), id => Moved(snaps, id, bs, |bs|, start, true))
  }

  // ---------------------------------------------------------------- the chart and the total

  lemma {:induction false} ZeroOutside(snaps: Snapshots, id: int, bs: seq<int>, k: nat, start: int, b: int)
    requires k <= |bs| && (b !in bs || b < start)
    ensures MovedIn(snaps, id, bs, k, start, b) == 0
  {
    if k > 0 {
      ZeroOutside(snaps, id, bs, k - 1, start, b);
    }
  }

  lemma FlowZeroOutside(snaps: Snapshots, ids: set<int>, bs: seq<int>, start: int, b: int)
    requires b !in bs || b < start
    ensures BucketFlow(snaps, ids, bs, start, b) == 0
  {
    forall id | id in ids ensures MovedIn(snaps, id, bs, |bs|, start, b) == 0 {
      ZeroOutside(snaps, id, bs, |bs|, start, b);
    }
    SumNothing(ids, id => MovedIn(snaps, id, bs, |bs|, start, b));
  }

  lemma {:induction false} SnapshotsInTime(records: seq<Record>, now: int)
    requires forall r | r in records :: r.time <= now
    ensures forall b :: b in Buckets(SnapshotsOf(records)) ==> b % HOUR == 0 && b <= now
  {
    if records != [] {
      var rest, r := records[..|records| - 1], records[|records| - 1];
      assert records == rest + [r];
      SnapshotsInTime(rest, now);
      var snaps, was := SnapshotsOf(records), SnapshotsOf(rest);
      forall b | b in Buckets(snaps) ensures b % HOUR == 0 && b <= now {
        var k :| k in snaps && k.1 == b;
        assert k in was ==> b in Buckets(was);
      }
    }
  }

  /** The hours of the first n bars. */
  function BarTimes(now: int, n: nat): set<int> { set i | 0 <= i < n :: BarTime(now, i) }

  lemma {:induction false} SumOfBars(bars: seq<Bar>, now: int, n: nat, f: int -> int)
    requires n <= |bars| == 24
    requires forall i :: 0 <= i < 24 ==> bars[i] == Bar(BarTime(now, i), f(BarTime(now, i)))
    ensures SumBars(bars[..n]) == Sum(BarTimes(now, n), f)
  {
    if n > 0 {
      SumOfBars(bars, now, n - 1, f);
      assert bars[..n][..n - 1] == bars[..n - 1];
      assert BarTimes(now, n) == BarTimes(now, n - 1) + {BarTime(now, n - 1)};
      assert BarTime(now, n - 1) !in BarTimes(now, n - 1);
      SumAdd(BarTimes(now, n - 1), BarTime(now, n - 1), f);
    }
  }

  /** The bars are the hours up to the current one; from now - DAY on there is one more when now is a full hour. */
  lemma BarsCoverDay(now: int, b: int)
    requires b % HOUR == 0 && now - DAY <= b <= now
    ensures b in BarTimes(now, 24) || (now % HOUR == 0 && b == now - DAY)
  {
    var i := 23 - (BucketOf(now) - b) / HOUR;
    if b != now - DAY || now % HOUR != 0 {
      assert 0 <= i < 24 && BarTime(now, i) == b;
    }
  }

  lemma BarsWithinDay(now: int)
    ensures forall b :: b in BarTimes(now, 24) ==> b > now - DAY
  {
  }

  /** The last hour before b with a snapshot of the id. */
  ghost predicate LatestBefore(snaps: Snapshots, id: int, b: int, h: int) {
    h < b && (id, h) in snaps && forall g | g < b && (id, g) in snaps :: g <= h
  }

  /** What the id moved in an hour that counts: by how much its snapshot exceeds the latest one before; nothing without
      such a pair. */
  ghost predicate MovedThen(snaps: Snapshots, id: int, b: int, v: int) {
    if (id, b) in snaps && exists h :: LatestBefore(snaps, id, b, h)
    then exists h :: LatestBefore(snaps, id, b, h)
           && v == if snaps[(id, b)] > snaps[(id, h)] then snaps[(id, b)] - snaps[(id, h)] else 0
    else v == 0
  }

  lemma {:induction false} PrevIsLatest(snaps: Snapshots, id: int, bs: seq<int>, k: nat, b: int)
    requires Ascending(bs) && k <= |bs| && (forall j :: 0 <= j < k ==> bs[j] < b)
    requires forall h | h < b && (id, h) in snaps :: h in bs[..k]
    ensures Prev(snaps, id, bs, k) == None <==> !exists h :: LatestBefore(snaps, id, b, h)
    ensures Prev(snaps, id, bs, k).Some? ==>
              exists h :: LatestBefore(snaps, id, b, h) && Prev(snaps, id, bs, k).value == snaps[(id, h)]
  {
    if k > 0 {
      assert bs[..k] == bs[..k - 1] + [bs[k - 1]];
      if (id, bs[k - 1]) in snaps {
        assert LatestBefore(snaps, id, b, bs[k - 1]);
      } else {
        PrevIsLatest(snaps, id, bs, k - 1, b);
      }
    }
  }

  lemma {:induction false} MovedInIs(snaps: Snapshots, id: int, bs: seq<int>, k: nat, start: int, i: nat)
    requires Ascending(bs) && k <= |bs| && i < |bs|
    ensures MovedIn(snaps, id, bs, k, start, bs[i]) == if i < k then Delta(snaps, id, bs, i, start, false) else 0
  {
    hide Delta;
    if k > 0 {
      MovedInIs(snaps, id, bs, k - 1, start, i);
    }
  }

  lemma HourMeans(snaps: Snapshots, id: int, bs: seq<int>, start: int, b: int)
    requires Lists(bs, Buckets(snaps)) && b >= start
    ensures MovedThen(snaps, id, b, MovedIn(snaps, id, bs, |bs|, start, b))
  {
    hide MovedIn, Prev;
    if b in bs {
      var i :| 0 <= i < |bs| && bs[i] == b;
      MovedInIs(snaps, id, bs, |bs|, start, i);
      forall h | h < b && (id, h) in snaps ensures h in bs[..i] {
        assert h in Buckets(snaps);
        var j :| 0 <= j < |bs| && bs[j] == h;
        assert bs[..i][j] == h;
      }
      PrevIsLatest(snaps, id, bs, i, b);
    } else {
      ZeroOutside(snaps, id, bs, |bs|, start, b);
      assert (id, b) in snaps ==> b in Buckets(snaps);
    }
  }

  /** The chart: 24 bars, one an hour, from the oldest to the hour that now is in, each with what all ids moved in
      it. */
  lemma BarsMean(snaps: Snapshots, bs: seq<int>, now: int, flow: (int, int) -> int)
    requires Lists(bs, Buckets(snaps))
    requires forall id, b :: MovedThen(snaps, id, b, flow(id, b))
    ensures var bars := Bars(snaps, bs, now);
            && |bars| == 24 && bars[23].time <= now < bars[23].time + 3600 && bars[23].time % 3600 == 0
            && (forall i :: 0 <= i < 23 ==> bars[i + 1].time == bars[i].time + 3600)
            && forall i :: 0 <= i < 24 ==> bars[i].flow == Sum(Ids(snaps), id => flow(id, bars[i].time))
  {
    hide MovedIn, MovedThen, Sum;
    BarsWithinDay(now);
    forall i | 0 <= i < 24
      ensures BucketFlow(snaps, Ids(snaps), bs, now - DAY, BarTime(now, i))
              == Sum(Ids(snaps), id => flow(id, BarTime(now, i))) {
      var b := BarTime(now, i);
      assert b in BarTimes(now, 24);
      forall id | id in Ids(snaps) ensures MovedIn(snaps, id, bs, |bs|, now - DAY, b) == flow(id, b) {
        HourMeans(snaps, id, bs, now - DAY, b);
        MovedOnce(snaps, id, b, MovedIn(snaps, id, bs, |bs|, now - DAY, b), flow(id, b));
      }
      SumSame(Ids(snaps), id => MovedIn(snaps, id, bs, |bs|, now - DAY, b), id => flow(id, b));
    }
  }

  lemma MovedOnce(snaps: Snapshots, id: int, b: int, v: int, w: int)
    requires MovedThen(snaps, id, b, v) && MovedThen(snaps, id, b, w)
    ensures v == w
  {
  }

  /** No figure depends on the order in which the hours were met. */
  lemma AnyOrderSameFigures(snaps: Snapshots, bs: seq<int>, bs': seq<int>, now: int, start: int,
      toNode: map<int, int>, node: int)
    requires Lists(bs, Buckets(snaps)) && Lists(bs', Buckets(snaps))
    ensures Bars(snaps, bs, now) == Bars(snaps, bs', now) && TodayFlow(snaps, bs, now) == TodayFlow(snaps, bs', now)
    ensures MonthlyTotal(snaps, bs, start) == MonthlyTotal(snaps, bs', start)
    ensures NodeTotal(snaps, bs, start, toNode, node) == NodeTotal(snaps, bs', start, toNode, node)
  {
    ListingIsUnique(bs, bs', Buckets(snaps));
  }

  /** With no records from the future, the 24 bars sum to today's total unless now is a full hour, and then
      they fall short of it by exactly the hour at now - 24 h. */
  lemma ChartSumsToToday(records: seq<Record>, bs: seq<int>, now: int)
    requires forall r | r in records :: r.time <= now
    requires Lists(bs, Buckets(SnapshotsOf(records)))
    ensures var snaps := SnapshotsOf(records);
            SumBars(Bars(snaps, bs, now))
                + (if now % HOUR == 0 then BucketFlow(snaps, Ids(snaps), bs, now - DAY, now - DAY) else 0)
            == TodayFlow(snaps, bs, now)
  {
    hide BucketFlow, Sum, BarTimes, BarTime, SnapshotsOf;
    var snaps := SnapshotsOf(records);
    var f := b => BucketFlow(snaps, Ids(snaps), bs, now - DAY, b);
    var bars := Bars(snaps, bs, now);
    SumOfBars(bars, now, 24, f);
    assert bars[..24] == bars;
    SnapshotsInTime(records, now);
    BarsWithinDay(now);
    var today := HoursFrom(snaps, now - DAY);
    var shown := if now % HOUR == 0 then BarTimes(now, 24) + {now - DAY} else BarTimes(now, 24);
    if now % HOUR == 0 {
      SumAdd(BarTimes(now, 24), now - DAY, f);
    }
    forall b | b in today ensures b in shown {
      BarsCoverDay(now, b);
    }
    forall b | b in shown && b !in today ensures f(b) == 0 {
      FlowZeroOutside(snaps, Ids(snaps), bs, now - DAY, b);
    }
    SumSupport(today, shown, f);
  }

  /** Five units moved in the hour that began a day ago, seen at a full hour: today's total counts them, no bar does. */
  lemma FullHourMissesABar(now: int)
    requires now % HOUR == 0
    ensures var records := [Record(1, now - DAY - HOUR, 0), Record(1, now - DAY, 5)];
            var snaps := SnapshotsOf(records);
            TodayFlow(snaps, Hours(snaps), now) == SumBars(Bars(snaps, Hours(snaps), now)) + 5
  {
    hide Bars, TodayFlow, SumBars, Sum;
    var before, dayAgo := now - DAY - HOUR, now - DAY;
    var r0, r1 := Record(1, before, 0), Record(1, dayAgo, 5);
    var records := [r0, r1];
    assert records[..1] == [r0] && [r0][..0] == [];
    assert BucketOf(before) == before && BucketOf(dayAgo) == dayAgo;
    var snaps := SnapshotsOf(records);
    assert SnapshotsOf([r0]) == map[(1, before) := 0];
    assert snaps == map[(1, before) := 0, (1, dayAgo) := 5];
    TwoHours(snaps, before, dayAgo);
    var bs := Hours(snaps);
    assert bs == [before, dayAgo];
    assert Prev(snaps, 1, bs, 1) == Some(0) && Delta(snaps, 1, bs, 1, dayAgo, false) == 5;
    assert MovedIn(snaps, 1, bs, 0, dayAgo, dayAgo) == 0 && bs[0] != dayAgo && bs[1] == dayAgo;
    assert MovedIn(snaps, 1, bs, 1, dayAgo, dayAgo) == 0;
    assert MovedIn(snaps, 1, bs, |bs|, dayAgo, dayAgo) == 5;
    SumTake({1}, 1, id => MovedIn(snaps, id, bs, |bs|, dayAgo, dayAgo));
    SumNothing({}, id => MovedIn(snaps, id, bs, |bs|, dayAgo, dayAgo));
    assert {1} - {1} == {};
    assert BucketFlow(snaps, Ids(snaps), bs, dayAgo, dayAgo) == 5;
    ChartSumsToToday(records, bs, now);
  }

  lemma TwoHours(snaps: Snapshots, a: int, b: int)
    requires snaps == map[(1, a) := 0, (1, b) := 5] && a < b
    ensures Ids(snaps) == {1} && Hours(snaps) == [a, b]
  {
    assert (1, a) in snaps && (1, b) in snaps;
    assert Buckets(snaps) == {a, b};
    assert Lists([a, b], Buckets(snaps));
    OneOrder(snaps, [a, b]);
  }

  // ---------------------------------------------------------------- telescoping

  /** What the figures of the id are counted from: the last snapshot before start; without one, zero for the
      monthly figures and the first snapshot for the daily ones. */
  function Base(snaps: Snapshots, id: int, bs: seq<int>, k: nat, start: int, countFirst: bool): Option<int>
    requires k <= |bs|
  {
    if k == 0 then (if countFirst then Some(0) else None)
    else
      var b := Base(snaps, id, bs, k - 1, start, countFirst);
      if (id, bs[k - 1]) in snaps && (bs[k - 1] < start || b == None) then Some(snaps[(id, bs[k - 1])]) else b
  }

  /** From start on no snapshot of the id is below the one before it, nor a first one below zero. */
  ghost predicate NeverDrops(snaps: Snapshots, id: int, bs: seq<int>, k: nat, start: int, countFirst: bool)
    requires k <= |bs|
  {
    forall j :: 0 <= j < k && (id, bs[j]) in snaps && bs[j] >= start ==> Undropped(snaps, id, bs, j, countFirst)
  }

  predicate Undropped(snaps: Snapshots, id: int, bs: seq<int>, j: nat, countFirst: bool)
    requires j < |bs| && (id, bs[j]) in snaps
  {
    match Prev(snaps, id, bs, j)
    case None => countFirst ==> snaps[(id, bs[j])] >= 0
    case Some(prev) => prev <= snaps[(id, bs[j])]
  }

  /** The differences add up to at least the last snapshot minus the base, and to exactly that if and only if
      the counter never drops. */
  lemma {:induction false} DeltasTelescope(snaps: Snapshots, id: int, bs: seq<int>, k: nat, start: int,
      countFirst: bool)
    requires k <= |bs| && Ascending(bs)
    ensures Prev(snaps, id, bs, k).Some? ==>
              var last, base := Prev(snaps, id, bs, k).value, Base(snaps, id, bs, k, start, countFirst);
              && base.Some?
              && Moved(snaps, id, bs, k, start, countFirst) >= last - base.value
              && (Moved(snaps, id, bs, k, start, countFirst) == last - base.value <==>
                    NeverDrops(snaps, id, bs, k, start, countFirst))
    ensures Prev(snaps, id, bs, k) == None ==>
              && Moved(snaps, id, bs, k, start, countFirst) == 0 && NeverDrops(snaps, id, bs, k, start, countFirst)
              && Base(snaps, id, bs, k, start, countFirst) == if countFirst then Some(0) else None
  {
    if k > 0 {
      DeltasTelescope(snaps, id, bs, k - 1, start, countFirst);
      var dropsBefore := !NeverDrops(snaps, id, bs, k - 1, start, countFirst);
      if (id, bs[k - 1]) !in snaps {
        assert NeverDrops(snaps, id, bs, k, start, countFirst) <==> !dropsBefore;
      } else if bs[k - 1] < start {
        EarlyMovesNothing(snaps, id, bs, k, start, countFirst);
      } else {
        assert NeverDrops(snaps, id, bs, k, start, countFirst) <==>
            !dropsBefore && Undropped(snaps, id, bs, k - 1, countFirst);
      }
    }
  }

  lemma {:induction false} EarlyMovesNothing(snaps: Snapshots, id: int, bs: seq<int>, k: nat, start: int,
      countFirst: bool)
    requires k <= |bs| && forall j :: 0 <= j < k ==> bs[j] < start
    ensures Moved(snaps, id, bs, k, start, countFirst) == 0
  {
    if k > 0 {
      EarlyMovesNothing(snaps, id, bs, k - 1, start, countFirst);
    }
  }

  // ---------------------------------------------------------------- today's total, id by id

  lemma {:induction false} MovedByHour(snaps: Snapshots, id: int, bs: seq<int>, k: nat, start: int, hours: set<int>)
    requires k <= |bs|
    requires forall j :: 0 <= j < k && bs[j] >= start ==> bs[j] in hours
    ensures Sum(hours, b => MovedIn(snaps, id, bs, k, start, b)) == Moved(snaps, id, bs, k, start, false)
  {
    hide Delta;
    if k == 0 {
      SumNothing(hours, b => MovedIn(snaps, id, bs, k, start, b));
    } else {
      MovedByHour(snaps, id, bs, k - 1, start, hours);
      var now, d := bs[k - 1], Delta(snaps, id, bs, k - 1, start, false);
      var part := (b: int) => if b == now then d else 0;
      SumPlus(hours, b => MovedIn(snaps, id, bs, k - 1, start, b), part, b => MovedIn(snaps, id, bs, k, start, b));
      if now in hours {
        SumTake(hours, now, part);
        SumNothing(hours - {now}, part);
      } else {
        EarlyDelta(snaps, id, bs, k - 1, start);
        SumNothing(hours, part);
      }
    }
  }

  lemma EarlyDelta(snaps: Snapshots, id: int, bs: seq<int>, k: nat, start: int)
    requires k < |bs| && bs[k] < start
    ensures Delta(snaps, id, bs, k, start, false) == 0
  {
  }

  /** Today's total, which the program sums hour by hour, is what each id moved, summed over the ids. */
  lemma TodayByIds(snaps: Snapshots, bs: seq<int>, now: int)
    requires Lists(bs, Buckets(snaps))
    ensures TodayFlow(snaps, bs, now) == Sum(Ids(snaps), id => Moved(snaps, id, bs, |bs|, now - DAY, false))
  {
    hide Sum, Moved, MovedIn;
    var start := now - DAY;
    var hours := HoursFrom(snaps, start);
    var f := (b: int, id: int) => MovedIn(snaps, id, bs, |bs|, start, b);
    var byHour := (b: int) => BucketFlow(snaps, Ids(snaps), bs, start, b);
    var byId := (id: int) => Sum(hours, b => f(b, id));
    forall b ensures byHour(b) == Sum(Ids(snaps), id => f(b, id)) {
      SumSame(Ids(snaps), id => MovedIn(snaps, id, bs, |bs|, start, b), id => f(b, id));
    }
    SumSwap(hours, Ids(snaps), f, byHour, byId);
    forall id | id in Ids(snaps) ensures byId(id) == Moved(snaps, id, bs, |bs|, start, false) {
      MovedByHour(snaps, id, bs, |bs|, start, hours);
      SumSame(hours, b => MovedIn(snaps, id, bs, |bs|, start, b), b => f(b, id));
    }
    SumSame(Ids(snaps), byId, id => Moved(snaps, id, bs, |bs|, start, false));
    SumSame(hours, byHour, b => BucketFlow(snaps, Ids(snaps), bs, now - DAY, b));
  }

  function Net(snaps: Snapshots, id: int, bs: seq<int>, start: int, countFirst: bool): int {
    var last, base := Prev(snaps, id, bs, |bs|), Base(snaps, id, bs, |bs|, start, countFirst);
    if last == None || base == None then 0 else last.value - base.value
  }

  ghost predicate NoneDrops(snaps: Snapshots, bs: seq<int>, start: int, countFirst: bool) {
    forall id :: id in Ids(snaps) ==> NeverDrops(snaps, id, bs, |bs|, start, countFirst)
  }

  lemma NetTotals(snaps: Snapshots, bs: seq<int>, start: int, countFirst: bool)
    requires Ascending(bs) && NoneDrops(snaps, bs, start, countFirst)
    ensures Sum(Ids(snaps), id => Moved(snaps, id, bs, |bs|, start, countFirst))
              == Sum(Ids(snaps), id => Net(snaps, id, bs, start, countFirst))
  {
    forall id | id in Ids(snaps) ensures Moved(snaps, id, bs, |bs|, start, countFirst)
        == Net(snaps, id, bs, start, countFirst) {
      DeltasTelescope(snaps, id, bs, |bs|, start, countFirst);
    }
    SumSame(Ids(snaps), id => Moved(snaps, id, bs, |bs|, start, countFirst),
        id => Net(snaps, id, bs, start, countFirst));
  }

  /** For counters that never drop, both totals are what the counters gained since their bases. */
  lemma TotalsTelescope(snaps: Snapshots, bs: seq<int>, now: int, monthStart: int)
    requires Lists(bs, Buckets(snaps))
    ensures NoneDrops(snaps, bs, now - DAY, false) ==>
              TodayFlow(snaps, bs, now) == Sum(Ids(snaps), id => Net(snaps, id, bs, now - DAY, false))
    ensures NoneDrops(snaps, bs, monthStart, true) ==>
              MonthlyTotal(snaps, bs, monthStart) == Sum(Ids(snaps), id => Net(snaps, id, bs, monthStart, true))
  {
    hide Sum, TodayFlow;
    TodayByIds(snaps, bs, now);
    if NoneDrops(snaps, bs, now - DAY, false) {
      NetTotals(snaps, bs, now - DAY, false);
    }
    if NoneDrops(snaps, bs, monthStart, true) {
      NetTotals(snaps, bs, monthStart, true);
    }
  }

  /** The records of each id, in time order, never report less than before. */
  ghost predicate Counters(records: seq<Record>) {
    && (forall i, j :: 0 <= i < j < |records| ==> records[i].time <= records[j].time)
    && (forall i, j :: 0 <= i < j < |records| && records[i].id == records[j].id ==> records[i].flow <= records[j].flow)
    && (forall i :: 0 <= i < |records| ==> records[i].flow >= 0)
  }

  function KeyOf(r: Record): (int, int) { (r.id, BucketOf(r.time)) }

  /** The k-th record is the last one of that id and hour. */
  ghost predicate LastFor(records: seq<Record>, key: (int, int), k: nat) {
    k < |records| && KeyOf(records[k]) == key && forall i :: k < i < |records| ==> KeyOf(records[i]) != key
  }

  lemma {:induction false} SnapshotIsRecorded(records: seq<Record>, key: (int, int)) returns (k: nat)
    requires key in SnapshotsOf(records)
    ensures LastFor(records, key, k) && SnapshotsOf(records)[key] == records[k].flow
  {
    var r := records[|records| - 1];
    if KeyOf(r) == key {
      k := |records| - 1;
    } else {
      k := SnapshotIsRecorded(records[..|records| - 1], key);
    }
  }

  lemma {:induction false} LastIsSnapshot(records: seq<Record>, key: (int, int), k: nat)
    requires LastFor(records, key, k)
    ensures key in SnapshotsOf(records) && SnapshotsOf(records)[key] == records[k].flow
  {
    if k < |records| - 1 {
      LastIsSnapshot(records[..|records| - 1], key, k);
    }
  }

  lemma {:induction false} PrevIsEarlier(snaps: Snapshots, id: int, bs: seq<int>, k: nat) returns (j: nat)
    requires k <= |bs| && Prev(snaps, id, bs, k).Some?
    ensures j < k && (id, bs[j]) in snaps && Prev(snaps, id, bs, k) == Some(snaps[(id, bs[j])])
  {
    if (id, bs[k - 1]) in snaps {
      j := k - 1;
    } else {
      j := PrevIsEarlier(snaps, id, bs, k - 1);
    }
  }

  /** Records that never drop give snapshots that never drop, so the totals telescope. */
  lemma CountersNeverDrop(records: seq<Record>, bs: seq<int>, start: int, countFirst: bool)
    requires Counters(records) && Ascending(bs)
    ensures NoneDrops(SnapshotsOf(records), bs, start, countFirst)
  {
    hide SnapshotsOf, Prev;
    var snaps := SnapshotsOf(records);
    forall id, j | 0 <= j < |bs| && (id, bs[j]) in snaps ensures Undropped(snaps, id, bs, j, countFirst) {
      var k := SnapshotIsRecorded(records, (id, bs[j]));
      if Prev(snaps, id, bs, j).Some? {
        var i := PrevIsEarlier(snaps, id, bs, j);
        var h := SnapshotIsRecorded(records, (id, bs[i]));
        assert bs[i] < bs[j];
        assert records[h].time < records[k].time;
        assert h < k;
      }
    }
  }

  // ---------------------------------------------------------------- the ranking

  lemma {:induction false} NodesPartition(snaps: Snapshots, bs: seq<int>, start: int, toNode: map<int, int>,
      nodes: set<int>)
    ensures Sum(nodes, node => NodeTotal(snaps, bs, start, toNode, node))
            == Sum(Joined(snaps, toNode, nodes), id => Moved(snaps, id, bs, |bs|, start, true))
  {
    hide Moved, Ids;
    var f := id => Moved(snaps, id, bs, |bs|, start, true);
    if nodes == {} {
      assert Joined(snaps, toNode, nodes) == {};
    } else {
      SomeMember(nodes);
      var n :| n in nodes;
      var rest := nodes - {n};
      SumTake(nodes, n, node => NodeTotal(snaps, bs, start, toNode, node));
      NodesPartition(snaps, bs, start, toNode, rest);
      var here, there := Joined(snaps, toNode, {n}), Joined(snaps, toNode, rest);
      SumUnion(here, there, f);
      assert here + there == Joined(snaps, toNode, nodes);
    }
  }

  /** On the same records, the ranking's flows summed over the nodes are the month's total without the forwards
      that are no longer joined to a tunnel. */
  lemma RankingPartitionsMonth(snaps: Snapshots, bs: seq<int>, start: int, toNode: map<int, int>)
    ensures Sum(toNode.Values, node => NodeTotal(snaps, bs, start, toNode, node))
            + Sum(Unjoined(snaps, toNode), id => Moved(snaps, id, bs, |bs|, start, true))
            == MonthlyTotal(snaps, bs, start)
  {
    hide Moved, Sum, NodeTotal, Ids;
    var f := id => Moved(snaps, id, bs, |bs|, start, true);
    var joined, unjoined := Joined(snaps, toNode, toNode.Values), Unjoined(snaps, toNode);
    NodesPartition(snaps, bs, start, toNode, toNode.Values);
    SumUnion(joined, unjoined, f);
    assert joined + unjoined == Ids(snaps);
  }
}
