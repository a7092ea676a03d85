/** The traffic reset cycles of Xray clients (go-backend/service/xray_scheduler.go), in milliseconds. */
module Scheduler {
  datatype Client = Client(reset: int, createdTime: int, updatedTime: int, upTraffic: int, downTraffic: int,
      enabled: bool, totalTraffic: int)

  const DAY_MS: int := 86_400_000

  function ResetMs(c: Client): int { c.reset * DAY_MS }

  /** How many full cycles lie between the client's creation and t. */
  function Cycle(c: Client, t: int): int
    requires c.reset > 0
  {
    if t <= c.createdTime then 0 else (t - c.createdTime) / ResetMs(c)
  }

  predicate Due(c: Client, now: int) {
    && c.reset > 0 && now - c.createdTime > 0
    && c.updatedTime < c.createdTime + (now - c.createdTime) / ResetMs(c) * ResetMs(c)
  }

  function Tick(c: Client, now: int): Client {
    if !Due(c, now) then c
    else c.(upTraffic := 0, downTraffic := 0, updatedTime := now, enabled := c.enabled || c.totalTraffic > 0)
  }

  /** The client after the ticks. */
  function Run(c: Client, ticks: seq<int>): Client {
    if ticks == [] then c else Tick(Run(c, ticks[..|ticks| - 1]), ticks[|ticks| - 1])
  }

  /** Whether the i-th tick resets the client. */
  predicate ResetsAt(c: Client, ticks: seq<int>, i: nat)
    requires i < |ticks|
  {
    Due(Run(c, ticks[..i]), ticks[i])
  }

  ghost predicate InOrder(ticks: seq<int>) { forall i, j :: 0 <= i < j < |ticks| ==> ticks[i] <= ticks[j] }

  lemma TimesGrows(a: int, b: int, m: int)
    requires a <= b && m >= 0
    ensures a * m <= b * m
  {
  }

  lemma QuotientAtLeast(d: int, m: int, n: int)
    requires m > 0
    ensures d >= n * m <==> d / m >= n
  {
    var q := d / m;
    assert q * m <= d < q * m + m;
    if q >= n {
      TimesGrows(n, q, m);
    } else {
      TimesGrows(q + 1, n, m);
      assert (q + 1) * m == q * m + m;
    }
  }

  lemma CycleAtLeast(c: Client, t: int, n: int)
    requires c.reset > 0 && t > c.createdTime
    ensures t - c.createdTime >= n * ResetMs(c) <==> Cycle(c, t) >= n
  {
    QuotientAtLeast(t - c.createdTime, ResetMs(c), n);
  }

  /** A cycle is as many days of 24 hours, in milliseconds, as the client's reset says, counted from its creation. */
  lemma CycleIsDays(c: Client, t: int)
    requires c.reset > 0 && t > c.createdTime
    ensures var length := c.reset * 24 * 60 * 60 * 1000;
            c.createdTime + Cycle(c, t) * length <= t < c.createdTime + (Cycle(c, t) + 1) * length
  {
    var n := Cycle(c, t);
    CycleAtLeast(c, t, n);
    CycleAtLeast(c, t, n + 1);
  }

  lemma CycleGrows(c: Client, t: int, t': int)
    requires c.reset > 0 && t <= t'
    ensures 0 <= Cycle(c, t) <= Cycle(c, t')
  {
    if t > c.createdTime {
      CycleAtLeast(c, t, Cycle(c, t));
      CycleAtLeast(c, t, 0);
      CycleAtLeast(c, t', Cycle(c, t));
    } else if t' > c.createdTime {
      CycleAtLeast(c, t', 0);
    }
  }

  /** A client is due when its last write falls into an earlier cycle. */
  lemma DueIffEarlierCycle(c: Client, now: int)
    requires c.reset > 0 && c.updatedTime >= c.createdTime
    ensures Due(c, now) <==> Cycle(c, c.updatedTime) < Cycle(c, now)
  {
    if now > c.createdTime && c.updatedTime > c.createdTime {
      CycleAtLeast(c, c.updatedTime, Cycle(c, now));
    } else if now > c.createdTime {
      assert Cycle(c, c.updatedTime) == 0;
      var q := Cycle(c, now);
      if q >= 1 {
        assert q * ResetMs(c) >= ResetMs(c);
      }
      CycleGrows(c, c.createdTime, now);
    } else {
      CycleGrows(c, c.createdTime, c.updatedTime);
    }
  }

  /** A client whose last write was before its creation is due at once. */
  lemma DueBeforeCreation(c: Client, now: int)
    requires c.reset > 0 && c.updatedTime < c.createdTime
    ensures Due(c, now) <==> now > c.createdTime
  {
    if now > c.createdTime {
      CycleAtLeast(c, now, 0);
      TimesGrows(0, Cycle(c, now), ResetMs(c));
    }
  }

  /** The latest cycle that the client's last write or one of the ticks so far fell into. */
  ghost predicate Marks(c: Client, ticks: seq<int>, s: Client)
    requires c.reset > 0
  {
    && s.reset == c.reset && s.createdTime == c.createdTime && s.updatedTime >= c.createdTime
    && Cycle(c, c.updatedTime) <= Cycle(c, s.updatedTime)
    && (s.updatedTime == c.updatedTime || s.updatedTime in ticks)
    && forall t :: t in ticks ==> Cycle(c, t) <= Cycle(c, s.updatedTime)
  }

  lemma {:induction false} RunMarks(c: Client, ticks: seq<int>)
    requires InOrder(ticks) && c.reset > 0 && c.updatedTime >= c.createdTime
    ensures Marks(c, ticks, Run(c, ticks))
  {
    hide Cycle, Due;
    if ticks != [] {
      var before, now := ticks[..|ticks| - 1], ticks[|ticks| - 1];
      assert ticks == before + [now];
      RunMarks(c, before);
      var s := Run(c, before);
      DueIffEarlierCycle(s, now);
      SameCycles(c, s);
      TickEffect(s, now);
    }
  }

  lemma TickEffect(s: Client, now: int)
    requires s.reset > 0 && s.updatedTime >= s.createdTime
    ensures Tick(s, now).reset == s.reset && Tick(s, now).createdTime == s.createdTime
    ensures Tick(s, now).updatedTime == if Due(s, now) then now else s.updatedTime
    ensures Tick(s, now).updatedTime >= s.createdTime
  {
  }

  lemma SameCycles(c: Client, s: Client)
    requires c.reset > 0 && s.reset == c.reset && s.createdTime == c.createdTime
    ensures forall t :: Cycle(s, t) == Cycle(c, t)
  {
  }

  /** When only the scheduler writes the update time, a tick resets a client if and only if it falls into a cycle
      after the one of the client's last write, and no tick before it fell into that cycle: once in every later
      cycle that contains a tick, at its first tick, and never in cycle 0. */
  lemma ResetsOncePerCycle(c: Client, ticks: seq<int>, i: nat)
    requires InOrder(ticks) && i < |ticks| && c.updatedTime >= c.createdTime
    ensures ResetsAt(c, ticks, i) <==>
            && c.reset > 0
            && Cycle(c, c.updatedTime) < Cycle(c, ticks[i])
            && forall j :: 0 <= j < i ==> Cycle(c, ticks[j]) < Cycle(c, ticks[i])
    ensures ResetsAt(c, ticks, i) ==> Cycle(c, ticks[i]) >= 1
  {
    hide Cycle, Due;
    if c.reset <= 0 {
      NeverWithoutCycle(c, ticks[..i], ticks[i]);
    } else {
      var before, now := ticks[..i], ticks[i];
      RunMarks(c, before);
      var s := Run(c, before);
      DueIffEarlierCycle(s, now);
      SameCycles(c, s);
      CycleGrows(c, c.updatedTime, c.updatedTime);
      forall j | 0 <= j < i ensures Cycle(c, ticks[j]) <= Cycle(c, ticks[i]) && ticks[j] in before {
        CycleGrows(c, ticks[j], ticks[i]);
        assert before[j] == ticks[j];
      }
    }
  }

  lemma {:induction false} NeverWithoutCycle(c: Client, ticks: seq<int>, now: int)
    requires c.reset <= 0
    ensures Run(c, ticks) == c && !Due(c, now)
  {
    if ticks != [] {
      NeverWithoutCycle(c, ticks[..|ticks| - 1], now);
    }
  }

  /** A reset is what clears the counters, and what lets a client with a traffic limit back in; without one
      nothing changes. */
  lemma {:induction false} RunClears(c: Client, ticks: seq<int>)
    ensures var s := Run(c, ticks);
            if exists i :: 0 <= i < |ticks| && ResetsAt(c, ticks, i)
            then s.upTraffic == 0 && s.downTraffic == 0 && (s.enabled <==> c.enabled || c.totalTraffic > 0)
            else s == c
    ensures Run(c, ticks).totalTraffic == c.totalTraffic
  {
    hide Due;
    if ticks != [] {
      var before := ticks[..|ticks| - 1];
      RunClears(c, before);
      forall i | 0 <= i < |before| ensures ResetsAt(c, before, i) == ResetsAt(c, ticks, i) {
        assert before[..i] == ticks[..i];
      }
      assert ResetsAt(c, ticks, |ticks| - 1) == Due(Run(c, before), ticks[|ticks| - 1]);
    }
  }

  // ---------------------------------------------------------------- the loop over the clients

  class Clients {
    var rows: seq<Client>

    constructor (rows: seq<Client>)
      ensures this.rows == rows
    {
      this.rows := rows;
    }

    /** One client of the loop. */
    method ResetIfDue(client: Client, now: int) returns (after: Client, due: bool)
      ensures after == Tick(client, now) && due == Due(client, now)
    {
      if client.reset <= 0 || now - client.createdTime <= 0 {
        return client, false;
      }
      var resetMs := client.reset * DAY_MS;
      var cyclesPassed := (now - client.createdTime) / resetMs;
      var nextResetTime := client.createdTime + cyclesPassed * resetMs;
      due := client.updatedTime < nextResetTime;
      after := client;
      if due {
        after := after.(upTraffic := 0, downTraffic := 0, updatedTime := now);
        if !after.enabled && after.totalTraffic > 0 {
          after := after.(enabled := true);
        }
      }
    }

    method CheckClientTrafficReset(now: int) returns (resetCount: nat)
      modifies this`rows
      ensures |rows| == |old(rows)|
      ensures forall i :: 0 <= i < |rows| ==> rows[i] == Tick(old(rows)[i], now)
      ensures resetCount == |set i | 0 <= i < |old(rows)| && Due(old(rows)[i], now)|
    {
      hide Due, Tick;
      resetCount := 0;
      ghost var done: set<int> := {};
      for i := 0 to |rows|
        invariant |rows| == |old(rows)|
        invariant forall j :: 0 <= j < i ==> rows[j] == Tick(old(rows)[j], now)
        invariant forall j :: i <= j < |rows| ==> rows[j] == old(rows)[j]
        invariant done == (set j | 0 <= j < i && Due(old(rows)[j], now)) && resetCount == |done|
      {
        var client, due := ResetIfDue(rows[i], now);
        rows := rows[i := client];
        if due {
          resetCount := resetCount + 1;
          done := done + {i};
        }
      }
    }
  }
}
