/** The per-address rate limiter (go-backend/middleware/rate_limit.go). */
module RateLimit {
  datatype Window = Window(count: int, resetAt: int)

  type Records = map<string, Window>

  datatype Event = Request(ip: string, time: int) | Sweep(time: int)

  datatype Admission = Admission(ip: string, time: int)

  function Time(e: Event): int { e.time }

  function Allow(records: Records, limit: int, window: int, ip: string, now: int): (Records, bool) {
    if ip !in records || now > records[ip].resetAt then (records[ip := Window(1, now + window)], true)
    else
      var count := records[ip].count + 1;
      (records[ip := records[ip].(count := count)], count <= limit)
  }

  function Cleanup(records: Records, now: int): Records {
    map ip | ip in records && now <= records[ip].resetAt :: records[ip]
  }

  datatype Outcome = Outcome(records: Records, admitted: seq<Admission>, decisions: seq<bool>)

  /** The decisions of a run, and the requests it let through. */
  function Run(limit: int, window: int, events: seq<Event>): Outcome {
    if events == [] then Outcome(map[], [], [])
    else
      var o, e := Run(limit, window, events[..|events| - 1]), events[|events| - 1];
      match e
      case Sweep(t) => o.(records := Cleanup(o.records, t))
      case Request(ip, t) =>
        var (records, ok) := Allow(o.records, limit, window, ip, t);
        Outcome(records, if ok then o.admitted + [Admission(ip, t)] else o.admitted, o.decisions + [ok])
  }

  ghost predicate InOrder(events: seq<Event>) {
    forall i, j :: 0 <= i < j < |events| ==> Time(events[i]) <= Time(events[j])
  }

  // ---------------------------------------------------------------- cleanup changes nothing

  function WithoutSweeps(events: seq<Event>): seq<Event> {
    if events == [] then []
    else
      var e := events[|events| - 1];
      WithoutSweeps(events[..|events| - 1]) + if e.Sweep? then [] else [e]
  }

  /** The windows that are still open at that time are the same. */
  ghost predicate SameOpen(a: Records, b: Records, now: int) {
    && (forall ip :: ip in a && a[ip].resetAt >= now ==> ip in b && b[ip] == a[ip])
    && (forall ip :: ip in b && b[ip].resetAt >= now ==> ip in a && a[ip] == b[ip])
  }

  lemma AllowSame(a: Records, b: Records, limit: int, window: int, ip: string, now: int)
    requires SameOpen(a, b, now)
    ensures Allow(a, limit, window, ip, now).1 == Allow(b, limit, window, ip, now).1
    ensures SameOpen(Allow(a, limit, window, ip, now).0, Allow(b, limit, window, ip, now).0, now)
  {
  }

  lemma CleanupSame(a: Records, b: Records, now: int)
    requires SameOpen(a, b, now)
    ensures SameOpen(Cleanup(a, now), b, now)
  {
  }

  /** With a clock that does not go back, cleanups change no decision, wherever they fall. */
  lemma {:induction false} SweepsChangeNothing(limit: int, window: int, events: seq<Event>, now: int)
    requires InOrder(events) && (events != [] ==> Time(events[|events| - 1]) <= now)
    ensures var a, b := Run(limit, window, events), Run(limit, window, WithoutSweeps(events));
            a.decisions == b.decisions && a.admitted == b.admitted && SameOpen(a.records, b.records, now)
  {
    hide SameOpen, Allow, Cleanup;
    if events == [] {
      NothingOpen(now);
    } else {
      var before, e := events[..|events| - 1], events[|events| - 1];
      assert before != [] ==> Time(events[|events| - 2]) <= Time(e);
      SweepsChangeNothing(limit, window, before, e.time);
      var kept := WithoutSweeps(before);
      var a, b := Run(limit, window, before), Run(limit, window, kept);
      match e
      case Request(ip, t) =>
        assert WithoutSweeps(events) == kept + [e];
        assert (kept + [e])[..|kept|] == kept;
        AllowSame(a.records, b.records, limit, window, ip, t);
        StillSame(Allow(a.records, limit, window, ip, t).0, Allow(b.records, limit, window, ip, t).0, t, now);
      case Sweep(t) =>
        assert WithoutSweeps(events) == kept + [] == kept;
        CleanupSame(a.records, b.records, t);
        StillSame(Cleanup(a.records, t), b.records, t, now);
    }
  }

  lemma NothingOpen(now: int)
    ensures SameOpen(map[], map[], now)
  {
  }

  lemma StillSame(a: Records, b: Records, now: int, later: int)
    requires SameOpen(a, b, now) && now <= later
    ensures SameOpen(a, b, later)
  {
  }

  // ---------------------------------------------------------------- how much is admitted

  function Max(limit: int): int { if limit < 1 then 1 else limit }

  function Min(a: int, b: int): int { if a < b then a else b }

  /** The admissions of the address from time a to time b, both included. */
  function Admitted(adm: seq<Admission>, ip: string, a: int, b: int): nat {
    if adm == [] then 0
    else
      var x := adm[|adm| - 1];
      Admitted(adm[..|adm| - 1], ip, a, b) + if x.ip == ip && a <= x.time <= b then 1 else 0
  }

  /** The admissions of the address from time a on. */
  function AdmittedFrom(adm: seq<Admission>, ip: string, a: int): nat {
    if adm == [] then 0
    else
      var x := adm[|adm| - 1];
      AdmittedFrom(adm[..|adm| - 1], ip, a) + if x.ip == ip && a <= x.time then 1 else 0
  }

  lemma {:induction false} MoreAdmitted(adm: seq<Admission>, x: Admission, ip: string, a: int)
    ensures AdmittedFrom(adm + [x], ip, a) == AdmittedFrom(adm, ip, a) + if x.ip == ip && a <= x.time then 1 else 0
  {
    assert (adm + [x])[..|adm|] == adm;
  }

  lemma {:induction false} WithinIsFewer(adm: seq<Admission>, ip: string, a: int, b: int)
    ensures Admitted(adm, ip, a, b) <= AdmittedFrom(adm, ip, a)
  {
    if adm != [] {
      WithinIsFewer(adm[..|adm| - 1], ip, a, b);
    }
  }

  /** Where an address stands at time now. With a window: it has admitted as many as its count says, up to the limit,
      one of them at its opening; reaching back at most one window's length from the opening there are fewer than a
      limit more, those of the window before without its opening; and there is nothing after the window's end. Without
      one, because it never asked or was swept: fewer than the limit within the last window's length, nothing now. */
  ghost predicate Standing(records: Records, admitted: seq<Admission>, limit: int, window: int, ip: string, now: int) {
    if ip !in records then
      && (forall a :: a >= now - window ==> AdmittedFrom(admitted, ip, a) < Max(limit))
      && (forall a :: a >= now ==> AdmittedFrom(admitted, ip, a) == 0)
    else
      var w := records[ip];
      var start := w.resetAt - window;
      && w.count >= 1 && start <= now
      && AdmittedFrom(admitted, ip, start) == Min(w.count, Max(limit))
      && (forall a :: a > start ==> AdmittedFrom(admitted, ip, a) < Min(w.count, Max(limit)))
      && (forall a :: a >= start - window ==> AdmittedFrom(admitted, ip, a) < Max(limit) + Min(w.count, Max(limit)))
      && (forall a :: a > w.resetAt ==> AdmittedFrom(admitted, ip, a) == 0)
  }

  lemma {:induction false} RunStanding(limit: int, window: int, events: seq<Event>, ip: string, now: int)
    requires window > 0 && InOrder(events)
    requires events != [] ==> Time(events[|events| - 1]) <= now
    ensures Standing(Run(limit, window, events).records, Run(limit, window, events).admitted, limit, window, ip, now)
  {
    hide Standing, Allow, Cleanup;
    if events == [] {
      NothingStanding(limit, window, ip, now);
    } else {
      var before, e := events[..|events| - 1], events[|events| - 1];
      assert before != [] ==> Time(events[|events| - 2]) <= Time(e);
      RunStanding(limit, window, before, ip, e.time);
      var o, o' := Run(limit, window, before), Run(limit, window, events);
      match e {
        case Request(asker, t) => StandingStep(o.records, o.admitted, limit, window, ip, asker, t);
        case Sweep(t) => StandingSwept(o.records, o.admitted, limit, window, ip, t);
      }
      StandingLater(o'.records, o'.admitted, limit, window, ip, e.time, now);
    }
  }

  lemma NothingStanding(limit: int, window: int, ip: string, now: int)
    ensures Standing(map[], [], limit, window, ip, now)
  {
  }

  lemma StandingLater(records: Records, admitted: seq<Admission>, limit: int, window: int, ip: string, now: int,
      later: int)
    requires Standing(records, admitted, limit, window, ip, now) && now <= later
    ensures Standing(records, admitted, limit, window, ip, later)
  {
  }

  lemma StandingSwept(records: Records, admitted: seq<Admission>, limit: int, window: int, ip: string, now: int)
    requires window > 0 && Standing(records, admitted, limit, window, ip, now)
    ensures Standing(Cleanup(records, now), admitted, limit, window, ip, now)
  {
    hide AdmittedFrom;
  }

  /** What a request leaves of the admissions. */
  function Through(admitted: seq<Admission>, ok: bool, asker: string, now: int): seq<Admission> {
    if ok then admitted + [Admission(asker, now)] else admitted
  }

  lemma StandingStep(records: Records, admitted: seq<Admission>, limit: int, window: int, ip: string, asker: string,
      now: int)
    requires window > 0 && Standing(records, admitted, limit, window, ip, now)
    ensures var (records', ok) := Allow(records, limit, window, asker, now);
            Standing(records', Through(admitted, ok, asker, now), limit, window, ip, now)
  {
    hide AdmittedFrom;
    var x := Admission(asker, now);
    forall a ensures AdmittedFrom(admitted + [x], ip, a) == AdmittedFrom(admitted, ip, a) + if asker == ip
        && a <= now then 1 else 0 {
      MoreAdmitted(admitted, x, ip, a);
    }
    if asker == ip && ip in records && now > records[ip].resetAt {
      var start := records[ip].resetAt - window;
      assert forall a :: a > start ==> AdmittedFrom(admitted, ip, a) < Max(limit);
    }
  }

  /** A window's own count is what it admitted, at most the limit (and at least the request that opened it). */
  lemma WindowAdmitsLimit(limit: int, window: int, events: seq<Event>, ip: string)
    requires window > 0 && InOrder(events)
    requires ip in Run(limit, window, events).records
    ensures var o := Run(limit, window, events);
            AdmittedFrom(o.admitted, ip, o.records[ip].resetAt - window)
                == Min(o.records[ip].count, Max(limit)) <= Max(limit)
  {
    if events != [] {
      RunStanding(limit, window, events, ip, Time(events[|events| - 1]));
    }
  }

  /** The admissions of the address in the closed interval of one window's length from a on. */
  function InInterval(admitted: seq<Admission>, ip: string, a: int, window: int): nat {
    Admitted(admitted, ip, a, a + window)
  }

  /** Every closed interval of one window's length admits less than twice the limit. */
  ghost predicate Bounded(admitted: seq<Admission>, limit: int, window: int) {
    forall ip, a :: InInterval(admitted, ip, a, window) < 2 * Max(limit)
  }

  lemma BoundedStep(records: Records, admitted: seq<Admission>, limit: int, window: int, asker: string, now: int)
    requires window > 0 && Bounded(admitted, limit, window) && forall ip ::
               Standing(records, admitted, limit, window, ip, now)
    ensures Bounded(Through(admitted, Allow(records, limit, window, asker, now).1, asker, now), limit, window)
  {
    hide Standing, Allow, Admitted;
    var (records', ok) := Allow(records, limit, window, asker, now);
    var admitted' := Through(admitted, ok, asker, now);
    forall ip, a ensures InInterval(admitted', ip, a, window) < 2 * Max(limit) {
      assert InInterval(admitted, ip, a, window) < 2 * Max(limit);
      AdmittedOne(admitted, Admission(asker, now), ip, a, a + window);
      if now <= a + window {
        StandingStep(records, admitted, limit, window, ip, asker, now);
        WithinIsFewer(admitted', ip, a, a + window);
        StandingBound(records', admitted', limit, window, ip, now, a);
      }
    }
  }

  lemma StandingBound(records: Records, admitted: seq<Admission>, limit: int, window: int, ip: string, now: int, a: int)
    requires Standing(records, admitted, limit, window, ip, now) && now <= a + window
    ensures AdmittedFrom(admitted, ip, a) < 2 * Max(limit)
  {
  }

  lemma {:induction false} RunBounded(limit: int, window: int, events: seq<Event>)
    requires window > 0 && InOrder(events)
    ensures Bounded(Run(limit, window, events).admitted, limit, window)
  {
    hide Standing, Allow, Cleanup, Bounded;
    if events == [] {
      NothingBounded(limit, window);
    } else {
      var before, e := events[..|events| - 1], events[|events| - 1];
      RunBounded(limit, window, before);
      if e.Request? {
        assert before != [] ==> Time(events[|events| - 2]) <= Time(e);
        var o := Run(limit, window, before);
        forall ip ensures Standing(o.records, o.admitted, limit, window, ip, e.time) {
          RunStanding(limit, window, before, ip, e.time);
        }
        BoundedStep(o.records, o.admitted, limit, window, e.ip, e.time);
      }
    }
  }

  lemma NothingBounded(limit: int, window: int)
    ensures Bounded([], limit, window)
  {
  }

  /** With a clock that does not go back and cleanups anywhere, any closed interval of one window's length admits
      less than twice the limit for an address (a limit below one acts as one). */
  lemma IntervalAdmitsUnderTwiceTheLimit(limit: int, window: int, events: seq<Event>, ip: string, a: int)
    requires window > 0 && InOrder(events)
    ensures InInterval(Run(limit, window, events).admitted, ip, a, window) < 2 * Max(limit)
  {
    hide Run;
    RunBounded(limit, window, events);
  }

  function Burst(ip: string, t: int, n: nat): seq<Event> {
    if n == 0 then [] else Burst(ip, t, n - 1) + [Request(ip, t)]
  }

  lemma {:induction false} BurstInOrder(ip: string, t: int, n: nat)
    ensures |Burst(ip, t, n)| == n && forall e :: e in Burst(ip, t, n) ==> Time(e) == t
  {
    if n > 0 {
      BurstInOrder(ip, t, n - 1);
    }
  }

  lemma {:induction false} BurstFills(limit: int, window: int, events: seq<Event>, ip: string, t: int, n: nat, a: int,
      b: int)
    requires ip in Run(limit, window, events).records
    requires t <= Run(limit, window, events).records[ip].resetAt
               && Run(limit, window, events).records[ip].count + n <= limit
    ensures var o, p := Run(limit, window, events), Run(limit, window, events + Burst(ip, t, n));
            && ip in p.records && p.records[ip] == o.records[ip].(count := o.records[ip].count + n)
            && Admitted(p.admitted, ip, a, b) == Admitted(o.admitted, ip, a, b) + if a <= t <= b then n else 0
  {
    hide Run, Admitted;
    if n == 0 {
      assert events + [] == events;
    } else {
      BurstFills(limit, window, events, ip, t, n - 1, a, b);
      var most := events + Burst(ip, t, n - 1);
      assert events + Burst(ip, t, n) == most + [Request(ip, t)];
      RunOne(limit, window, most, ip, t);
      AdmittedOne(Run(limit, window, most).admitted, Admission(ip, t), ip, a, b);
    }
  }

  lemma {:induction false} AdmittedOne(adm: seq<Admission>, x: Admission, ip: string, a: int, b: int)
    ensures Admitted(adm + [x], ip, a, b) == Admitted(adm, ip, a, b) + if x.ip == ip && a <= x.time <= b then 1 else 0
  {
    assert (adm + [x])[..|adm|] == adm;
  }

  lemma JoinInOrder(x: seq<Event>, y: seq<Event>, t: int)
    requires InOrder(x) && (forall e :: e in x ==> Time(e) <= t) && forall e :: e in y ==> Time(e) == t
    ensures InOrder(x + y) && forall e :: e in x + y ==> Time(e) <= t
  {
  }

  /** No smaller bound holds, for any limit: a window filled at its last instant, and the next one just after it. */
  lemma BoundIsReached(limit: nat, window: nat, ip: string) returns (events: seq<Event>, a: int)
    requires limit > 0 && window > 0
    ensures InOrder(events) && InInterval(Run(limit, window, events).admitted, ip, a, window) == 2 * limit - 1
  {
    hide Run, Admitted;
    var first, next := [Request(ip, 0)], [Request(ip, window + 1)];
    var fill, refill := Burst(ip, window, limit - 1), Burst(ip, window + 1, limit - 1);
    a := window;
    events := first + fill + next + refill;
    BurstInOrder(ip, window, limit - 1);
    BurstInOrder(ip, window + 1, limit - 1);
    JoinInOrder(first, fill, window);
    JoinInOrder(first + fill, next, window + 1);
    JoinInOrder(first + fill + next, refill, window + 1);
    assert [] + first == first;
    assert Run(limit, window, []) == Outcome(map[], [], []) by { RunNone(limit, window); }
    RunOne(limit, window, [], ip, 0);
    AdmittedOne([], Admission(ip, 0), ip, a, a + window);
    AdmittedNone(ip, a, a + window);
    BurstFills(limit, window, first, ip, window, limit - 1, a, a + window);
    RunOne(limit, window, first + fill, ip, window + 1);
    AdmittedOne(Run(limit, window, first + fill).admitted, Admission(ip, window + 1), ip, a, a + window);
    BurstFills(limit, window, first + fill + next, ip, window + 1, limit - 1, a, a + window);
  }

  lemma RunNone(limit: int, window: int)
    ensures Run(limit, window, []) == Outcome(map[], [], [])
  {
  }

  lemma AdmittedNone(ip: string, a: int, b: int)
    ensures Admitted([], ip, a, b) == 0
  {
  }

  lemma RunOne(limit: int, window: int, events: seq<Event>, ip: string, t: int)
    ensures var o, p := Run(limit, window, events), Run(limit, window, events + [Request(ip, t)]);
            p.records == Allow(o.records, limit, window, ip, t).0
            && p.admitted == if Allow(o.records, limit, window, ip, t).1 then o.admitted + [Admission(ip, t)]
                  else o.admitted
  {
    assert (events + [Request(ip, t)])[..|events|] == events;
  }

  // ---------------------------------------------------------------- in place

  /** The ghost fields record what was let through, and when the limiter was last used. */
  class Limiter {
    var records: map<string, Window>
    const limit: int
    const window: int
    ghost var admitted: seq<Admission>
    ghost var clock: int

    ghost predicate Valid() reads this {
      && window > 0 && Bounded(admitted, limit, window)
      && forall ip :: Standing(records, admitted, limit, window, ip, clock)
    }

    constructor (limit: int, window: int)
      requires window > 0
      ensures Valid() && records == map[] && admitted == [] && this.limit == limit && this.window == window
                && clock == 0
    {
      records := map[];
      this.limit, this.window := limit, window;
      admitted, clock := [], 0;
      new;
      hide Standing;
      NothingBounded(limit, window);
      forall ip ensures Standing(records, admitted, limit, window, ip, clock) {
        NothingStanding(limit, window, ip, 0);
      }
    }

    /** Whatever happened before, the address is refused what would fill an interval of one window's length with twice
        the limit. */
    method AllowRequest(ip: string, now: int) returns (ok: bool)
      requires Valid() && clock <= now
      modifies this
      ensures Valid() && clock == now
      ensures (records, ok) == Allow(old(records), limit, window, ip, now)
      ensures admitted == Through(old(admitted), ok, ip, now)
      ensures forall who, a :: InInterval(admitted, who, a, window) < 2 * Max(limit)
    {
      hide Standing;
      forall who ensures Standing(records, admitted, limit, window, who, now) {
        StandingLater(records, admitted, limit, window, who, clock, now);
      }
      BoundedStep(records, admitted, limit, window, ip, now);
      forall who ensures Standing(Allow(records, limit, window, ip, now).0,
          Through(admitted, Allow(records, limit, window, ip, now).1, ip, now), limit, window, who, now) {
        StandingStep(records, admitted, limit, window, who, ip, now);
      }
      clock := now;
      if ip !in records || now > records[ip].resetAt {
        records := records[ip := Window(1, now + window)];
        admitted := Through(admitted, true, ip, now);
        return true;
      }
      records := records[ip := records[ip].(count := records[ip].count + 1)];
      ok := records[ip].count <= limit;
      admitted := Through(admitted, ok, ip, now);
    }

    /** Deletes while it iterates, in any order. */
    method Sweep(now: int)
      requires Valid() && clock <= now
      modifies this`records, this`clock
      ensures Valid() && clock == now && records == Cleanup(old(records), now)
    {
      hide Standing, Bounded;
      forall who ensures Standing(Cleanup(records, now), admitted, limit, window, who, now) {
        StandingLater(records, admitted, limit, window, who, clock, now);
        StandingSwept(records, admitted, limit, window, who, now);
      }
      var todo := records.Keys;
      while todo != {}
        invariant todo <= records.Keys <= old(records).Keys
        invariant forall ip :: ip in records ==> records[ip] == old(records)[ip]
        invariant forall ip :: ip in old(records) && ip !in todo ==>
                    (ip in records <==> now <= old(records)[ip].resetAt)
        decreases todo
      {
        assert exists ip :: ip in todo by { if forall ip :: ip !in todo { assert false; } }
        var ip :| ip in todo;
        todo := todo - {ip};
        if now > records[ip].resetAt {
          records := records - {ip};
        }
      }
      ghost var swept := Cleanup(old(records), now);
      assert forall ip :: ip in records <==> ip in swept;
      assert records == swept;
      clock := now;
    }
  }
}
