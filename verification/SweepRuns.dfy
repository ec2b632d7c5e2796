/**
 How far a sweep gets over many ticks, each of which plans and then executes as
 many of its units as its budget allows, or as it lives to execute.
 */
module SweepRuns {
  import opened Prelude
  import opened Sweep

  /** The day of a tick, and what the units it executed found. */
  datatype Tick = Tick(today: int, findings: seq<Finding>)

  /** Executes the first units, one finding each. */
  function Execute(q: Queue, units: seq<Unit>, findings: seq<Finding>): Queue
    decreases |units|
  {
    if units == [] || findings == [] then q
    else
      var u := units[0];
      var next := if u.candidate < 0 then q else MarkOne(q, u.candidate, u.market, u.cycle, findings[0]);
      Execute(next, units[1..], findings[1..])
  }

  function UnitsOfTick(db: Db, markets: seq<Market>, perRun: nat, tick: Tick): seq<Unit> {
    var p := Planned(db, markets, tick.today);
    UnitsOf(p.queue, p.coverage, perRun)
  }

  function AfterTick(db: Db, markets: seq<Market>, perRun: nat, tick: Tick): Db {
    var p := Planned(db, markets, tick.today);
    Db(Execute(p.queue, UnitsOf(p.queue, p.coverage, perRun), tick.findings), p.coverage)
  }

  function AfterTicks(db: Db, markets: seq<Market>, perRun: nat, ticks: seq<Tick>): Db
    decreases |ticks|
  {
    if ticks == [] then db else AfterTicks(AfterTick(db, markets, perRun, ticks[0]), markets, perRun, ticks[1..])
  }

  /** Units executed over a run of ticks. */
  function Executed(db: Db, markets: seq<Market>, perRun: nat, ticks: seq<Tick>): nat
    decreases |ticks|
  {
    if ticks == [] then 0
    else
      Min(|UnitsOfTick(db, markets, perRun, ticks[0])|, |ticks[0].findings|)
      + Executed(AfterTick(db, markets, perRun, ticks[0]), markets, perRun, ticks[1..])
  }

  /** Every candidate has a row for every market, as after any plan. */
  ghost predicate HasAll(q: Queue, markets: seq<Market>) {
    forall i, m :: 0 <= i < |q| && m in markets ==> HasMarket(q[i].rows, m)
  }

  /** No tick closes the cycle, and none claims a candidate from the n-th on. */
  ghost predicate StaysBefore(db: Db, markets: seq<Market>, perRun: nat, ticks: seq<Tick>, n: nat)
    decreases |ticks|
  {
    ticks == [] ||
    (var p := Planned(db, markets, ticks[0].today);
     && p.coverage == db.coverage
     && (forall i :: i in Claim(p.queue, p.coverage, perRun, 0) ==> i < n)
     && StaysBefore(AfterTick(db, markets, perRun, ticks[0]), markets, perRun, ticks[1..], n))
  }

  // ------------------------------------------------------------- one tick

  /** Work left before the n-th candidate. */
  function Ahead(q: Queue, n: nat): nat
    requires n <= |q|
  {
    PendingUnits(q[..n])
  }

  lemma MarkTakesAhead(q: Queue, n: nat, i: nat, market: Market, cycle: int, f: Finding)
    requires QueueOk(q) && i < n <= |q| && IsWork(q, i, market, cycle)
    ensures
      var t := MarkOne(q, i, market, cycle, f);
      |t| == |q| && Ahead(t, n) == Ahead(q, n) - 1
  {
    var t := MarkOne(q, i, market, cycle, f);
    assert t[..n] == q[..n][i := t[i]] == MarkOne(q[..n], i, market, cycle, f);
    assert q[..n][i] == q[i];
    assert IsWork(q[..n], i, market, cycle);
    MarkTakesOne(q[..n], i, market, cycle, f);
  }

  lemma MarkKeepsMarkets(q: Queue, i: nat, market: Market, cycle: int, f: Finding, markets: seq<Market>)
    requires QueueOk(q) && HasAll(q, markets)
    ensures QueueOk(MarkOne(q, i, market, cycle, f)) && HasAll(MarkOne(q, i, market, cycle, f), markets)
  {
    StepKeepsQueue(q, MarkChecked(i, market, cycle, f));
    var t := MarkOne(q, i, market, cycle, f);
    forall k, m | 0 <= k < |t| && m in markets ensures HasMarket(t[k].rows, m) {
      assert HasMarket(q[k].rows, m);
      var j :| 0 <= j < |q[k].rows| && q[k].rows[j].market == m;
      assert t[k].rows[j].market == m;
    }
  }

  /** Distinct pending units of candidates before the n-th. */
  ghost predicate WorkBefore(q: Queue, units: seq<Unit>, cycle: int, n: nat) {
    && Distinct(units)
    && forall k :: 0 <= k < |units| ==>
         units[k].cycle == cycle && 0 <= units[k].candidate < n && IsWork(q, units[k].candidate, units[k].market, cycle)
  }

  lemma OthersStayWork(q: Queue, units: seq<Unit>, cycle: int, n: nat, f: Finding)
    requires units != [] && WorkBefore(q, units, cycle, n) && n <= |q|
    ensures WorkBefore(MarkOne(q, units[0].candidate, units[0].market, cycle, f), units[1..], cycle, n)
  {
    forall k | 0 <= k < |units[1..]|
      ensures IsWork(MarkOne(q, units[0].candidate, units[0].market, cycle, f), units[1..][k].candidate,
        units[1..][k].market, cycle)
    {
      assert units[1..][k] == units[k + 1] != units[0];
      MarkTakesOnly(q, units[0].candidate, units[0].market, cycle, f, units[k + 1].candidate, units[k + 1].market);
    }
  }

  /** Each executed unit takes one off the work ahead. */
  lemma {:induction false} ExecuteTakes(
    q: Queue, units: seq<Unit>, findings: seq<Finding>, cycle: int, n: nat, markets: seq<Market>)
    requires QueueOk(q) && HasAll(q, markets) && n <= |q| && WorkBefore(q, units, cycle, n)
    ensures
      var t := Execute(q, units, findings);
      && QueueOk(t) && HasAll(t, markets) && |t| == |q|
      && Ahead(t, n) == Ahead(q, n) - Min(|units|, |findings|)
    decreases |units|
  {
    if units != [] && findings != [] {
      var u := units[0];
      MarkTakesAhead(q, n, u.candidate, u.market, cycle, findings[0]);
      MarkKeepsMarkets(q, u.candidate, u.market, cycle, findings[0], markets);
      OthersStayWork(q, units, cycle, n, findings[0]);
      ExecuteTakes(MarkOne(q, u.candidate, u.market, cycle, findings[0]), units[1..], findings[1..], cycle, n, markets);
    }
  }

  lemma {:induction false} RetiredRows(rows: seq<MarketRow>)
    ensures PendingRows(MapRows(rows, (r: MarketRow) => r.(status := Retired(r.status)))) <= PendingRows(rows)
  {
    if rows != [] {
      var f := (r: MarketRow) => r.(status := Retired(r.status));
      RetiredRows(rows[1..]);
      assert MapRows(rows, f)[1..] == MapRows(rows[1..], f);
    }
  }

  /** Retiring past departures adds no work. */
  lemma {:induction false} SkipAddsNothing(q: Queue, today: int)
    ensures PendingUnits(SkipAll(q, today)) <= PendingUnits(q)
  {
    if q != [] {
      RetiredRows(q[0].rows);
      SkipAddsNothing(q[1..], today);
      assert SkipAll(q, today)[1..] == SkipAll(q[1..], today);
    }
  }

  /** With all markets there, a plan that stays in its cycle only retires departures. */
  lemma PlanOnlySkips(db: Db, markets: seq<Market>, today: int, n: nat)
    requires QueueOk(db.queue) && HasAll(db.queue, markets) && n <= |db.queue|
    requires Planned(db, markets, today).coverage == db.coverage
    ensures
      var p := Planned(db, markets, today).queue;
      && p == SkipAll(db.queue, today) && QueueOk(p) && HasAll(p, markets) && |p| == |db.queue|
      && Ahead(p, n) <= Ahead(db.queue, n)
  {
    var q := db.queue;
    forall i | 0 <= i < |q| ensures WithMarkets(q[i], markets) == q[i] {
      MarketsAlreadyThere(q[i], markets);
    }
    assert EnsureAll(q, markets) == q;
    var p := SkipAll(q, today);
    StepKeepsQueue(q, SkipPast(today));
    forall k, m | 0 <= k < |p| && m in markets ensures HasMarket(p[k].rows, m) {
      assert HasMarket(q[k].rows, m);
      var j :| 0 <= j < |q[k].rows| && q[k].rows[j].market == m;
      assert p[k].rows[j].market == m;
    }
    SkipAddsNothing(q[..n], today);
    assert p[..n] == SkipAll(q[..n], today);
  }

  lemma {:induction false} TickTakes(db: Db, markets: seq<Market>, perRun: nat, tick: Tick, n: nat)
    requires QueueOk(db.queue) && HasAll(db.queue, markets) && n <= |db.queue|
      && StaysBefore(db, markets, perRun, [tick], n)
    ensures
      var t := AfterTick(db, markets, perRun, tick);
      && QueueOk(t.queue) && HasAll(t.queue, markets) && |t.queue| == |db.queue| && t.coverage == db.coverage
      && Ahead(t.queue, n) + Min(|UnitsOfTick(db, markets, perRun, tick)|, |tick.findings|) <= Ahead(db.queue, n)
  {
    var p := Planned(db, markets, tick.today);
    assert [tick][0] == tick;
    PlanOnlySkips(db, markets, tick.today, n);
    var claimed := Claim(p.queue, p.coverage, perRun, 0);
    var units := UnitsFrom(p.queue, claimed, p.coverage);
    ClaimIsAscending(p.queue, p.coverage, perRun, 0);
    UnitsAreDistinct(p.queue, claimed, p.coverage);
    UnitsAreOfClaim(p.queue, claimed, p.coverage);
    forall k | 0 <= k < |units| ensures units[k] in units {
    }
    ExecuteTakes(p.queue, units, tick.findings, p.coverage, n, markets);
  }

  // ------------------------------------------------------------- many ticks

  lemma {:induction false} TicksTake(db: Db, markets: seq<Market>, perRun: nat, ticks: seq<Tick>, n: nat)
    requires QueueOk(db.queue) && HasAll(db.queue, markets) && n <= |db.queue|
      && StaysBefore(db, markets, perRun, ticks, n)
    ensures
      var t := AfterTicks(db, markets, perRun, ticks);
      && |t.queue| == |db.queue| && Ahead(t.queue, n) + Executed(db, markets, perRun, ticks) <= Ahead(db.queue, n)
    decreases |ticks|
  {
    if ticks != [] {
      assert [ticks[0]][1..] == [];
      TickTakes(db, markets, perRun, ticks[0], n);
      TicksTake(AfterTick(db, markets, perRun, ticks[0]), markets, perRun, ticks[1..], n);
    }
  }

  /** No tick closes the cycle. */
  ghost predicate StaysInCycle(db: Db, markets: seq<Market>, perRun: nat, ticks: seq<Tick>)
    decreases |ticks|
  {
    ticks == [] ||
    (Planned(db, markets, ticks[0].today).coverage == db.coverage
     && StaysInCycle(AfterTick(db, markets, perRun, ticks[0]), markets, perRun, ticks[1..]))
  }

  lemma {:induction false} CycleStaysBefore(db: Db, markets: seq<Market>, perRun: nat, ticks: seq<Tick>)
    requires QueueOk(db.queue) && HasAll(db.queue, markets) && StaysInCycle(db, markets, perRun, ticks)
    ensures StaysBefore(db, markets, perRun, ticks, |db.queue|)
    decreases |ticks|
  {
    if ticks != [] {
      var n := |db.queue|;
      PlanOnlySkips(db, markets, ticks[0].today, n);
      assert StaysBefore(db, markets, perRun, [ticks[0]], n) by {
        assert [ticks[0]][1..] == [];
      }
      TickTakes(db, markets, perRun, ticks[0], n);
      CycleStaysBefore(AfterTick(db, markets, perRun, ticks[0]), markets, perRun, ticks[1..]);
    }
  }

  /**
   However the ticks are clamped or cut off: within one cycle they execute no
   more units than were pending at its start, so every unit executed brings
   its close one nearer.
   */
  lemma {:induction false} CycleCloses(db: Db, markets: seq<Market>, perRun: nat, ticks: seq<Tick>)
    requires QueueOk(db.queue) && HasAll(db.queue, markets) && StaysInCycle(db, markets, perRun, ticks)
    ensures
      var t := AfterTicks(db, markets, perRun, ticks);
      PendingUnits(t.queue) + Executed(db, markets, perRun, ticks) <= PendingUnits(db.queue)
  {
    CycleStaysBefore(db, markets, perRun, ticks);
    TicksTake(db, markets, perRun, ticks, |db.queue|);
    var t := AfterTicks(db, markets, perRun, ticks);
    assert t.queue[..|t.queue|] == t.queue && db.queue[..|db.queue|] == db.queue;
  }

  /** A tick executes something whenever there is anything to book and it lives to execute one unit. */
  lemma BookableGivesUnits(db: Db, markets: seq<Market>, perRun: nat, tick: Tick)
    requires QueueOk(db.queue) && markets != [] && perRun > 0 && SomeBookable(db.queue, tick.today)
    ensures UnitsOfTick(db, markets, perRun, tick) != []
  {
    var p := Planned(db, markets, tick.today);
    PlannedOk(db, markets, tick.today);
    ClaimedUnlessDone(p.queue, p.coverage, perRun);
    ClaimGivesWork(p.queue, Claim(p.queue, p.coverage, perRun, 0), p.coverage);
  }

  lemma {:induction false} ExecuteKeepsDays(q: Queue, units: seq<Unit>, findings: seq<Finding>)
    ensures |Execute(q, units, findings)| == |q|
    ensures forall i :: 0 <= i < |q| ==> Execute(q, units, findings)[i].outbound == q[i].outbound
    decreases |units|
  {
    if units != [] && findings != [] {
      var u := units[0];
      var next := if u.candidate < 0 then q else MarkOne(q, u.candidate, u.market, u.cycle, findings[0]);
      ExecuteKeepsDays(next, units[1..], findings[1..]);
    }
  }

  lemma TickKeepsDays(db: Db, markets: seq<Market>, perRun: nat, tick: Tick, day: int)
    requires QueueOk(db.queue) && markets != [] && SomeBookable(db.queue, day)
    ensures SomeBookable(AfterTick(db, markets, perRun, tick).queue, day)
  {
    var p := Planned(db, markets, tick.today);
    PlannedOk(db, markets, tick.today);
    ExecuteKeepsDays(p.queue, UnitsOf(p.queue, p.coverage, perRun), tick.findings);
    var i :| 0 <= i < |db.queue| && db.queue[i].outbound >= day;
    assert AfterTick(db, markets, perRun, tick).queue[i].outbound >= day;
  }

  /** Every tick finds a departure still bookable, and lives to execute a unit. */
  predicate Works(q: Queue, tick: Tick) {
    tick.findings != [] && SomeBookable(q, tick.today)
  }

  /** The k-th tick is the first to open a cycle, which is the next one. */
  ghost predicate ClosesAt(db: Db, markets: seq<Market>, perRun: nat, ticks: seq<Tick>, k: nat) {
    && k < |ticks| && StaysInCycle(db, markets, perRun, ticks[..k])
    && AfterTicks(db, markets, perRun, ticks[..k + 1]).coverage == db.coverage + 1
  }

  lemma ClosesAtOnce(db: Db, markets: seq<Market>, perRun: nat, ticks: seq<Tick>)
    requires ticks != [] && Planned(db, markets, ticks[0].today).coverage != db.coverage
    ensures ClosesAt(db, markets, perRun, ticks, 0)
  {
    assert ticks[..1][1..] == [];
    assert AfterTicks(db, markets, perRun, ticks[..1]) == AfterTick(db, markets, perRun, ticks[0]);
  }

  lemma ClosesLater(db: Db, markets: seq<Market>, perRun: nat, ticks: seq<Tick>, k: nat)
    requires ticks != [] && Planned(db, markets, ticks[0].today).coverage == db.coverage
    requires ClosesAt(AfterTick(db, markets, perRun, ticks[0]), markets, perRun, ticks[1..], k)
    ensures ClosesAt(db, markets, perRun, ticks, k + 1)
  {
    assert ticks[..k + 1][1..] == ticks[1..][..k] && ticks[..k + 2][1..] == ticks[1..][..k + 1];
  }

  /**
   The cycle does close: while departures are bookable and each tick executes
   at least one unit, one of the first `PendingUnits + 1` ticks opens the next
   cycle.
   */
  lemma {:induction false} CycleEnds(db: Db, markets: seq<Market>, perRun: nat, ticks: seq<Tick>)
    requires QueueOk(db.queue) && HasAll(db.queue, markets) && markets != [] && perRun > 0
    requires forall k :: 0 <= k < |ticks| ==> Works(db.queue, ticks[k])
    requires |ticks| > PendingUnits(db.queue)
    ensures exists k: nat :: k <= PendingUnits(db.queue) && ClosesAt(db, markets, perRun, ticks, k)
    decreases |ticks|
  {
    assert Works(db.queue, ticks[0]);
    if Planned(db, markets, ticks[0].today).coverage != db.coverage {
      ClosesAtOnce(db, markets, perRun, ticks);
    } else {
      var n, t, rest := |db.queue|, AfterTick(db, markets, perRun, ticks[0]), ticks[1..];
      BookableGivesUnits(db, markets, perRun, ticks[0]);
      CycleStaysBefore(db, markets, perRun, [ticks[0]]);
      TickTakes(db, markets, perRun, ticks[0], n);
      assert db.queue[..n] == db.queue && t.queue[..n] == t.queue;
      forall k | 0 <= k < |rest| ensures Works(t.queue, rest[k]) {
        assert Works(db.queue, ticks[k + 1]);
        TickKeepsDays(db, markets, perRun, ticks[0], rest[k].today);
      }
      CycleEnds(t, markets, perRun, rest);
      var k: nat :| k <= PendingUnits(t.queue) && ClosesAt(t, markets, perRun, rest, k);
      ClosesLater(db, markets, perRun, ticks, k);
    }
  }

  /** At every plan the i-th candidate is due, and the claim passes it by. */
  ghost predicate Waits(db: Db, markets: seq<Market>, perRun: nat, ticks: seq<Tick>, i: nat)
    decreases |ticks|
  {
    ticks == [] ||
    (var p := Planned(db, markets, ticks[0].today);
     && p.coverage == db.coverage && i < |p.queue| && IsClaimable(p.queue[i], p.coverage)
     && i !in Claim(p.queue, p.coverage, perRun, 0)
     && Waits(AfterTick(db, markets, perRun, ticks[0]), markets, perRun, ticks[1..], i))
  }

  lemma {:induction false} WaitingStaysBefore(db: Db, markets: seq<Market>, perRun: nat, ticks: seq<Tick>, i: nat)
    requires Waits(db, markets, perRun, ticks, i)
    ensures StaysBefore(db, markets, perRun, ticks, i)
    decreases |ticks|
  {
    if ticks != [] {
      var p := Planned(db, markets, ticks[0].today);
      ClaimTakesTheFront(p.queue, p.coverage, perRun, 0, i);
      WaitingStaysBefore(AfterTick(db, markets, perRun, ticks[0]), markets, perRun, ticks[1..], i);
    }
  }

  /** A due candidate waits only for the work before it: once that many units were executed, a plan claims it. */
  lemma {:induction false} NobodyWaitsLonger(db: Db, markets: seq<Market>, perRun: nat, ticks: seq<Tick>, i: nat)
    requires QueueOk(db.queue) && HasAll(db.queue, markets) && i < |db.queue| && Waits(db, markets, perRun, ticks, i)
    ensures Executed(db, markets, perRun, ticks) <= Ahead(db.queue, i)
  {
    WaitingStaysBefore(db, markets, perRun, ticks, i);
    TicksTake(db, markets, perRun, ticks, i);
  }

  /** Any plan leaves every candidate with a row for every market, so the bounds hold from the first plan on. */
  lemma PlanHasAll(db: Db, markets: seq<Market>, today: int)
    requires QueueOk(db.queue) && markets != []
    ensures HasAll(Planned(db, markets, today).queue, markets) && QueueOk(Planned(db, markets, today).queue)
  {
    PlannedOk(db, markets, today);
    var q := db.queue;
    var p := Planned(db, markets, today).queue;
    forall k, m | 0 <= k < |p| && m in markets ensures HasMarket(p[k].rows, m) {
      var c := WithMarkets(q[k], markets);
      MarketsAdded(q[k], markets, m);
      var j :| 0 <= j < |c.rows| && c.rows[j].market == m;
      assert Prepared(q, markets, today)[k].rows[j].market == m;
      assert p[k].rows[j].market == m;
    }
  }
}
