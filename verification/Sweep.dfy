/**
 The two-level queue behind a flexible-window sweep: one row per date pair,
 one row per (date pair, market), and a coverage cycle per tracker.

 Candidates are listed in order_index order and named by that position; each
 carries its own market rows.  Dates are epoch days.
 */
module Sweep {
  import opened Prelude

  type Market = string

  datatype Status = Pending | Checked | Failed

  datatype MarketRow = MarketRow(market: Market, cycle: int, status: Status, price: Option<int>)

  datatype Candidate = Candidate(outbound: int, cycle: int, status: Status, price: Option<int>, rows: seq<MarketRow>)

  type Queue = seq<Candidate>

  // ------------------------------------------- the statements, row by row

  predicate HasMarket(rows: seq<MarketRow>, market: Market) {
    exists j :: 0 <= j < |rows| && rows[j].market == market
  }

  /** INSERT OR IGNORE one row per missing market, copying the parent's cycle and status. */
  function WithMarkets(c: Candidate, markets: seq<Market>): Candidate
    decreases |markets|
  {
    if markets == [] then c
    else if HasMarket(c.rows, markets[0]) then WithMarkets(c, markets[1..])
    else WithMarkets(c.(rows := c.rows + [MarketRow(markets[0], c.cycle, c.status, None)]), markets[1..])
  }

  function Retired(status: Status): Status {
    if status.Pending? then Checked else status
  }

  function MapRows(rows: seq<MarketRow>, f: MarketRow -> MarketRow): (mapped: seq<MarketRow>)
    ensures |mapped| == |rows| && forall j :: 0 <= j < |rows| ==> mapped[j] == f(rows[j])
  {
    seq(|rows|, j requires 0 <= j < |rows| => f(rows[j]))
  }

  function Skipped(c: Candidate, today: int): Candidate {
    if c.outbound < today
    then c.(status := Retired(c.status), rows := MapRows(c.rows, (r: MarketRow) => r.(status := Retired(r.status))))
    else c
  }

  function Restarted(c: Candidate, cycle: int, today: int): Candidate {
    if c.outbound >= today
    then c.(cycle := cycle, status := Pending,
      rows := MapRows(c.rows, (r: MarketRow) => r.(cycle := cycle, status := Pending)))
    else c
  }

  predicate AnyRow(rows: seq<MarketRow>, cycle: int, status: Status) {
    exists j :: 0 <= j < |rows| && rows[j].cycle == cycle && rows[j].status == status
  }

  /** MIN(last_price_cents) over the checked rows of a cycle. */
  function LowestChecked(rows: seq<MarketRow>, cycle: int): Option<int> {
    if rows == [] then None
    else
      var rest := LowestChecked(rows[1..], cycle);
      if rows[0].cycle == cycle && rows[0].status.Checked? && rows[0].price.Some?
      then Some(if rest.Some? then Min(rows[0].price.value, rest.value) else rows[0].price.value)
      else rest
  }

  function Aggregate(rows: seq<MarketRow>, cycle: int): Status {
    if AnyRow(rows, cycle, Pending) then Pending
    else if AnyRow(rows, cycle, Checked) then Checked
    else Failed
  }

  /** What one executed unit reports: failed, or checked with an optional fare. */
  datatype Finding = FailedSearch | CheckedSearch(price: Option<int>)

  function Done(f: Finding): Status {
    if f.FailedSearch? then Failed else Checked
  }

  function Fare(f: Finding): Option<int> {
    if f.FailedSearch? then None else f.price
  }

  function MarkRow(market: Market, cycle: int, f: Finding): MarketRow -> MarketRow {
    (r: MarketRow) => if r.market == market && r.cycle == cycle then r.(status := Done(f), price := Fare(f)) else r
  }

  /** markCandidateMarketChecked: the market row of that cycle, then the parent of that cycle. */
  function Marked(c: Candidate, market: Market, cycle: int, f: Finding): Candidate {
    var rows := MapRows(c.rows, MarkRow(market, cycle, f));
    if c.cycle == cycle
    then c.(rows := rows, status := Aggregate(rows, cycle), price := LowestChecked(rows, cycle))
    else c.(rows := rows)
  }

  function MapQueue(q: Queue, f: Candidate -> Candidate): (mapped: Queue)
    ensures |mapped| == |q| && forall i :: 0 <= i < |q| ==> mapped[i] == f(q[i])
  {
    seq(|q|, i requires 0 <= i < |q| => f(q[i]))
  }

  function EnsureAll(q: Queue, markets: seq<Market>): Queue {
    MapQueue(q, c => WithMarkets(c, markets))
  }

  function SkipAll(q: Queue, today: int): Queue {
    MapQueue(q, c => Skipped(c, today))
  }

  function RestartAll(q: Queue, cycle: int, today: int): Queue {
    MapQueue(q, c => Restarted(c, cycle, today))
  }

  function MarkOne(q: Queue, i: nat, market: Market, cycle: int, f: Finding): Queue {
    if i < |q| then q[i := Marked(q[i], market, cycle, f)] else q
  }

  predicate IsClaimable(c: Candidate, cycle: int) {
    c.cycle == cycle && c.status.Pending?
  }

  // ------------------------------------------------------------- invariant

  predicate RowsFollow(c: Candidate) {
    forall j :: 0 <= j < |c.rows| ==> c.rows[j].cycle == c.cycle
  }

  predicate NamesDiffer(rows: seq<MarketRow>) {
    forall j, k :: 0 <= j < k < |rows| ==> rows[j].market != rows[k].market
  }

  /** Every market row carries its parent's cycle; the parent is pending exactly while a market is. */
  predicate CandidateOk(c: Candidate) {
    && NamesDiffer(c.rows)
    && RowsFollow(c)
    && (c.rows != [] ==> (c.status.Pending? <==> AnyRow(c.rows, c.cycle, Pending)))
  }

  predicate QueueOk(q: Queue) {
    forall i :: 0 <= i < |q| ==> CandidateOk(q[i])
  }

  lemma {:induction false} WithMarketsOk(c: Candidate, markets: seq<Market>)
    requires CandidateOk(c)
    ensures
      var d := WithMarkets(c, markets);
      && CandidateOk(d) && d.outbound == c.outbound && d.cycle == c.cycle && d.status == c.status
      && c.rows <= d.rows && (markets != [] ==> d.rows != [])
    decreases |markets|
  {
    if markets != [] {
      if !HasMarket(c.rows, markets[0]) {
        var row := MarketRow(markets[0], c.cycle, c.status, None);
        var d := c.(rows := c.rows + [row]);
        assert d.rows[|c.rows|] == row;
        assert forall j :: 0 <= j < |c.rows| ==> d.rows[j] == c.rows[j];
        WithMarketsOk(d, markets[1..]);
      } else {
        WithMarketsOk(c, markets[1..]);
      }
    }
  }

  lemma SkippedOk(c: Candidate, today: int)
    requires CandidateOk(c)
    ensures CandidateOk(Skipped(c, today))
  {
  }

  lemma RestartedOk(c: Candidate, cycle: int, today: int)
    requires CandidateOk(c)
    ensures CandidateOk(Restarted(c, cycle, today))
  {
    var d := Restarted(c, cycle, today);
    if c.outbound >= today && c.rows != [] {
      assert d.rows[0].cycle == cycle && d.rows[0].status.Pending?;
    }
  }

  lemma MarkedOk(c: Candidate, market: Market, cycle: int, f: Finding)
    requires CandidateOk(c)
    ensures CandidateOk(Marked(c, market, cycle, f))
  {
    var d := Marked(c, market, cycle, f);
    if c.cycle != cycle {
      assert d.rows == c.rows;
    }
  }

  // ------------------------------------------- what the parent says of its markets

  /** Pending while a market is, else checked as soon as one market is checked, and failed only if all failed. */
  predicate TellsOfMarkets(c: Candidate) {
    if exists j :: 0 <= j < |c.rows| && c.rows[j].status == Pending then c.status == Pending
    else if exists j :: 0 <= j < |c.rows| && c.rows[j].status == Checked then c.status == Checked
    else c.status == Failed
  }

  /** A candidate without market rows yet has nothing to tell. */
  predicate ParentTells(c: Candidate) {
    c.rows != [] ==> TellsOfMarkets(c)
  }

  predicate ParentsTell(q: Queue) {
    forall i :: 0 <= i < |q| ==> ParentTells(q[i])
  }

  lemma {:induction false} WithMarketsTells(c: Candidate, markets: seq<Market>)
    requires ParentTells(c)
    ensures ParentTells(WithMarkets(c, markets))
    decreases |markets|
  {
    if markets != [] {
      if HasMarket(c.rows, markets[0]) {
        WithMarketsTells(c, markets[1..]);
      } else {
        var d := c.(rows := c.rows + [MarketRow(markets[0], c.cycle, c.status, None)]);
        assert d.rows[|c.rows|].status == c.status;
        assert forall j :: 0 <= j < |c.rows| ==> d.rows[j] == c.rows[j];
        WithMarketsTells(d, markets[1..]);
      }
    }
  }

  lemma SkippedTells(c: Candidate, today: int)
    requires ParentTells(c)
    ensures ParentTells(Skipped(c, today))
  {
    var d := Skipped(c, today);
    if c.outbound < today && c.rows != [] {
      assert forall j :: 0 <= j < |c.rows| ==> d.rows[j].status == Retired(c.rows[j].status);
      if c.status == Pending {
        var j :| 0 <= j < |c.rows| && c.rows[j].status == Pending;
        assert d.rows[j].status == Checked;
      } else if c.status == Checked {
        var j :| 0 <= j < |c.rows| && c.rows[j].status == Checked;
        assert d.rows[j].status == Checked;
      }
    }
  }

  lemma RestartedTells(c: Candidate, cycle: int, today: int)
    requires ParentTells(c)
    ensures ParentTells(Restarted(c, cycle, today))
  {
    var d := Restarted(c, cycle, today);
    if c.outbound >= today && c.rows != [] {
      assert d.rows[0].status == Pending;
    }
  }

  lemma MarkedTells(c: Candidate, market: Market, cycle: int, f: Finding)
    requires CandidateOk(c) && ParentTells(c)
    ensures ParentTells(Marked(c, market, cycle, f))
  {
    var d := Marked(c, market, cycle, f);
    if c.cycle != cycle {
      assert d.rows == c.rows;
    } else {
      assert forall j :: 0 <= j < |d.rows| ==> d.rows[j].cycle == cycle;
    }
  }

  /** The row of a finding: checked with its fare, or failed without one; any other row as it was. */
  predicate RowFound(before: MarketRow, after: MarketRow, market: Market, cycle: int, f: Finding) {
    if before.market == market && before.cycle == cycle
    then after == match f
                  case CheckedSearch(price) => MarketRow(market, cycle, Checked, price)
                  case FailedSearch => MarketRow(market, cycle, Failed, None)
    else after == before
  }

  /** The lowest fare of the checked markets, if any of them has one. */
  predicate IsLowestFare(rows: seq<MarketRow>, price: Option<int>) {
    && (price.Some? ==> exists j :: 0 <= j < |rows| && rows[j].status == Checked && rows[j].price == price)
    && forall j :: 0 <= j < |rows| && rows[j].status == Checked && rows[j].price.Some? ==>
         price.Some? && price.value <= rows[j].price.value
  }

  /** What a finding makes of a candidate of its cycle. */
  predicate CandidateFound(before: Candidate, after: Candidate, market: Market, cycle: int, f: Finding) {
    && after.outbound == before.outbound && after.cycle == before.cycle && |after.rows| == |before.rows|
    && (forall j :: 0 <= j < |before.rows| ==> RowFound(before.rows[j], after.rows[j], market, cycle, f))
    && TellsOfMarkets(after) && IsLowestFare(after.rows, after.price)
  }

  lemma MarkedFound(c: Candidate, market: Market, cycle: int, f: Finding)
    requires CandidateOk(c) && c.cycle == cycle
    ensures CandidateFound(c, Marked(c, market, cycle, f), market, cycle, f)
  {
    var d := Marked(c, market, cycle, f);
    forall j | 0 <= j < |c.rows| ensures RowFound(c.rows[j], d.rows[j], market, cycle, f) && d.rows[j].cycle == cycle {
    }
    LowestIsFound(d.rows, cycle);
    forall j | 0 <= j < |d.rows| && d.rows[j].status == Checked && d.rows[j].price.Some?
      ensures d.price.Some? && d.price.value <= d.rows[j].price.value
    {
      LowestIsLowest(d.rows, cycle, j);
    }
  }

  // ------------------------------------------------- any interleaving at all

  datatype Event =
    | EnsureMarkets(markets: seq<Market>)
    | SkipPast(today: int)
    | StartCycle(cycle: int, today: int)
    | MarkChecked(i: nat, market: Market, cycle: int, finding: Finding)

  function Apply(q: Queue, e: Event): Queue {
    match e
    case EnsureMarkets(markets) => EnsureAll(q, markets)
    case SkipPast(today) => SkipAll(q, today)
    case StartCycle(cycle, today) => RestartAll(q, cycle, today)
    case MarkChecked(i, market, cycle, finding) => MarkOne(q, i, market, cycle, finding)
  }

  function Run(q: Queue, es: seq<Event>): Queue
    decreases |es|
  {
    if es == [] then q else Run(Apply(q, es[0]), es[1..])
  }

  lemma StepKeepsQueue(q: Queue, e: Event)
    requires QueueOk(q)
    ensures QueueOk(Apply(q, e))
  {
    forall i | 0 <= i < |q| ensures CandidateOk(Apply(q, e)[i]) {
      match e
      case EnsureMarkets(markets) => WithMarketsOk(q[i], markets);
      case SkipPast(today) => SkippedOk(q[i], today);
      case StartCycle(cycle, today) => RestartedOk(q[i], cycle, today);
      case MarkChecked(k, market, cycle, finding) =>
        if i == k {
          MarkedOk(q[i], market, cycle, finding);
        }
    }
  }

  /** The two levels agree after any statements in any order, late or repeated ones included. */
  lemma {:induction false} LevelsAlwaysAgree(q: Queue, es: seq<Event>)
    requires QueueOk(q)
    ensures QueueOk(Run(q, es))
    decreases |es|
  {
    if es != [] {
      StepKeepsQueue(q, es[0]);
      LevelsAlwaysAgree(Apply(q, es[0]), es[1..]);
    }
  }

  lemma StepKeepsTelling(q: Queue, e: Event)
    requires QueueOk(q) && ParentsTell(q)
    ensures ParentsTell(Apply(q, e))
  {
    forall i | 0 <= i < |q| ensures ParentTells(Apply(q, e)[i]) {
      match e
      case EnsureMarkets(markets) => WithMarketsTells(q[i], markets);
      case SkipPast(today) => SkippedTells(q[i], today);
      case StartCycle(cycle, today) => RestartedTells(q[i], cycle, today);
      case MarkChecked(k, market, cycle, finding) =>
        if i == k {
          MarkedTells(q[i], market, cycle, finding);
        }
    }
  }

  /** After any statements in any order, a candidate is checked as soon as no market is pending and one is checked. */
  lemma {:induction false} ParentsAlwaysTell(q: Queue, es: seq<Event>)
    requires QueueOk(q) && ParentsTell(q)
    ensures ParentsTell(Run(q, es))
    decreases |es|
  {
    if es != [] {
      StepKeepsQueue(q, es[0]);
      StepKeepsTelling(q, es[0]);
      ParentsAlwaysTell(Apply(q, es[0]), es[1..]);
    }
  }

  /** A mark left over from another cycle changes nothing. */
  lemma LateMarkChangesNothing(q: Queue, i: nat, market: Market, cycle: int, f: Finding)
    requires QueueOk(q) && i < |q| && q[i].cycle != cycle
    ensures MarkOne(q, i, market, cycle, f) == q
  {
    assert Marked(q[i], market, cycle, f).rows == q[i].rows;
  }

  /** The parent's fare is the lowest fare found by any checked market of its cycle. */
  lemma {:induction false} LowestIsLowest(rows: seq<MarketRow>, cycle: int, j: nat)
    requires j < |rows| && rows[j].cycle == cycle && rows[j].status.Checked? && rows[j].price.Some?
    ensures LowestChecked(rows, cycle).Some? && LowestChecked(rows, cycle).value <= rows[j].price.value
    ensures exists k ::
      0 <= k < |rows| && rows[k].cycle == cycle && rows[k].status.Checked?
        && rows[k].price == LowestChecked(rows, cycle)
  {
    LowestIsFound(rows, cycle);
    if j > 0 {
      LowestIsLowest(rows[1..], cycle, j - 1);
    }
  }

  lemma {:induction false} LowestIsFound(rows: seq<MarketRow>, cycle: int)
    ensures LowestChecked(rows, cycle).Some? ==>
      exists k :: 0 <= k < |rows| && rows[k].cycle == cycle && rows[k].status.Checked?
        && rows[k].price == LowestChecked(rows, cycle)
  {
    if rows != [] && LowestChecked(rows, cycle).Some? {
      if LowestChecked(rows, cycle) == LowestChecked(rows[1..], cycle) {
        LowestIsFound(rows[1..], cycle);
        var k :| 0 <= k < |rows[1..]| && rows[1..][k].cycle == cycle && rows[1..][k].status.Checked?
          && rows[1..][k].price == LowestChecked(rows[1..], cycle);
        assert rows[k + 1] == rows[1..][k];
      } else {
        assert rows[0].price == LowestChecked(rows, cycle);
      }
    }
  }

  // ---------------------------------------------------------------- progress

  function PendingRows(rows: seq<MarketRow>): nat {
    if rows == [] then 0 else (if rows[0].status.Pending? then 1 else 0) + PendingRows(rows[1..])
  }

  /** Units of work left in the whole queue. */
  function PendingUnits(q: Queue): nat {
    if q == [] then 0 else PendingRows(q[0].rows) + PendingUnits(q[1..])
  }

  lemma {:induction false} NoRowPendingIff(rows: seq<MarketRow>)
    ensures PendingRows(rows) == 0 <==> forall j :: 0 <= j < |rows| ==> rows[j].status != Pending
  {
    if rows != [] {
      NoRowPendingIff(rows[1..]);
      assert forall j :: 1 <= j < |rows| ==> rows[j] == rows[1..][j - 1];
    }
  }

  /** No work is left exactly when no market row is pending. */
  lemma {:induction false} NothingPendingIff(q: Queue)
    ensures PendingUnits(q) == 0 <==>
      forall i, j :: 0 <= i < |q| && 0 <= j < |q[i].rows| ==> q[i].rows[j].status != Pending
  {
    if q != [] {
      NoRowPendingIff(q[0].rows);
      NothingPendingIff(q[1..]);
      assert forall i :: 1 <= i < |q| ==> q[i] == q[1..][i - 1];
    }
  }

  predicate IsPendingFor(r: MarketRow, market: Market, cycle: int) {
    r.market == market && r.cycle == cycle && r.status.Pending?
  }

  predicate HasPending(rows: seq<MarketRow>, market: Market, cycle: int) {
    exists j :: 0 <= j < |rows| && IsPendingFor(rows[j], market, cycle)
  }

  predicate IsWork(q: Queue, i: int, market: Market, cycle: int) {
    0 <= i < |q| && HasPending(q[i].rows, market, cycle)
  }

  lemma PendingInTail(rows: seq<MarketRow>, market: Market, cycle: int)
    requires rows != []
    ensures HasPending(rows, market, cycle) <==>
      IsPendingFor(rows[0], market, cycle) || HasPending(rows[1..], market, cycle)
  {
    if j :| 0 <= j < |rows| && IsPendingFor(rows[j], market, cycle) {
      if j > 0 {
        assert rows[1..][j - 1] == rows[j];
      }
    }
    if j :| 0 <= j < |rows[1..]| && IsPendingFor(rows[1..][j], market, cycle) {
      assert rows[j + 1] == rows[1..][j];
    }
  }

  lemma {:induction false} MarkedRows(rows: seq<MarketRow>, market: Market, cycle: int, f: Finding)
    requires NamesDiffer(rows)
    ensures
      PendingRows(MapRows(rows, MarkRow(market, cycle, f)))
      == PendingRows(rows) - if HasPending(rows, market, cycle) then 1 else 0
  {
    if rows != [] {
      var g := MarkRow(market, cycle, f);
      MarkedRows(rows[1..], market, cycle, f);
      PendingInTail(rows, market, cycle);
      assert MapRows(rows, g)[1..] == MapRows(rows[1..], g);
      assert rows[0].market == market ==> !HasPending(rows[1..], market, cycle);
    }
  }

  lemma {:induction false} PendingUnitsUpdate(q: Queue, i: nat, c: Candidate)
    requires i < |q|
    ensures PendingUnits(q[i := c]) == PendingUnits(q) - PendingRows(q[i].rows) + PendingRows(c.rows)
  {
    if i == 0 {
      assert q[0 := c][1..] == q[1..];
    } else {
      PendingUnitsUpdate(q[1..], i - 1, c);
      assert q[i := c][1..] == q[1..][i - 1 := c];
    }
  }

  /** An executed unit takes exactly one unit off the work left; any other mark takes none. */
  lemma {:induction false} MarkTakesOne(q: Queue, i: nat, market: Market, cycle: int, f: Finding)
    requires QueueOk(q) && i < |q|
    ensures
      PendingUnits(MarkOne(q, i, market, cycle, f))
      == PendingUnits(q) - if IsWork(q, i, market, cycle) then 1 else 0
  {
    MarkedRows(q[i].rows, market, cycle, f);
    PendingUnitsUpdate(q, i, Marked(q[i], market, cycle, f));
  }

  lemma MarkTakesRow(rows: seq<MarketRow>, market: Market, cycle: int, f: Finding, m: Market)
    ensures
      HasPending(MapRows(rows, MarkRow(market, cycle, f)), m, cycle) <==> HasPending(rows, m, cycle) && m != market
  {
    var after := MapRows(rows, MarkRow(market, cycle, f));
    if j :| 0 <= j < |after| && IsPendingFor(after[j], m, cycle) {
      assert IsPendingFor(rows[j], m, cycle);
    }
    if j :| 0 <= j < |rows| && IsPendingFor(rows[j], m, cycle) {
      if m != market {
        assert IsPendingFor(after[j], m, cycle);
      }
    }
  }

  /** Of the work of its cycle, a mark takes the row it names and no other. */
  lemma MarkTakesOnly(q: Queue, i: nat, market: Market, cycle: int, f: Finding, k: int, m: Market)
    requires i < |q|
    ensures IsWork(MarkOne(q, i, market, cycle, f), k, m, cycle) <==> IsWork(q, k, m, cycle) && !(k == i && m == market)
  {
    MarkTakesRow(q[i].rows, market, cycle, f, m);
  }

  // ---------------------------------------------------------------- planning

  datatype Unit = Unit(candidate: int, market: Market, cycle: int)

  /** The next `limit` claimable candidates from position `from` on. */
  function Claim(q: Queue, cycle: int, limit: nat, from: nat): (claimed: seq<int>)
    requires from <= |q|
    ensures |claimed| <= limit
    ensures forall k :: 0 <= k < |claimed| ==> from <= claimed[k] < |q| && IsClaimable(q[claimed[k]], cycle)
    ensures claimed == [] && limit > 0 ==> forall i :: from <= i < |q| ==> !IsClaimable(q[i], cycle)
    decreases |q| - from
  {
    if from == |q| || limit == 0 then []
    else if IsClaimable(q[from], cycle) then [from] + Claim(q, cycle, limit - 1, from + 1)
    else Claim(q, cycle, limit, from + 1)
  }

  /** Nothing claimed later in the queue is skipped over: the claim is the front of the queue. */
  lemma {:induction false} ClaimTakesTheFront(q: Queue, cycle: int, limit: nat, from: nat, i: int)
    requires from <= i < |q| && IsClaimable(q[i], cycle)
    ensures var claimed := Claim(q, cycle, limit, from);
      i in claimed || (|claimed| == limit && forall k :: k in claimed ==> k < i)
    decreases |q| - from
  {
    if limit > 0 && from < i {
      ClaimTakesTheFront(q, cycle, if IsClaimable(q[from], cycle) then limit - 1 else limit, from + 1, i);
    }
  }

  function PendingMarkets(rows: seq<MarketRow>, candidate: int, cycle: int): (units: seq<Unit>)
    ensures forall u :: u in units ==> u.candidate == candidate && u.cycle == cycle
    ensures forall u :: u in units ==> HasPending(rows, u.market, cycle)
    ensures forall m :: HasPending(rows, m, cycle) ==> Unit(candidate, m, cycle) in units
  {
    if rows == [] then []
    else
      assert forall m :: HasPending(rows, m, cycle) <==>
        IsPendingFor(rows[0], m, cycle) || HasPending(rows[1..], m, cycle) by {
        forall m
          ensures HasPending(rows, m, cycle) <==> IsPendingFor(rows[0], m, cycle) || HasPending(rows[1..], m, cycle)
        {
          PendingInTail(rows, m, cycle);
        }
      }
      (if rows[0].cycle == cycle && rows[0].status.Pending? then [Unit(candidate, rows[0].market, cycle)] else [])
      + PendingMarkets(rows[1..], candidate, cycle)
  }

  /** The units of the claimed candidates, in the order of the claim. */
  function UnitsFrom(q: Queue, claimed: seq<int>, cycle: int): seq<Unit>
    requires forall k :: 0 <= k < |claimed| ==> 0 <= claimed[k] < |q|
  {
    if claimed == [] then []
    else
      var n := |claimed| - 1;
      UnitsFrom(q, claimed[..n], cycle) + PendingMarkets(q[claimed[n]].rows, claimed[n], cycle)
  }

  function UnitsOf(q: Queue, cycle: int, perRun: nat): seq<Unit> {
    UnitsFrom(q, Claim(q, cycle, perRun, 0), cycle)
  }

  ghost predicate Distinct(units: seq<Unit>) {
    forall a, b :: 0 <= a < b < |units| ==> units[a] != units[b]
  }

  ghost predicate Ascending(s: seq<int>) {
    forall a, b :: 0 <= a < b < |s| ==> s[a] < s[b]
  }

  lemma {:induction false} ClaimIsAscending(q: Queue, cycle: int, limit: nat, from: nat)
    requires from <= |q|
    ensures Ascending(Claim(q, cycle, limit, from))
    decreases |q| - from
  {
    if from < |q| && limit > 0 {
      ClaimIsAscending(q, cycle, if IsClaimable(q[from], cycle) then limit - 1 else limit, from + 1);
    }
  }

  lemma {:induction false} PendingMarketsDistinct(rows: seq<MarketRow>, candidate: int, cycle: int)
    requires NamesDiffer(rows)
    ensures Distinct(PendingMarkets(rows, candidate, cycle))
  {
    if rows != [] {
      PendingMarketsDistinct(rows[1..], candidate, cycle);
      var more := PendingMarkets(rows[1..], candidate, cycle);
      forall a | 0 <= a < |more| ensures more[a].market != rows[0].market {
        assert more[a] in more;
        var j :| 0 <= j < |rows[1..]| && IsPendingFor(rows[1..][j], more[a].market, cycle);
        assert rows[j + 1] == rows[1..][j];
      }
    }
  }

  lemma {:induction false} UnitsAreOfClaim(q: Queue, claimed: seq<int>, cycle: int)
    requires forall k :: 0 <= k < |claimed| ==> 0 <= claimed[k] < |q|
    ensures forall u :: u in UnitsFrom(q, claimed, cycle) ==>
      u.candidate in claimed && u.cycle == cycle && IsWork(q, u.candidate, u.market, cycle)
  {
    if claimed != [] {
      var n := |claimed| - 1;
      UnitsAreOfClaim(q, claimed[..n], cycle);
    }
  }

  /** No unit comes out twice. */
  lemma {:induction false} UnitsAreDistinct(q: Queue, claimed: seq<int>, cycle: int)
    requires QueueOk(q) && Ascending(claimed) && forall k :: 0 <= k < |claimed| ==> 0 <= claimed[k] < |q|
    ensures Distinct(UnitsFrom(q, claimed, cycle))
  {
    if claimed != [] {
      var n := |claimed| - 1;
      var init, last := UnitsFrom(q, claimed[..n], cycle), PendingMarkets(q[claimed[n]].rows, claimed[n], cycle);
      UnitsAreDistinct(q, claimed[..n], cycle);
      UnitsAreOfClaim(q, claimed[..n], cycle);
      PendingMarketsDistinct(q[claimed[n]].rows, claimed[n], cycle);
      forall a, b | 0 <= a < |init| && 0 <= b < |last| ensures init[a] != last[b] {
        assert init[a] in init && last[b] in last;
        assert init[a].candidate in claimed[..n];
      }
    }
  }

  predicate SomeBookable(q: Queue, today: int) {
    exists i :: 0 <= i < |q| && q[i].outbound >= today
  }

  predicate AllDone(q: Queue, cycle: int) {
    forall i :: 0 <= i < |q| ==> !IsClaimable(q[i], cycle)
  }

  /** A tracker's queue with the cycle its row records. */
  datatype Db = Db(queue: Queue, coverage: int)

  function Prepared(q: Queue, markets: seq<Market>, today: int): Queue {
    SkipAll(EnsureAll(q, markets), today)
  }

  /** The rows and the cycle an uninterrupted plan leaves behind. */
  function Planned(db: Db, markets: seq<Market>, today: int): Db {
    var q := Prepared(db.queue, markets, today);
    if AllDone(q, db.coverage) then Db(RestartAll(q, db.coverage + 1, today), db.coverage + 1)
    else Db(q, db.coverage)
  }

  lemma PreparedOk(q: Queue, markets: seq<Market>, today: int)
    requires QueueOk(q) && markets != []
    ensures QueueOk(Prepared(q, markets, today))
    ensures forall i :: 0 <= i < |q| ==>
      var c := Prepared(q, markets, today)[i];
      c.rows != [] && c.outbound == q[i].outbound && c.cycle == q[i].cycle
        && (c.status.Pending? ==> c.outbound >= today)
  {
    forall i | 0 <= i < |q|
      ensures
        var c := Prepared(q, markets, today)[i];
        && CandidateOk(c) && c.rows != [] && c.outbound == q[i].outbound && c.cycle == q[i].cycle
        && (c.status.Pending? ==> c.outbound >= today)
    {
      WithMarketsOk(q[i], markets);
      SkippedOk(WithMarkets(q[i], markets), today);
    }
  }

  lemma NewCycleOk(q: Queue, cycle: int, today: int)
    requires QueueOk(q) && forall i :: 0 <= i < |q| ==>
      q[i].rows != [] && (q[i].status.Pending? ==> q[i].outbound >= today)
    ensures
      var t := RestartAll(q, cycle, today);
      QueueOk(t) && forall i :: 0 <= i < |q| ==>
        && t[i].rows != [] && t[i].outbound == q[i].outbound && (t[i].status.Pending? ==> t[i].outbound >= today)
        && (q[i].outbound >= today ==> IsClaimable(t[i], cycle))
  {
    StepKeepsQueue(q, StartCycle(cycle, today));
  }

  /** The queue a plan works from is sound, and idle only if every departure is past. */
  lemma PlannedOk(db: Db, markets: seq<Market>, today: int)
    requires QueueOk(db.queue) && markets != []
    ensures
      var t := Planned(db, markets, today);
      && QueueOk(t.queue) && |t.queue| == |db.queue|
      && (forall i :: 0 <= i < |t.queue| ==> t.queue[i].rows != [] && t.queue[i].outbound == db.queue[i].outbound)
      && (forall i :: 0 <= i < |t.queue| && t.queue[i].status.Pending? ==> t.queue[i].outbound >= today)
      && (SomeBookable(db.queue, today) <==> !AllDone(t.queue, t.coverage))
  {
    var q := Prepared(db.queue, markets, today);
    PreparedOk(db.queue, markets, today);
    if AllDone(q, db.coverage) {
      NewCycleOk(q, db.coverage + 1, today);
      if i :| 0 <= i < |q| && db.queue[i].outbound >= today {
        assert IsClaimable(RestartAll(q, db.coverage + 1, today)[i], db.coverage + 1);
      }
    } else {
      var i :| 0 <= i < |q| && IsClaimable(q[i], db.coverage);
      assert db.queue[i].outbound >= today;
    }
  }

  // ------------------------------------------------ a plan, row by row

  /** Where the cycle was opened, everything still bookable starts anew; a pending row that is past is retired. */
  predicate IsOpened(c: Candidate, today: int, anew: bool) {
    anew && today <= c.outbound
  }

  function StatusPlanned(status: Status, c: Candidate, today: int, anew: bool): Status {
    if IsOpened(c, today, anew) then Pending
    else if status == Pending && c.outbound < today then Checked
    else status
  }

  /** The row a plan makes of a row that was there: market and fare stay. */
  predicate RowPlanned(before: MarketRow, after: MarketRow, c: Candidate, today: int, anew: bool, cycle: int) {
    after == MarketRow(
      before.market, if IsOpened(c, today, anew) then cycle else before.cycle,
      StatusPlanned(before.status, c, today, anew), before.price)
  }

  /** The candidate a plan makes: its rows in their order, then one without a fare for each market that had none. */
  predicate CandidatePlanned(
    before: Candidate, after: Candidate, markets: seq<Market>, today: int, anew: bool, cycle: int)
  {
    && after.outbound == before.outbound && after.price == before.price
    && after.cycle == (if IsOpened(before, today, anew) then cycle else before.cycle)
    && after.status == StatusPlanned(before.status, before, today, anew)
    && |before.rows| <= |after.rows|
    && (forall j :: 0 <= j < |before.rows| ==> RowPlanned(before.rows[j], after.rows[j], before, today, anew, cycle))
    && (forall j :: |before.rows| <= j < |after.rows| ==>
          && after.rows[j].market in markets && !HasMarket(before.rows, after.rows[j].market)
          && after.rows[j] == MarketRow(after.rows[j].market, after.cycle, after.status, None))
    && forall m :: m in markets ==> HasMarket(after.rows, m)
  }

  lemma {:induction false} WithMarketsAdds(c: Candidate, markets: seq<Market>)
    ensures
      var d := WithMarkets(c, markets);
      && d == c.(rows := d.rows) && c.rows <= d.rows
      && (forall j :: |c.rows| <= j < |d.rows| ==>
            && d.rows[j].market in markets && !HasMarket(c.rows, d.rows[j].market)
            && d.rows[j] == MarketRow(d.rows[j].market, c.cycle, c.status, None))
      && forall m :: m in markets ==> HasMarket(d.rows, m)
    decreases |markets|
  {
    if markets != [] {
      if HasMarket(c.rows, markets[0]) {
        WithMarketsAdds(c, markets[1..]);
      } else {
        var e := c.(rows := c.rows + [MarketRow(markets[0], c.cycle, c.status, None)]);
        assert e.rows[|c.rows|].market == markets[0];
        assert forall j :: 0 <= j < |c.rows| ==> e.rows[j] == c.rows[j];
        WithMarketsAdds(e, markets[1..]);
        var d := WithMarkets(e, markets[1..]);
        assert d.rows[|c.rows|] == e.rows[|c.rows|];
        forall m | HasMarket(c.rows, m) ensures HasMarket(e.rows, m) {
          var j :| 0 <= j < |c.rows| && c.rows[j].market == m;
          assert e.rows[j].market == m;
        }
      }
      forall m | m in markets ensures HasMarket(WithMarkets(c, markets).rows, m) {
        MarketsAdded(c, markets, m);
      }
    }
  }

  lemma PlannedInFigures(c: Candidate, markets: seq<Market>, today: int, anew: bool, cycle: int)
    ensures
      var prepared := Skipped(WithMarkets(c, markets), today);
      CandidatePlanned(
        c, if anew then Restarted(prepared, cycle, today) else prepared, markets, today, anew, cycle)
  {
    var d := WithMarkets(c, markets);
    var prepared := Skipped(d, today);
    var after := if anew then Restarted(prepared, cycle, today) else prepared;
    WithMarketsAdds(c, markets);
    forall j | 0 <= j < |c.rows| ensures RowPlanned(c.rows[j], after.rows[j], c, today, anew, cycle) {
      assert d.rows[j] == c.rows[j];
    }
    forall m | m in markets ensures HasMarket(after.rows, m) {
      var j :| 0 <= j < |d.rows| && d.rows[j].market == m;
      assert after.rows[j].market == m;
    }
  }

  lemma QueuePlanned(q: Queue, markets: seq<Market>, today: int, anew: bool, cycle: int)
    ensures
      var prepared := Prepared(q, markets, today);
      var after := if anew then RestartAll(prepared, cycle, today) else prepared;
      |after| == |q| && forall i :: 0 <= i < |q| ==> CandidatePlanned(q[i], after[i], markets, today, anew, cycle)
  {
    var prepared := Prepared(q, markets, today);
    var after := if anew then RestartAll(prepared, cycle, today) else prepared;
    forall i | 0 <= i < |q| ensures CandidatePlanned(q[i], after[i], markets, today, anew, cycle) {
      PlannedInFigures(q[i], markets, today, anew, cycle);
    }
  }

  class Sweeper {
    var queue: Queue
    var coverage: int

    constructor (queue: Queue, coverage: int)
      ensures this.queue == queue && this.coverage == coverage
    {
      this.queue, this.coverage := queue, coverage;
    }

    /**
     markCandidateMarketChecked: both levels still agree, exactly the work
     named is taken off the queue, and no other candidate is touched.
     */
    method Mark(i: nat, market: Market, cycle: int, f: Finding)
      requires QueueOk(queue) && i < |queue|
      modifies this`queue
      ensures queue == MarkOne(old(queue), i, market, cycle, f) && QueueOk(queue)
      ensures !IsWork(queue, i, market, cycle)
      ensures PendingUnits(queue) == PendingUnits(old(queue)) - if IsWork(old(queue), i, market, cycle) then 1 else 0
      ensures forall k, m :: 0 <= k < |queue| && (k != i || m != market) ==>
        (IsWork(queue, k, m, cycle) <==> IsWork(old(queue), k, m, cycle))
      ensures |queue| == |old(queue)| && forall k :: 0 <= k < |queue| && k != i ==> queue[k] == old(queue)[k]
      ensures
        if old(queue)[i].cycle == cycle then CandidateFound(old(queue)[i], queue[i], market, cycle, f)
        else queue[i] == old(queue)[i]
    {
      ghost var before := queue;
      MarkedOk(queue[i], market, cycle, f);
      if queue[i].cycle == cycle {
        MarkedFound(queue[i], market, cycle, f);
      } else {
        LateMarkChangesNothing(queue, i, market, cycle, f);
      }
      MarkTakesOne(queue, i, market, cycle, f);
      forall k, m | 0 <= k < |queue| ensures
        IsWork(MarkOne(queue, i, market, cycle, f), k, m, cycle) <==>
          IsWork(queue, k, m, cycle) && !(k == i && m == market)
      {
        MarkTakesOnly(queue, i, market, cycle, f, k, m);
      }
      queue := queue[i := Marked(queue[i], market, cycle, f)];
    }

    /** Fill in market rows, retire past departures, claim, and open the next cycle over a finished one. */
    method ClaimWork(markets: seq<Market>, perRun: nat, today: int) returns (claimed: seq<int>)
      requires perRun >= 1
      modifies this
      ensures Db(queue, coverage) == Planned(Db(old(queue), old(coverage)), markets, today)
      ensures claimed == Claim(queue, coverage, perRun, 0)
      ensures coverage == old(coverage) || coverage == old(coverage) + 1
      ensures |queue| == |old(queue)| && forall i :: 0 <= i < |queue| ==>
        CandidatePlanned(old(queue)[i], queue[i], markets, today, coverage != old(coverage), coverage)
    {
      queue := EnsureAll(queue, markets);
      queue := SkipAll(queue, today);
      claimed := Claim(queue, coverage, perRun, 0);
      ClaimedUnlessDone(queue, coverage, perRun);
      if claimed == [] {
        queue := RestartAll(queue, coverage + 1, today);
        coverage := coverage + 1;
        claimed := Claim(queue, coverage, perRun, 0);
      }
      QueuePlanned(old(queue), markets, today, coverage != old(coverage), coverage);
    }

    /**
     planUnits for a custom window.  Work comes out exactly when some departure
     is still bookable: all pending rows of the first candidates due in the
     current cycle.  The cycle moves on only over a finished one.
     */
    method PlanUnits(markets: seq<Market>, perRun: nat, today: int) returns (units: seq<Unit>)
      requires QueueOk(queue) && markets != [] && perRun >= 1
      modifies this
      ensures Db(queue, coverage) == Planned(Db(old(queue), old(coverage)), markets, today)
      ensures QueueOk(queue)
      ensures units != [] <==> SomeBookable(old(queue), today)
      ensures forall u :: u in units ==>
        && u.cycle == coverage && u.candidate in Claim(queue, coverage, perRun, 0)
        && IsWork(queue, u.candidate, u.market, coverage) && queue[u.candidate].outbound >= today
      ensures units == UnitsOf(queue, coverage, perRun) && Distinct(units)
      ensures forall i, m :: i in Claim(queue, coverage, perRun, 0) && IsWork(queue, i, m, coverage) ==>
        Unit(i, m, coverage) in units
    {
      PlannedOk(Db(queue, coverage), markets, today);
      var claimed := ClaimWork(markets, perRun, today);
      ClaimedUnlessDone(queue, coverage, perRun);
      units := CollectUnits(queue, coverage, claimed);
      ClaimIsAscending(queue, coverage, perRun, 0);
      UnitsAreDistinct(queue, claimed, coverage);
    }
  }

  /** A new cycle opens only over a finished one: no market row of the old cycle is left pending. */
  lemma CyclesFinish(db: Db, markets: seq<Market>, today: int, i: nat)
    requires QueueOk(db.queue) && markets != [] && i < |db.queue|
    requires Planned(db, markets, today).coverage != db.coverage
    ensures Planned(db, markets, today).coverage == db.coverage + 1
    ensures !AnyRow(Prepared(db.queue, markets, today)[i].rows, db.coverage, Pending)
  {
    PreparedOk(db.queue, markets, today);
    var c := Prepared(db.queue, markets, today)[i];
    assert CandidateOk(c) && !IsClaimable(c, db.coverage);
  }

  /** pendingCandidateMarkets: every pending market row of the claimed candidates. */
  method CollectUnits(q: Queue, cycle: int, claimed: seq<int>) returns (units: seq<Unit>)
    requires QueueOk(q)
    requires forall k :: 0 <= k < |claimed| ==>
      0 <= claimed[k] < |q| && q[claimed[k]].rows != [] && IsClaimable(q[claimed[k]], cycle)
    ensures units == UnitsFrom(q, claimed, cycle) && AreTheUnits(q, claimed, cycle, units)
  {
    units := [];
    for k := 0 to |claimed|
      invariant units == UnitsFrom(q, claimed[..k], cycle)
    {
      UnitsFromOneMore(q, claimed, cycle, k);
      units := units + PendingMarkets(q[claimed[k]].rows, claimed[k], cycle);
    }
    assert claimed[..|claimed|] == claimed;
    UnitsOfClaim(q, claimed, cycle);
  }

  lemma UnitsFromOneMore(q: Queue, claimed: seq<int>, cycle: int, k: nat)
    requires k < |claimed| && forall i :: 0 <= i < |claimed| ==> 0 <= claimed[i] < |q|
    ensures
      UnitsFrom(q, claimed[..k + 1], cycle)
      == UnitsFrom(q, claimed[..k], cycle) + PendingMarkets(q[claimed[k]].rows, claimed[k], cycle)
  {
    assert claimed[..k + 1][..k] == claimed[..k];
  }

  ghost predicate AreTheUnits(q: Queue, claimed: seq<int>, cycle: int, units: seq<Unit>) {
    && (units == [] <==> claimed == [])
    && (forall u :: u in units ==>
      u.cycle == cycle && u.candidate in claimed && IsWork(q, u.candidate, u.market, cycle))
    && (forall i, m :: i in claimed && IsWork(q, i, m, cycle) ==> Unit(i, m, cycle) in units)
  }

  lemma UnitsOfClaim(q: Queue, claimed: seq<int>, cycle: int)
    requires QueueOk(q)
    requires forall k :: 0 <= k < |claimed| ==>
      0 <= claimed[k] < |q| && q[claimed[k]].rows != [] && IsClaimable(q[claimed[k]], cycle)
    ensures AreTheUnits(q, claimed, cycle, UnitsFrom(q, claimed, cycle))
  {
    UnitsAreOfClaim(q, claimed, cycle);
    UnitsCoverClaim(q, claimed, cycle);
    ClaimGivesWork(q, claimed, cycle);
  }

  /** A claim without units is empty. */
  lemma ClaimGivesWork(q: Queue, claimed: seq<int>, cycle: int)
    requires QueueOk(q)
    requires forall k :: 0 <= k < |claimed| ==>
      0 <= claimed[k] < |q| && q[claimed[k]].rows != [] && IsClaimable(q[claimed[k]], cycle)
    ensures UnitsFrom(q, claimed, cycle) == [] <==> claimed == []
  {
    if claimed != [] {
      var i := claimed[0];
      ClaimedHasWork(q, cycle, i);
      UnitsCoverClaim(q, claimed, cycle);
      var m :| IsWork(q, i, m, cycle);
      assert Unit(i, m, cycle) in UnitsFrom(q, claimed, cycle);
    }
  }

  lemma ClaimedHasWork(q: Queue, cycle: int, i: int)
    requires QueueOk(q) && 0 <= i < |q| && q[i].rows != [] && IsClaimable(q[i], cycle)
    ensures exists m :: IsWork(q, i, m, cycle)
  {
    assert CandidateOk(q[i]);
    var j :| 0 <= j < |q[i].rows| && q[i].rows[j].cycle == cycle && q[i].rows[j].status == Pending;
    assert IsPendingFor(q[i].rows[j], q[i].rows[j].market, cycle);
    assert IsWork(q, i, q[i].rows[j].market, cycle);
  }

  lemma {:induction false} UnitsCoverClaim(q: Queue, claimed: seq<int>, cycle: int)
    requires forall k :: 0 <= k < |claimed| ==> 0 <= claimed[k] < |q|
    ensures forall i, m :: i in claimed && IsWork(q, i, m, cycle) ==> Unit(i, m, cycle) in UnitsFrom(q, claimed, cycle)
  {
    if claimed != [] {
      var n := |claimed| - 1;
      UnitsCoverClaim(q, claimed[..n], cycle);
      forall i, m | i in claimed && IsWork(q, i, m, cycle) ensures Unit(i, m, cycle) in UnitsFrom(q, claimed, cycle) {
        if i !in claimed[..n] {
          assert i == claimed[n];
          assert Unit(i, m, cycle) in PendingMarkets(q[i].rows, i, cycle);
        }
      }
    }
  }

  lemma ClaimedUnlessDone(q: Queue, cycle: int, limit: nat)
    requires limit > 0
    ensures Claim(q, cycle, limit, 0) == [] <==> AllDone(q, cycle)
  {
    var claimed := Claim(q, cycle, limit, 0);
    if claimed != [] {
      assert IsClaimable(q[claimed[0]], cycle);
    }
  }

  // ----------------------------------------------------------- crash recovery

  lemma {:induction false} MarketsAlreadyThere(c: Candidate, markets: seq<Market>)
    requires forall m :: m in markets ==> HasMarket(c.rows, m)
    ensures WithMarkets(c, markets) == c
    decreases |markets|
  {
    if markets != [] {
      assert markets[0] in markets;
      MarketsAlreadyThere(c, markets[1..]);
    }
  }

  lemma {:induction false} MarketsAdded(c: Candidate, markets: seq<Market>, m: Market)
    requires m in markets || HasMarket(c.rows, m)
    ensures HasMarket(WithMarkets(c, markets).rows, m)
    decreases |markets|
  {
    if markets != [] {
      if HasMarket(c.rows, markets[0]) {
        MarketsAdded(c, markets[1..], m);
      } else {
        var d := c.(rows := c.rows + [MarketRow(markets[0], c.cycle, c.status, None)]);
        assert d.rows[|c.rows|].market == markets[0];
        assert forall j :: 0 <= j < |c.rows| ==> d.rows[j] == c.rows[j];
        MarketsAdded(d, markets[1..], m);
      }
    }
  }

  /** Market rows once added survive skipping and restarting, so ensuring them again adds none. */
  lemma EnsureIsIdempotent(c: Candidate, markets: seq<Market>, today: int, cycle: int, later: int)
    ensures var d := Restarted(Skipped(WithMarkets(c, markets), today), cycle, later); WithMarkets(d, markets) == d
  {
    var d := Restarted(Skipped(WithMarkets(c, markets), today), cycle, later);
    forall m | m in markets ensures HasMarket(d.rows, m) {
      MarketsAdded(c, markets, m);
      var j :| 0 <= j < |WithMarkets(c, markets).rows| && WithMarkets(c, markets).rows[j].market == m;
      assert d.rows[j].market == m;
    }
    MarketsAlreadyThere(d, markets);
  }

  /** One candidate, advanced on `today` and planned again `later`, with and without the second restart. */
  lemma CandidateRecovers(c: Candidate, coverage: int, today: int, later: int)
    requires today <= later && CandidateOk(c)
    requires c.status.Pending? ==> c.outbound >= today
    requires !IsClaimable(c, coverage)
    ensures
      var advanced := Restarted(c, coverage + 1, today);
      var skipped := Skipped(advanced, later);
      && Restarted(skipped, coverage + 1, later) == skipped
      && !IsClaimable(skipped, coverage)
      && (c.outbound >= later <==> IsClaimable(skipped, coverage + 1))
  {
  }

  /**
   The worker died after startNextCycle committed and before the tracker row
   recorded the new cycle.  The next plan, the same day or later, leaves rows
   and cycle as if it had not died exactly when some departure is still
   bookable; with nothing left to book the two differ in the cycle number.
   */
  lemma CrashedAdvanceRecovers(db: Db, markets: seq<Market>, today: int, later: int)
    requires QueueOk(db.queue) && markets != [] && today <= later
    requires AllDone(Prepared(db.queue, markets, today), db.coverage)
    ensures
      var advanced := RestartAll(Prepared(db.queue, markets, today), db.coverage + 1, today);
      Planned(Db(advanced, db.coverage), markets, later) == Planned(Db(advanced, db.coverage + 1), markets, later)
      <==> SomeBookable(db.queue, later)
  {
    var prepared := Prepared(db.queue, markets, today);
    var advanced := RestartAll(prepared, db.coverage + 1, today);
    var again := Prepared(advanced, markets, later);
    PreparedOk(db.queue, markets, today);
    forall i | 0 <= i < |advanced|
      ensures again[i] == Skipped(advanced[i], later)
      ensures Restarted(again[i], db.coverage + 1, later) == again[i]
      ensures !IsClaimable(again[i], db.coverage)
      ensures db.queue[i].outbound >= later <==> IsClaimable(again[i], db.coverage + 1)
    {
      EnsureIsIdempotent(db.queue[i], markets, today, db.coverage + 1, today);
      CandidateRecovers(prepared[i], db.coverage, today, later);
    }
    assert RestartAll(again, db.coverage + 1, later) == again;
    assert AllDone(again, db.coverage);
    assert AllDone(again, db.coverage + 1) <==> !SomeBookable(db.queue, later);
  }
}
