/**
 A comparison series over its whole life: the row a tracker keeps of its latest
 and lowest price (worker/src/services/search.ts, `finalize`), and what the
 evaluations of successive checks have to do with the full history.
 */
module Series {
  import opened Prelude
  import opened Money
  import opened Evaluation

  /** A stored fare with its derived columns. Observations are inserted and never changed. */
  datatype Observation = Observation(price: nat, scope: Scope, columns: Columns)

  datatype TrackerRow = TrackerRow(
    latestPrice: Option<int>, latestObservation: Option<nat>,
    lowPrice: Option<int>, lowObservation: Option<nat>,
    lastThresholdMet: bool)

  const FRESH := TrackerRow(None, None, None, None, false)

  /** What does not change during a series. */
  datatype Setup = Setup(scope: Scope, basis: Basis, travelers: int)

  function Find(observations: map<nat, Observation>, id: Option<nat>): Option<Observation> {
    if id.Some? && id.value in observations then Some(observations[id.value]) else None
  }

  /** The comparable price of a stored observation, or of the bare price when the observation is gone. */
  function ComparableObservation(
    observation: Option<Observation>, fallback: Option<int>, setup: Setup): Result<Option<int>, RangeError> {
    if observation.Some? then
      var o := observation.value;
      if setup.basis.Party? && o.columns.partyTotal.Some? then Success(o.columns.partyTotal)
      else if setup.basis.Traveler? && o.columns.perTraveler.Some? then Success(o.columns.perTraveler)
      else Optionally(Comparable(o.price, o.scope, setup.basis, setup.travelers))
    else if fallback.None? then Success(None)
    else Optionally(Comparable(fallback.value, setup.scope, setup.basis, setup.travelers))
  }

  function Optionally(r: Result<int, RangeError>): Result<Option<int>, RangeError> {
    if r.Failure? then Failure(r.error) else Success(Some(r.value))
  }

  /** What a tracker remembers of the checks before. */
  function StateOf(
    tracker: TrackerRow, observations: map<nat, Observation>, setup: Setup): Result<SeriesState, RangeError> {
    var previous := ComparableObservation(Find(observations, tracker.latestObservation), tracker.latestPrice, setup);
    var low := ComparableObservation(Find(observations, tracker.lowObservation), tracker.lowPrice, setup);
    if previous.Failure? then Failure(previous.error)
    else if low.Failure? then Failure(low.error)
    else Success(SeriesState(previous.value, low.value, previous.value.Some?, tracker.lastThresholdMet))
  }

  function RowAfter(tracker: TrackerRow, id: nat, price: int, meetsThreshold: bool): TrackerRow {
    var isNewLow := tracker.lowPrice.None? || price < tracker.lowPrice.value;
    TrackerRow(Some(price), Some(id),
               if isNewLow then Some(price) else tracker.lowPrice,
               if isNewLow then Some(id) else tracker.lowObservation,
               meetsThreshold)
  }

  /** A check that was finished: its best observation, the rules in force, and what was made of it. */
  datatype Check = Check(id: nat, rules: Rules, evaluation: Evaluation)

  /** The check `c` takes the tracker as read to the row as written. */
  ghost predicate Finishes(
    setup: Setup, observations: map<nat, Observation>, tracker: TrackerRow, c: Check, row: TrackerRow) {
    && c.id in observations
    && var o := observations[c.id];
       var state, comparable := StateOf(tracker, observations, setup),
       Comparable(o.price, o.scope, setup.basis, setup.travelers);
       && state.Success? && comparable.Success?
       && Evaluates(c.evaluation, comparable.value, c.rules, state.value)
       && row == RowAfter(tracker, c.id, o.price, comparable.value <= c.rules.threshold)
  }

  class SearchService {
    var row: TrackerRow
    var observations: map<nat, Observation>

    /**
     Evaluates the best observation of a check against the tracker as it was
     read, and writes the row. An observation that cannot be found, or
     arithmetic that is not safe, leaves the row as it was.
     */
    method Finalize(tracker: TrackerRow, id: nat, setup: Setup, rules: Rules)
      returns (r: Option<Result<Evaluation, RangeError>>)
      modifies this`row
      ensures r.None? <==> id !in observations
      ensures r.Some? && r.value.Success? ==>
        Finishes(setup, observations, tracker, Check(id, rules, r.value.value), row)
      ensures r.None? || r.value.Failure? ==> row == old(row)
    {
      if id !in observations {
        return None;
      }
      var observation := observations[id];
      var previous := ComparableObservation(Find(observations, tracker.latestObservation), tracker.latestPrice, setup);
      if previous.Failure? {
        return Some(Failure(previous.error));
      }
      var low := ComparableObservation(Find(observations, tracker.lowObservation), tracker.lowPrice, setup);
      if low.Failure? {
        return Some(Failure(low.error));
      }
      var hadBaseline := previous.value.Some?;
      var state := SeriesState(previous.value, low.value, hadBaseline, tracker.lastThresholdMet);
      var evaluation := Evaluate(observation.price, observation.scope, setup.basis, setup.travelers, rules, state);
      if evaluation.Success? {
        var isNewLow := tracker.lowPrice.None? || observation.price < tracker.lowPrice.value;
        row := TrackerRow(Some(observation.price), Some(id),
                          if isNewLow then Some(observation.price) else tracker.lowPrice,
                          if isNewLow then Some(id) else tracker.lowObservation,
                          evaluation.value.meetsThreshold);
      }
      return Some(evaluation);
    }
  }

  // ------------------------------------------------------------- whole series

  /** `rows[k]` is what the tracker says before check k; failed checks change nothing and are left out. */
  datatype Run = Run(setup: Setup, observations: map<nat, Observation>, rows: seq<TrackerRow>, checks: seq<Check>)

  /** The stored columns are those written with the observation, under the setup of the series. */
  ghost predicate SameSeries(setup: Setup, observations: map<nat, Observation>) {
    forall id :: id in observations ==>
      && observations[id].scope == setup.scope
      && observations[id].columns == NormalizedColumns(observations[id].price, setup.scope, setup.travelers)
  }

  ghost predicate IsRun(r: Run) {
    && |r.rows| == |r.checks| + 1 && r.rows[0] == FRESH && SameSeries(r.setup, r.observations)
    && forall k :: 0 <= k < |r.checks| ==> Finishes(r.setup, r.observations, r.rows[k], r.checks[k], r.rows[k + 1])
  }

  function PriceAt(r: Run, k: nat): int
    requires k < |r.checks| && r.checks[k].id in r.observations
  {
    r.observations[r.checks[k].id].price
  }

  function ComparableAt(r: Run, k: nat): int
    requires k < |r.checks|
  {
    r.checks[k].evaluation.comparable
  }

  lemma ComparableIsOfPrice(r: Run, k: nat)
    requires IsRun(r) && k < |r.checks|
    ensures r.checks[k].id in r.observations
    ensures Comparable(PriceAt(r, k), r.setup.scope, r.setup.basis, r.setup.travelers) == Success(ComparableAt(r, k))
  {
    assert Finishes(r.setup, r.observations, r.rows[k], r.checks[k], r.rows[k + 1]);
  }

  /** The row before check i tells of the check before it, and of the lowest of all before it, which was check m. */
  ghost predicate RowTells(r: Run, i: nat, m: nat)
    requires 0 < i < |r.rows| == |r.checks| + 1
  {
    && m < i && (forall k :: 0 <= k < i ==> r.checks[k].id in r.observations)
    && r.rows[i] == TrackerRow(Some(PriceAt(r, i - 1)), Some(r.checks[i - 1].id), Some(PriceAt(r, m)),
      Some(r.checks[m].id),
                               r.checks[i - 1].evaluation.meetsThreshold)
    && forall k :: 0 <= k < i ==> PriceAt(r, m) <= PriceAt(r, k)
  }

  /** The stored low is the lowest price of all earlier checks. */
  lemma {:induction false} LowIsMinimum(r: Run, i: nat) returns (m: nat)
    requires IsRun(r) && 0 < i <= |r.checks|
    ensures RowTells(r, i, m)
  {
    assert Finishes(r.setup, r.observations, r.rows[i - 1], r.checks[i - 1], r.rows[i]);
    if i == 1 {
      m := 0;
    } else {
      var before := LowIsMinimum(r, i - 1);
      m := if PriceAt(r, i - 1) < PriceAt(r, before) then i - 1 else before;
    }
  }

  lemma {:induction false} ComparablesKeepOrder(r: Run, j: nat, k: nat)
    requires IsRun(r) && j < |r.checks| && k < |r.checks|
    requires r.checks[j].id in r.observations && r.checks[k].id in r.observations && PriceAt(r, j) <= PriceAt(r, k)
    ensures ComparableAt(r, j) <= ComparableAt(r, k)
  {
    ComparableIsOfPrice(r, j);
    ComparableIsOfPrice(r, k);
    ComparableKeepsOrder(PriceAt(r, j), PriceAt(r, k), r.setup.scope, r.setup.basis, r.setup.travelers);
  }

  /** Read back from its row, an observation compares as it did when it was evaluated. */
  lemma {:induction false} RecalledAsEvaluated(r: Run, k: nat)
    requires IsRun(r) && k < |r.checks| && r.checks[k].id in r.observations
    ensures ComparableObservation(Find(r.observations, Some(r.checks[k].id)), Some(PriceAt(r, k)), r.setup)
      == Success(Some(ComparableAt(r, k)))
  {
    ComparableIsOfPrice(r, k);
    StoredColumnsAgree(PriceAt(r, k), r.setup.scope, r.setup.basis, r.setup.travelers);
  }

  /** Lower than every earlier check. */
  ghost predicate BelowAll(r: Run, i: nat)
    requires i < |r.checks|
  {
    forall k :: 0 <= k < i ==> ComparableAt(r, i) < ComparableAt(r, k)
  }

  /** What check i was evaluated against. */
  ghost predicate StateTells(r: Run, i: nat, state: SeriesState)
    requires i < |r.checks|
  {
    && state.hasBaseline == (i > 0)
    && (i == 0 ==> state == SeriesState(None, None, false, false))
    && (i > 0 ==>
          && state.previousBest == Some(ComparableAt(r, i - 1))
          && state.previouslyMetThreshold == (ComparableAt(r, i - 1) <= r.checks[i - 1].rules.threshold)
          && state.seriesLow.Some?
          && (forall k :: 0 <= k < i ==> state.seriesLow.value <= ComparableAt(r, k))
          && exists k :: 0 <= k < i && ComparableAt(r, k) == state.seriesLow.value)
  }

  lemma {:induction false} StateIsHistory(r: Run, i: nat)
    requires IsRun(r) && i < |r.checks|
    ensures
      var state := StateOf(r.rows[i], r.observations, r.setup);
      state.Success? && StateTells(r, i, state.value)
        && Evaluates(r.checks[i].evaluation, ComparableAt(r, i), r.checks[i].rules, state.value)
  {
    assert Finishes(r.setup, r.observations, r.rows[i], r.checks[i], r.rows[i + 1]);
    ComparableIsOfPrice(r, i);
    if i > 0 {
      var m := LowIsMinimum(r, i);
      RecalledAsEvaluated(r, i - 1);
      RecalledAsEvaluated(r, m);
      assert Finishes(r.setup, r.observations, r.rows[i - 1], r.checks[i - 1], r.rows[i]);
      forall k | 0 <= k < i ensures ComparableAt(r, m) <= ComparableAt(r, k) {
        ComparablesKeepOrder(r, m, k);
      }
    }
  }

  /** A check is a new low exactly when it is not the first and is below every earlier one. */
  lemma NewLowIsBelowAll(r: Run, i: nat)
    requires IsRun(r) && i < |r.checks|
    ensures r.checks[i].evaluation.isNewLow <==> i > 0 && BelowAll(r, i)
    ensures r.checks[i].evaluation.isBaseline <==> i == 0
  {
    StateIsHistory(r, i);
    if i > 0 {
      var low := StateOf(r.rows[i], r.observations, r.setup).value.seriesLow.value;
      var k :| 0 <= k < i && ComparableAt(r, k) == low;
      assert ComparableAt(r, i) < low ==> forall j :: 0 <= j < i ==> ComparableAt(r, i) < ComparableAt(r, j);
    }
  }

  /** The evaluation lists the threshold decision, then the new-low one. */
  predicate Sends(c: Check, t: AlertType) {
    |c.evaluation.decisions| == 2 && c.evaluation.decisions[if t.Threshold? then 0 else 1].shouldAlert
  }

  /** New-low alerts fall strictly from one to the next, and never come first. */
  lemma {:induction false} NewLowAlertsDecrease(r: Run, i: nat, j: nat)
    requires IsRun(r) && i < j < |r.checks| && Sends(r.checks[j], NewLow)
    ensures ComparableAt(r, j) < ComparableAt(r, i)
  {
    StateIsHistory(r, j);
    NewLowIsBelowAll(r, j);
  }

  lemma {:induction false} NewLowAlertIff(r: Run, i: nat)
    requires IsRun(r) && i < |r.checks|
    ensures Sends(r.checks[i], NewLow) <==>
      i > 0 && r.checks[i].rules.alertOnNewLow && BelowAll(r, i) && !DropTooSmallAt(r, i)
  {
    StateIsHistory(r, i);
    NewLowIsBelowAll(r, i);
    if i > 0 {
      DropIsFromPrevious(r, i);
    }
  }

  /** The drop is smaller than one of the two minimums that are set, or cannot be told. */
  ghost predicate DropTooSmall(previous: int, comparable: int, rules: Rules) {
    var drop, cents, percent := previous - comparable, rules.minDropAbsolute, rules.minDropPercentBp;
    || (cents.Some? && cents.value > 0 && (previous <= 0 || drop < cents.value))
    || (percent.Some? && percent.value > 0 &&
        (previous <= 0 || forall p :: IsNearest(10000 * drop, previous, p) ==> p < percent.value))
  }

  /** So it is with the drop from the check before. */
  ghost predicate DropTooSmallAt(r: Run, i: nat)
    requires 0 < i < |r.checks|
  {
    DropTooSmall(ComparableAt(r, i - 1), ComparableAt(r, i), r.checks[i].rules)
  }

  lemma BlockedIsTooSmall(previous: int, comparable: int, rules: Rules, drop: Option<int>, percent: Option<int>)
    requires DropsBy(Some(previous), comparable, drop, percent)
    ensures DropTooSmall(previous, comparable, rules) == DropBlocked(rules, drop, percent)
  {
    var n := 10000 * (previous - comparable);
    if previous > 0 {
      forall p | IsNearest(n, previous, p) ensures p == percent.value {
        NearestIsUnique(n, previous, p, percent.value);
      }
    }
  }

  lemma DropIsFromPrevious(r: Run, i: nat)
    requires IsRun(r) && 0 < i < |r.checks|
    ensures DropTooSmallAt(r, i)
      == DropBlocked(r.checks[i].rules, r.checks[i].evaluation.dropAbsolute, r.checks[i].evaluation.dropPercent)
  {
    StateIsHistory(r, i);
    var rules, e := r.checks[i].rules, r.checks[i].evaluation;
    EvaluatesJudges(e, ComparableAt(r, i), rules, StateOf(r.rows[i], r.observations, r.setup).value);
    BlockedIsTooSmall(ComparableAt(r, i - 1), ComparableAt(r, i), rules, e.dropAbsolute, e.dropPercent);
  }

  /**
   A threshold alert goes out exactly when the price is at or under the
   threshold and this is the first check, or the check before was above its
   threshold, or this is a new low, and, after the first, the drop is large
   enough.
   */
  lemma ThresholdAlertIff(r: Run, i: nat)
    requires IsRun(r) && i < |r.checks|
    ensures Sends(r.checks[i], Threshold) <==>
      && r.checks[i].rules.alertOnThreshold && ComparableAt(r, i) <= r.checks[i].rules.threshold
      && (i == 0 || ((ComparableAt(r, i - 1) > r.checks[i - 1].rules.threshold || BelowAll(r, i))
        && !DropTooSmallAt(r, i)))
  {
    StateIsHistory(r, i);
    NewLowIsBelowAll(r, i);
    if i > 0 {
      DropIsFromPrevious(r, i);
    }
  }

  // --------------------------------------------------------- a changed series

  /** In the database a new series starts from an empty row. */
  function Transitioned(row: TrackerRow): TrackerRow {
    FRESH
  }

  /** In memory the tracker keeps the observation ids of the old one. */
  function TransitionedInMemory(tracker: TrackerRow): TrackerRow {
    tracker.(latestPrice := None, lowPrice := None, lastThresholdMet := false)
  }

  /** The first check of a new series counts as its baseline exactly when the old latest observation is not found. */
  lemma FirstCheckIsBaselineIff(tracker: TrackerRow, observations: map<nat, Observation>, setup: Setup)
    requires StateOf(TransitionedInMemory(tracker), observations, setup).Success?
    ensures StateOf(TransitionedInMemory(tracker), observations, setup).value.hasBaseline
       <==> tracker.latestObservation.Some? && tracker.latestObservation.value in observations
    ensures StateOf(Transitioned(tracker), observations, setup) == Success(SeriesState(None, None, false, false))
  {
  }

  /** A fare of 90 opens a new series; the old one, of another route, stood at 100: a new low is announced. */
  lemma StaleTrackerAnnouncesLow()
    ensures
      var setup := Setup(Unknown, Party, 1);
      var observations :=
        map[0 := Observation(100, Unknown, Columns(None, None)), 1 := Observation(90, Unknown, Columns(None, None))];
      var before := TrackerRow(Some(100), Some(0), Some(100), Some(0), false);
      var rules := Rules(50, true, true, None, None);
      exists e, row ::
        && Finishes(setup, observations, TransitionedInMemory(before), Check(1, rules, e), row)
        && Sends(Check(1, rules, e), NewLow)
  {
    var setup := Setup(Unknown, Party, 1);
    var observations :=
      map[0 := Observation(100, Unknown, Columns(None, None)), 1 := Observation(90, Unknown, Columns(None, None))];
    var tracker := TransitionedInMemory(TrackerRow(Some(100), Some(0), Some(100), Some(0), false));
    var rules := Rules(50, true, true, None, None);
    var state := SeriesState(Some(100), Some(100), true, false);
    assert StateOf(tracker, observations, setup) == Success(state);
    var percent := DropPercentBp(10, 100);
    DivideHalfUpIsNearest(100000, 100);
    NearestIsUnique(100000, 100, percent.value.value, 1000);
    var e := Evaluation(90, false, false, true, Some(10), Some(1000),
                        [AlertDecision(Threshold, false, AboveThreshold), AlertDecision(NewLow, true, NewLowest)]);
    assert Evaluates(e, 90, rules, state);
    assert Finishes(setup, observations, tracker, Check(1, rules, e), RowAfter(tracker, 1, 90, false));
  }
}
