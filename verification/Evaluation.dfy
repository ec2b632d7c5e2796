/** What one observed price means for a tracker (worker/src/domain/evaluation.ts). */
module Evaluation {
  import opened Prelude
  import opened Money

  datatype Scope = PartyTotal | PerTraveler | Unknown

  datatype Basis = Party | Traveler

  datatype NormalizedPrice = NormalizedPrice(reported: int, partyTotal: Option<int>, perTraveler: Option<int>)

  /** A reported price on both bases; neither is derived when the scope is unknown. */
  function NormalizePrice(reported: int, scope: Scope, travelers: int): Result<NormalizedPrice, RangeError> {
    match scope
    case PartyTotal =>
      var share := PerTravelerCents(reported, travelers);
      if share.Failure? then Failure(share.error)
        else Success(NormalizedPrice(reported, Some(reported), Some(share.value)))
    case PerTraveler =>
      var total := PartyTotalCents(reported, travelers);
      if total.Failure? then Failure(total.error)
        else Success(NormalizedPrice(reported, Some(total.value), Some(reported)))
    case Unknown => Success(NormalizedPrice(reported, None, None))
  }

  function OnBasis(price: NormalizedPrice, basis: Basis): Option<int> {
    if basis.Party? then price.partyTotal else price.perTraveler
  }

  /** The amount compared with the threshold. */
  function Comparable(reported: int, scope: Scope, basis: Basis, travelers: int): Result<int, RangeError> {
    var price := NormalizePrice(reported, scope, travelers);
    if price.Failure? then Failure(price.error) else Success(OnBasis(price.value, basis).GetOr(price.value.reported))
  }

  /** A cheaper price never compares dearer. */
  lemma {:induction false} ComparableKeepsOrder(a: int, b: int, scope: Scope, basis: Basis, travelers: int)
    requires a <= b
    requires Comparable(a, scope, basis, travelers).Success? && Comparable(b, scope, basis, travelers).Success?
    ensures Comparable(a, scope, basis, travelers).value <= Comparable(b, scope, basis, travelers).value
  {
    if scope.PartyTotal? {
      SharesKeepOrder(a, b, travelers);
    } else if scope.PerTraveler? {
      MoreTimes(a, b, Seats(travelers));
    }
  }

  /** What the price compares as: itself, the nearest share of it, or the total of so many shares. */
  predicate ComparesAs(reported: int, scope: Scope, basis: Basis, travelers: int, comparable: int) {
    var seats := if travelers > 1 then travelers else 1;
    if scope == PartyTotal && basis == Traveler then IsNearest(reported, seats, comparable)
    else if scope == PerTraveler && basis == Party then comparable == reported * seats
    else comparable == reported
  }

  /** The arithmetic on the price stays within the safe integers. */
  predicate IsSafePrice(reported: int, scope: Scope, travelers: int) {
    var seats := if travelers > 1 then travelers else 1;
    var most := 0x1f_ffff_ffff_ffff;
    && (scope == PartyTotal ==> -most <= reported <= most)
    && (scope == PerTraveler ==> -most <= reported * seats <= most)
  }

  lemma ComparableIs(reported: int, scope: Scope, basis: Basis, travelers: int)
    ensures Comparable(reported, scope, basis, travelers).Success? <==> IsSafePrice(reported, scope, travelers)
    ensures Comparable(reported, scope, basis, travelers).Success? ==>
      ComparesAs(reported, scope, basis, travelers, Comparable(reported, scope, basis, travelers).value)
  {
    DivideHalfUpIsNearest(reported, Seats(travelers));
  }

  datatype SeriesState = SeriesState(
    previousBest: Option<int>, seriesLow: Option<int>, hasBaseline: bool, previouslyMetThreshold: bool)

  datatype AlertType = Threshold | NewLow

  datatype Reason =
    | TurnedOff
    | AboveThreshold
    | AlreadyUnder
    | DropTooSmall
    | FirstAtThreshold
    | ReachedThreshold
    | IsBaseline
    | NotBelowLow
    | NewLowest

  datatype AlertDecision = AlertDecision(alertType: AlertType, shouldAlert: bool, reason: Reason)

  datatype Rules = Rules(
    threshold: int, alertOnThreshold: bool, alertOnNewLow: bool, minDropAbsolute: Option<int>,
    minDropPercentBp: Option<int>)

  datatype Evaluation = Evaluation(
    comparable: int, isBaseline: bool, meetsThreshold: bool, isNewLow: bool,
    dropAbsolute: Option<int>, dropPercent: Option<int>, decisions: seq<AlertDecision>)

  /** The configured minimum is positive, and the drop unknown or smaller. */
  predicate FallsShort(drop: Option<int>, minimum: Option<int>) {
    minimum.Some? && minimum.value > 0 && (drop.None? || drop.value < minimum.value)
  }

  predicate DropBlocked(rules: Rules, dropAbsolute: Option<int>, dropPercent: Option<int>) {
    FallsShort(dropAbsolute, rules.minDropAbsolute) || FallsShort(dropPercent, rules.minDropPercentBp)
  }

  /** Strictly below the low that earlier checks left. */
  predicate BelowLow(state: SeriesState, comparable: int) {
    state.hasBaseline && state.seriesLow.Some? && comparable < state.seriesLow.value
  }

  /** The drop from the previous best, in cents and in hundredths of a percent. */
  function Drops(state: SeriesState, comparable: int): Result<(Option<int>, Option<int>), RangeError> {
    if state.previousBest.Some? && state.previousBest.value > 0 then
      var absolute := state.previousBest.value - comparable;
      var percent := DropPercentBp(absolute, state.previousBest.value);
      if percent.Failure? then Failure(percent.error) else Success((Some(absolute), percent.value))
    else Success((None, None))
  }

  /** When the threshold alert goes out. */
  predicate ThresholdAlert(rules: Rules, state: SeriesState, comparable: int, blocked: bool) {
    && rules.alertOnThreshold && comparable <= rules.threshold
    && (!state.hasBaseline || ((!state.previouslyMetThreshold || BelowLow(state, comparable)) && !blocked))
  }

  /** When the new-low alert goes out. */
  predicate NewLowAlert(rules: Rules, state: SeriesState, comparable: int, blocked: bool) {
    rules.alertOnNewLow && BelowLow(state, comparable) && !blocked
  }

  /** What an evaluation has to say of a comparable price. */
  ghost predicate Evaluates(e: Evaluation, comparable: int, rules: Rules, state: SeriesState) {
    && Drops(state, comparable) == Success((e.dropAbsolute, e.dropPercent))
    && e.comparable == comparable && e.isBaseline == !state.hasBaseline
    && e.meetsThreshold == (comparable <= rules.threshold) && e.isNewLow == BelowLow(state, comparable)
    && |e.decisions| == 2 && e.decisions[0].alertType == Threshold && e.decisions[1].alertType == NewLow
    && var blocked := DropBlocked(rules, e.dropAbsolute, e.dropPercent);
       && e.decisions[0].shouldAlert == ThresholdAlert(rules, state, comparable, blocked)
       && e.decisions[1].shouldAlert == NewLowAlert(rules, state, comparable, blocked)
       && e.decisions[0].reason == ThresholdReason(rules, state, comparable, blocked)
       && e.decisions[1].reason == NewLowReason(rules, state, comparable, blocked)
  }

  // ------------------------------------------------ the same, in figures alone

  /** A minimum is set, and the drop is smaller than it or not known. */
  predicate IsUnder(drop: Option<int>, minimum: Option<int>) {
    minimum.Some? && minimum.value > 0 && (drop == None || drop.value < minimum.value)
  }

  /** The drop from the previous best, and the part of it that is, where there is a positive one. */
  predicate DropsBy(previous: Option<int>, comparable: int, drop: Option<int>, percent: Option<int>) {
    if previous.Some? && previous.value > 0 then
      && drop == Some(previous.value - comparable)
      && percent.Some? && IsNearest(10000 * (previous.value - comparable), previous.value, percent.value)
    else drop == None && percent == None
  }

  /** What an evaluation says, condition by condition: each of the two minimums alone holds an alert back. */
  predicate Judges(e: Evaluation, comparable: int, rules: Rules, state: SeriesState) {
    var lower := state.hasBaseline && state.seriesLow.Some? && comparable < state.seriesLow.value;
    var small := IsUnder(e.dropAbsolute, rules.minDropAbsolute) || IsUnder(e.dropPercent, rules.minDropPercentBp);
    && e.comparable == comparable && (e.isBaseline <==> !state.hasBaseline)
    && (e.meetsThreshold <==> comparable <= rules.threshold) && (e.isNewLow <==> lower)
    && DropsBy(state.previousBest, comparable, e.dropAbsolute, e.dropPercent)
    && e.decisions == [
         if !rules.alertOnThreshold then AlertDecision(Threshold, false, TurnedOff)
         else if comparable > rules.threshold then AlertDecision(Threshold, false, AboveThreshold)
         else if !state.hasBaseline then AlertDecision(Threshold, true, FirstAtThreshold)
         else if state.previouslyMetThreshold && !lower then AlertDecision(Threshold, false, AlreadyUnder)
         else if small then AlertDecision(Threshold, false, DropTooSmall)
         else AlertDecision(Threshold, true, ReachedThreshold),
         if !rules.alertOnNewLow then AlertDecision(NewLow, false, TurnedOff)
         else if !state.hasBaseline then AlertDecision(NewLow, false, IsBaseline)
         else if !lower then AlertDecision(NewLow, false, NotBelowLow)
         else if small then AlertDecision(NewLow, false, DropTooSmall)
         else AlertDecision(NewLow, true, NewLowest)]
  }

  lemma DropsAre(state: SeriesState, comparable: int)
    ensures
      var drops := Drops(state, comparable);
      && (drops.Success? <==>
            state.previousBest.Some? && state.previousBest.value > 0 ==>
              -0x1f_ffff_ffff_ffff <= 10000 * (state.previousBest.value - comparable) <= 0x1f_ffff_ffff_ffff)
      && (drops.Success? ==> DropsBy(state.previousBest, comparable, drops.value.0, drops.value.1))
  {
    if state.previousBest.Some? && state.previousBest.value > 0 {
      DivideHalfUpIsNearest((state.previousBest.value - comparable) * 10000, state.previousBest.value);
    }
  }

  /** An evaluation put together from its parts. */
  lemma Concludes(e: Evaluation, rules: Rules, state: SeriesState, threshold: AlertDecision, newLow: AlertDecision)
    requires Drops(state, e.comparable) == Success((e.dropAbsolute, e.dropPercent))
    requires e.isBaseline == !state.hasBaseline && e.meetsThreshold == (e.comparable <= rules.threshold)
    requires e.isNewLow == BelowLow(state, e.comparable) && e.decisions == [threshold, newLow]
    requires
      var blocked := DropBlocked(rules, e.dropAbsolute, e.dropPercent);
      && threshold == AlertDecision(Threshold, ThresholdAlert(rules, state, e.comparable, blocked),
                                    ThresholdReason(rules, state, e.comparable, blocked))
      && newLow == AlertDecision(NewLow, NewLowAlert(rules, state, e.comparable, blocked),
                                 NewLowReason(rules, state, e.comparable, blocked))
    ensures Evaluates(e, e.comparable, rules, state) && Judges(e, e.comparable, rules, state)
  {
    EvaluatesJudges(e, e.comparable, rules, state);
  }

  /** The comparable price is so far from the previous best that the drop in hundredths of a percent is not safe. */
  predicate UnsafeDrop(reported: int, scope: Scope, basis: Basis, travelers: int, state: SeriesState, comparable: int) {
    && ComparesAs(reported, scope, basis, travelers, comparable)
    && state.previousBest.Some? && state.previousBest.value > 0
    && !(-0x1f_ffff_ffff_ffff <= 10000 * (state.previousBest.value - comparable) <= 0x1f_ffff_ffff_ffff)
  }

  lemma EvaluatesJudges(e: Evaluation, comparable: int, rules: Rules, state: SeriesState)
    requires Evaluates(e, comparable, rules, state)
    ensures Judges(e, comparable, rules, state)
  {
    DropsAre(state, comparable);
    assert e.decisions == [e.decisions[0], e.decisions[1]];
  }

  function ThresholdReason(rules: Rules, state: SeriesState, comparable: int, blocked: bool): Reason {
    if !rules.alertOnThreshold then TurnedOff
    else if comparable > rules.threshold then AboveThreshold
    else if !state.hasBaseline then FirstAtThreshold
    else if state.previouslyMetThreshold && !BelowLow(state, comparable) then AlreadyUnder
    else if blocked then DropTooSmall
    else ReachedThreshold
  }

  function NewLowReason(rules: Rules, state: SeriesState, comparable: int, blocked: bool): Reason {
    if !rules.alertOnNewLow then TurnedOff
    else if !state.hasBaseline then IsBaseline
    else if !BelowLow(state, comparable) then NotBelowLow
    else if blocked then DropTooSmall
    else NewLowest
  }

  method DecideThreshold(rules: Rules, state: SeriesState, comparable: int, blocked: bool) returns (d: AlertDecision)
    ensures d.alertType == Threshold && d.shouldAlert == ThresholdAlert(rules, state, comparable, blocked)
    ensures d.reason == ThresholdReason(rules, state, comparable, blocked)
  {
    var isBaseline, isNewLow := !state.hasBaseline, BelowLow(state, comparable);
    if !rules.alertOnThreshold {
      d := AlertDecision(Threshold, false, TurnedOff);
    } else if comparable > rules.threshold {
      d := AlertDecision(Threshold, false, AboveThreshold);
    } else if state.previouslyMetThreshold && !isNewLow && !isBaseline {
      d := AlertDecision(Threshold, false, AlreadyUnder);
    } else if blocked && !isBaseline {
      d := AlertDecision(Threshold, false, DropTooSmall);
    } else {
      d := AlertDecision(Threshold, true, if isBaseline then FirstAtThreshold else ReachedThreshold);
    }
  }

  method DecideNewLow(rules: Rules, state: SeriesState, comparable: int, blocked: bool) returns (d: AlertDecision)
    ensures d.alertType == NewLow && d.shouldAlert == NewLowAlert(rules, state, comparable, blocked)
    ensures d.reason == NewLowReason(rules, state, comparable, blocked)
  {
    if !rules.alertOnNewLow {
      d := AlertDecision(NewLow, false, TurnedOff);
    } else if !state.hasBaseline {
      d := AlertDecision(NewLow, false, IsBaseline);
    } else if !BelowLow(state, comparable) {
      d := AlertDecision(NewLow, false, NotBelowLow);
    } else if blocked {
      d := AlertDecision(NewLow, false, DropTooSmall);
    } else {
      d := AlertDecision(NewLow, true, NewLowest);
    }
  }

  method Evaluate(reported: int, scope: Scope, basis: Basis, travelers: int, rules: Rules, state: SeriesState)
    returns (r: Result<Evaluation, RangeError>)
    ensures r.Success? <==>
      && Comparable(reported, scope, basis, travelers).Success?
      && Drops(state, Comparable(reported, scope, basis, travelers).value).Success?
    ensures r.Success? ==> Evaluates(r.value, Comparable(reported, scope, basis, travelers).value, rules, state)
    ensures r.Failure? ==>
      !IsSafePrice(reported, scope, travelers) || exists c :: UnsafeDrop(reported, scope, basis, travelers, state, c)
    ensures r.Success? ==>
      && IsSafePrice(reported, scope, travelers) && ComparesAs(reported, scope, basis, travelers, r.value.comparable)
      && Judges(r.value, r.value.comparable, rules, state)
  {
    ComparableIs(reported, scope, basis, travelers);
    var compared := Comparable(reported, scope, basis, travelers);
    if compared.Failure? {
      return Failure(compared.error);
    }
    var comparable := compared.value;
    DropsAre(state, comparable);
    var isBaseline := !state.hasBaseline;
    var meetsThreshold := comparable <= rules.threshold;
    var isNewLow := !isBaseline && state.seriesLow.Some? && comparable < state.seriesLow.value;

    var dropAbsolute: Option<int>, dropPercent: Option<int> := None, None;
    if state.previousBest.Some? && state.previousBest.value > 0 {
      dropAbsolute := Some(state.previousBest.value - comparable);
      var percent := DropPercentBp(dropAbsolute.value, state.previousBest.value);
      if percent.Failure? {
        assert UnsafeDrop(reported, scope, basis, travelers, state, comparable);
        return Failure(percent.error);
      }
      dropPercent := percent.value;
    }
    var blocked := DropBlocked(rules, dropAbsolute, dropPercent);

    var decisions := [];
    var threshold := DecideThreshold(rules, state, comparable, blocked);
    decisions := decisions + [threshold];
    var newLow := DecideNewLow(rules, state, comparable, blocked);
    decisions := decisions + [newLow];
    assert decisions == [threshold, newLow];
    r := Success(Evaluation(comparable, isBaseline, meetsThreshold, isNewLow, dropAbsolute, dropPercent, decisions));
    Concludes(r.value, rules, state, threshold, newLow);
  }

  // ------------------------------------------------- the columns stored beside a price

  /** Math.round of a quotient: the nearest whole number, and of two the greater. */
  function RoundUpHalf(n: int, d: int): int
    requires d > 0
  {
    (2 * n + d) / (2 * d)
  }

  datatype Columns = Columns(partyTotal: Option<int>, perTraveler: Option<int>)

  function NormalizedColumns(price: int, scope: Scope, travelers: int): Columns {
    match scope
    case PartyTotal => Columns(Some(price), Some(RoundUpHalf(price, Seats(travelers))))
    case PerTraveler => Columns(Some(price * Seats(travelers)), Some(price))
    case Unknown => Columns(None, None)
  }

  /** A price halfway between two shares. */
  predicate IsTie(price: int, seats: int)
    requires seats > 0
  {
    2 * price % (2 * seats) == seats
  }

  lemma RoundUpHalfIsNearest(n: int, d: int)
    requires d > 0
    ensures 2 * Abs(n - RoundUpHalf(n, d) * d) <= d
    ensures IsTie(n, d) ==> 2 * (RoundUpHalf(n, d) * d - n) == d
    ensures !IsTie(n, d) ==> 2 * Abs(n - RoundUpHalf(n, d) * d) < d
  {
    var q := RoundUpHalf(n, d);
    var p := q * d;
    var rem := (2 * n + d) % (2 * d);
    assert 2 * n + d == q * (2 * d) + rem;
    assert q * (2 * d) == 2 * p;
    if rem == 0 {
      assert 2 * n == (q - 1) * (2 * d) + d;
      ModOf(2 * n, 2 * d, q - 1, d);
    } else if rem >= d {
      ModOf(2 * n, 2 * d, q, rem - d);
    } else {
      assert 2 * n == (q - 1) * (2 * d) + (d + rem);
      ModOf(2 * n, 2 * d, q - 1, d + rem);
    }
  }

  lemma {:induction false} ModOf(x: int, m: int, k: int, r: int)
    requires m > 0 && x == k * m + r && 0 <= r < m
    ensures x % m == r
  {
    var other := x / m - k;
    assert x == x / m * m + x % m;
    assert other * m == r - x % m;
    Multiple(other, m);
  }

  /** The stored share is the compared one unless the price is negative and halfway. */
  lemma {:induction false} StoredShareAgreesIff(price: int, travelers: int)
    requires IsSafe(price)
    ensures PerTravelerCents(price, travelers).Success?
    ensures RoundUpHalf(price, Seats(travelers)) == PerTravelerCents(price, travelers).value
       <==> price >= 0 || !IsTie(price, Seats(travelers))
  {
    var d := Seats(travelers);
    DivideHalfUpIsNearest(price, d);
    RoundUpHalfIsNearest(price, d);
    var r, s := RoundUpHalf(price, d), PerTravelerCents(price, travelers).value;
    if price >= 0 || !IsTie(price, d) {
      NearestIsUnique(price, d, r, s);
    }
  }

  lemma {:induction false} StoredColumnsAgree(price: int, scope: Scope, basis: Basis, travelers: int)
    requires price >= 0 && Comparable(price, scope, basis, travelers).Success?
    ensures
      var columns := NormalizedColumns(price, scope, travelers);
      var stored := if basis.Party? then columns.partyTotal else columns.perTraveler;
      stored.None? || stored.value == Comparable(price, scope, basis, travelers).value
  {
    if scope.PartyTotal? {
      DivideHalfUpIsNearest(price, Seats(travelers));
      StoredShareAgreesIff(price, travelers);
    }
  }
}
