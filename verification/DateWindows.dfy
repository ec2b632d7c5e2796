/**
 Date pairs of a custom flexible window.  Dates are epoch days.

 The two ports of the generator differ only in how they close an open-ended
 trip length, so one method models both.
 */
module DateWindows {
  import opened Prelude
  import opened Sorting

  datatype Port = Worker | Python

  datatype Window = Window(
    outboundStart: int, outboundEnd: int,
    returnStart: Option<int>, returnEnd: Option<int>,
    minNights: Option<int>, maxNights: Option<int>,
    notBefore: Option<int>, maxCandidates: nat)

  datatype DatePair = DatePair(outbound: int, inbound: int)

  datatype WindowError =
    | OutboundReversed | AllInPast | NoReturnRule | NightsReversed | ReturnReversed
    | TooMany | NoPair

  function StartDay(w: Window): int {
    if w.notBefore.None? then w.outboundStart else Max(w.outboundStart, w.notBefore.value)
  }

  predicate ByReturnWindow(w: Window) {
    w.returnStart.Some? && w.returnEnd.Some?
  }

  /** The argument checks, in the order both ports make them. */
  function ArgumentError(w: Window): Option<WindowError> {
    if w.outboundEnd < w.outboundStart then Some(OutboundReversed)
    else if w.outboundEnd < StartDay(w) then Some(AllInPast)
    else if w.returnStart.None? && w.minNights.None? then Some(NoReturnRule)
    else if w.minNights.Some? && w.maxNights.Some? && w.maxNights.value < w.minNights.value then Some(NightsReversed)
    else if ByReturnWindow(w) && w.returnEnd.value < w.returnStart.value then Some(ReturnReversed)
    else None
  }

  /** Some day of the outbound window is left. */
  predicate HasDays(w: Window) {
    w.outboundStart <= w.outboundEnd && (w.notBefore.Some? ==> w.notBefore.value <= w.outboundEnd)
  }

  lemma ArgumentErrorIs(w: Window)
    ensures ArgumentError(w) == Some(OutboundReversed) <==> w.outboundEnd < w.outboundStart
    ensures ArgumentError(w) == Some(AllInPast) <==>
      w.outboundStart <= w.outboundEnd && w.notBefore.Some? && w.outboundEnd < w.notBefore.value
    ensures ArgumentError(w) == Some(NoReturnRule) <==> HasDays(w) && w.returnStart == None && w.minNights == None
    ensures ArgumentError(w) == Some(NightsReversed) <==>
      HasDays(w) && w.minNights.Some? && w.maxNights.Some? && w.maxNights.value < w.minNights.value
    ensures ArgumentError(w) == Some(ReturnReversed) <==>
      && HasDays(w) && !(w.minNights.Some? && w.maxNights.Some? && w.maxNights.value < w.minNights.value)
      && w.returnStart.Some? && w.returnEnd.Some? && w.returnEnd.value < w.returnStart.value
    ensures ArgumentError(w) != Some(NoPair) && ArgumentError(w) != Some(TooMany)
  {
  }

  function FewestNights(w: Window): int {
    Max(w.minNights.GetOr(1), 1)
  }

  /** The open end of the trip length: the Worker falls back on the clamped minimum, Python on the raw one. */
  function MostNights(port: Port, w: Window): int {
    if w.maxNights.Some? then w.maxNights.value
    else if port.Worker? then FewestNights(w)
    else w.minNights.GetOr(1)
  }

  function FirstInbound(w: Window, outbound: int): int {
    if ByReturnWindow(w) then Max(w.returnStart.value, outbound + 1) else outbound + FewestNights(w)
  }

  function LastInbound(port: Port, w: Window, outbound: int): int {
    if ByReturnWindow(w) then w.returnEnd.value else outbound + MostNights(port, w)
  }

  predicate NightsAllowed(w: Window, nights: int) {
    && nights >= 1
    && (w.minNights.Some? ==> w.minNights.value <= nights)
    && (w.maxNights.Some? ==> nights <= w.maxNights.value)
  }

  /** A trip the traveller asked for, stated without any enumeration. */
  predicate Wanted(port: Port, w: Window, p: DatePair) {
    && StartDay(w) <= p.outbound <= w.outboundEnd
    && NightsAllowed(w, p.inbound - p.outbound)
    && (if ByReturnWindow(w)
        then w.returnStart.value <= p.inbound <= w.returnEnd.value
        else w.maxNights.None? ==> p.inbound - p.outbound <= MostNights(port, w))
  }

  /** The same in figures: a departure within the window, at least one night, and each limit that is set. */
  lemma WantedIs(port: Port, w: Window, p: DatePair)
    ensures Wanted(port, w, p) <==>
      && w.outboundStart <= p.outbound <= w.outboundEnd && (w.notBefore.Some? ==> w.notBefore.value <= p.outbound)
      && p.outbound < p.inbound
      && (w.minNights.Some? ==> p.outbound + w.minNights.value <= p.inbound)
      && (w.maxNights.Some? ==> p.inbound <= p.outbound + w.maxNights.value)
      && (w.returnStart.Some? && w.returnEnd.Some? ==> w.returnStart.value <= p.inbound <= w.returnEnd.value)
      && ((w.returnStart.None? || w.returnEnd.None?) && w.maxNights.None? ==>
            if w.minNights.Some? && (port.Python? || w.minNights.value >= 1)
            then p.inbound == p.outbound + w.minNights.value
            else p.inbound == p.outbound + 1)
  {
  }

  predicate Before(p: DatePair, q: DatePair) {
    p.outbound < q.outbound || (p.outbound == q.outbound && p.inbound < q.inbound)
  }

  ghost predicate InOrder(pairs: seq<DatePair>) {
    StrictlySorted(Before, pairs)
  }

  lemma PairsAreOrdered()
    ensures IsOrder(Before) && IsTotal(Before)
  {
  }

  /** The loop position (outbound, inbound) has been passed. */
  predicate Behind(p: DatePair, outbound: int, inbound: int) {
    p.outbound < outbound || (p.outbound == outbound && p.inbound < inbound)
  }

  ghost predicate Collected(port: Port, w: Window, pairs: seq<DatePair>, outbound: int, inbound: int) {
    && InOrder(pairs)
    && (forall p :: p in pairs <==> Wanted(port, w, p) && Behind(p, outbound, inbound))
  }

  lemma CollectOne(port: Port, w: Window, pairs: seq<DatePair>, outbound: int, inbound: int)
    requires Collected(port, w, pairs, outbound, inbound)
    ensures
      var p := DatePair(outbound, inbound);
      Collected(port, w, if Wanted(port, w, p) then pairs + [p] else pairs, outbound, inbound + 1)
  {
    var p := DatePair(outbound, inbound);
    var more := if Wanted(port, w, p) then pairs + [p] else pairs;
    forall q ensures q in more <==> Wanted(port, w, q) && Behind(q, outbound, inbound + 1) {
    }
    forall i, j | 0 <= i < j < |more| ensures Before(more[i], more[j]) {
      assert more[i] in pairs;
    }
  }

  lemma NextOutbound(port: Port, w: Window, pairs: seq<DatePair>, outbound: int, inbound: int)
    requires Collected(port, w, pairs, outbound, inbound)
    requires forall p :: Wanted(port, w, p) && p.outbound == outbound ==> p.inbound < inbound
    requires forall p :: Wanted(port, w, p) && p.outbound == outbound + 1 ==> FirstInbound(w, outbound + 1) <= p.inbound
    ensures Collected(port, w, pairs, outbound + 1, FirstInbound(w, outbound + 1))
  {
    forall p | Wanted(port, w, p)
      ensures Behind(p, outbound, inbound) <==> Behind(p, outbound + 1, FirstInbound(w, outbound + 1))
    {
    }
  }

  /** At a position of the inner loop, only the trip length is left to check. */
  lemma WantedHere(port: Port, w: Window, outbound: int, inbound: int)
    requires ArgumentError(w).None? && StartDay(w) <= outbound <= w.outboundEnd
    requires FirstInbound(w, outbound) <= inbound <= LastInbound(port, w, outbound)
    ensures Wanted(port, w, DatePair(outbound, inbound)) <==> NightsAllowed(w, inbound - outbound)
  {
  }

  /** The inner loop runs over all wanted returns. */
  lemma WantedInside(port: Port, w: Window, outbound: int)
    requires ArgumentError(w).None?
    ensures forall p :: Wanted(port, w, p) && p.outbound == outbound ==>
      FirstInbound(w, outbound) <= p.inbound <= LastInbound(port, w, outbound)
  {
  }

  /** And the outer loop over all wanted departures. */
  lemma CollectedAll(port: Port, w: Window, pairs: seq<DatePair>, inbound: int)
    requires Collected(port, w, pairs, w.outboundEnd + 1, inbound)
    ensures AllTrips(port, w, pairs)
  {
  }

  lemma CollectedNone(port: Port, w: Window)
    ensures Collected(port, w, [], StartDay(w), FirstInbound(w, StartDay(w)))
  {
    forall p | Wanted(port, w, p) ensures !Behind(p, StartDay(w), FirstInbound(w, StartDay(w))) {
    }
  }

  /** All trips of the window, as one strictly sorted list. */
  ghost predicate AllTrips(port: Port, w: Window, pairs: seq<DatePair>) {
    InOrder(pairs) && forall p :: p in pairs <==> Wanted(port, w, p)
  }

  /** The list of all trips is unique, so its length is a property of the window alone. */
  lemma TripsAreUnique(a: seq<DatePair>, b: seq<DatePair>)
    requires InOrder(a) && InOrder(b) && forall p :: p in a <==> p in b
    ensures a == b
  {
    PairsAreOrdered();
    StrictListsAgree(Before, a, b);
  }

  /** Pairs in strict order are the only sorted arrangement of themselves, so sorting them is the identity. */
  lemma SortingChangesNothing(pairs: seq<DatePair>, sorted: seq<DatePair>)
    requires InOrder(pairs) && Sorted(Before, sorted) && multiset(sorted) == multiset(pairs)
    ensures sorted == pairs
  {
    PairsAreOrdered();
    assert Sorted(Before, pairs);
    SortedListsAgree(Before, sorted, pairs);
  }

  /**
   Success is exactly the sorted list of all wanted trips, within the ceiling;
   each failure happens exactly when its own condition holds.
   */
  method GeneratePairs(port: Port, w: Window) returns (r: Result<seq<DatePair>, WindowError>)
    ensures r.Success? ==> ArgumentError(w).None? && AllTrips(port, w, r.value) && 1 <= |r.value| <= w.maxCandidates
    ensures r.Failure? && r.error.NoPair? ==> ArgumentError(w).None? && forall p :: !Wanted(port, w, p)
    ensures r.Failure? && r.error.TooMany? ==>
      ArgumentError(w).None?
      && exists some :: InOrder(some) && |some| == w.maxCandidates + 1 && forall p :: p in some ==> Wanted(port, w, p)
    ensures r.Failure? && !r.error.NoPair? && !r.error.TooMany? ==> ArgumentError(w) == Some(r.error)
    ensures ArgumentError(w).Some? ==> r == Failure(ArgumentError(w).value)
    // the first of the conditions that fails, condition by condition
    ensures r == Failure(OutboundReversed) <==> w.outboundEnd < w.outboundStart
    ensures r == Failure(AllInPast) <==>
      w.outboundStart <= w.outboundEnd && w.notBefore.Some? && w.outboundEnd < w.notBefore.value
    ensures r == Failure(NoReturnRule) <==> HasDays(w) && w.returnStart == None && w.minNights == None
    ensures r == Failure(NightsReversed) <==>
      HasDays(w) && w.minNights.Some? && w.maxNights.Some? && w.maxNights.value < w.minNights.value
    ensures r == Failure(ReturnReversed) <==>
      && HasDays(w) && !(w.minNights.Some? && w.maxNights.Some? && w.maxNights.value < w.minNights.value)
      && w.returnStart.Some? && w.returnEnd.Some? && w.returnEnd.value < w.returnStart.value
  {
    ArgumentErrorIs(w);
    if w.outboundEnd < w.outboundStart {
      return Failure(OutboundReversed);
    }
    var startDay := w.outboundStart;
    if w.notBefore.Some? {
      startDay := Max(startDay, w.notBefore.value);
      if w.outboundEnd < startDay {
        return Failure(AllInPast);
      }
    }
    if w.returnStart.None? && w.minNights.None? {
      return Failure(NoReturnRule);
    }
    if w.minNights.Some? && w.maxNights.Some? && w.maxNights.value < w.minNights.value {
      return Failure(NightsReversed);
    }
    if w.returnStart.Some? && w.returnEnd.Some? && w.returnEnd.value < w.returnStart.value {
      return Failure(ReturnReversed);
    }

    var pairs: seq<DatePair> := [];
    var outbound := startDay;
    CollectedNone(port, w);
    while outbound <= w.outboundEnd
      invariant startDay <= outbound <= w.outboundEnd + 1
      invariant Collected(port, w, pairs, outbound, FirstInbound(w, outbound))
      invariant |pairs| <= w.maxCandidates
    {
      var inbound := FirstInbound(w, outbound);
      var last := LastInbound(port, w, outbound);
      while inbound <= last
        invariant FirstInbound(w, outbound) <= inbound <= Max(FirstInbound(w, outbound), last + 1)
        invariant Collected(port, w, pairs, outbound, inbound)
        invariant |pairs| <= w.maxCandidates
        decreases last - inbound
      {
        CollectOne(port, w, pairs, outbound, inbound);
        WantedHere(port, w, outbound, inbound);
        if NightsAllowed(w, inbound - outbound) {
          pairs := pairs + [DatePair(outbound, inbound)];
          if |pairs| > w.maxCandidates {
            assert InOrder(pairs) && forall p :: p in pairs ==> Wanted(port, w, p);
            return Failure(TooMany);
          }
        }
        inbound := inbound + 1;
      }
      WantedInside(port, w, outbound);
      WantedInside(port, w, outbound + 1);
      NextOutbound(port, w, pairs, outbound, inbound);
      outbound := outbound + 1;
    }
    CollectedAll(port, w, pairs, FirstInbound(w, outbound));
    if pairs == [] {
      assert forall p :: Wanted(port, w, p) ==> p in pairs;
      return Failure(NoPair);
    }
    return Success(pairs);
  }

  /** The only windows the two ports read differently. */
  predicate OpenEndedFromZero(w: Window) {
    !ByReturnWindow(w) && w.maxNights.None? && w.minNights.Some? && w.minNights.value <= 0
  }

  /** With consistent arguments the two ports want the same trips exactly outside that case. */
  lemma PortsAgreeExactly(w: Window)
    requires ArgumentError(w).None?
    ensures (forall p :: Wanted(Worker, w, p) == Wanted(Python, w, p)) <==> !OpenEndedFromZero(w)
  {
    if OpenEndedFromZero(w) {
      var p := DatePair(StartDay(w), StartDay(w) + 1);
      assert Wanted(Worker, w, p) && !Wanted(Python, w, p);
    }
  }

  /** In that case the Worker offers one-night trips where Python finds none. */
  lemma OpenEndedWindowsDiffer(w: Window, p: DatePair)
    requires ArgumentError(w).None? && OpenEndedFromZero(w)
    ensures Wanted(Worker, w, p) <==> StartDay(w) <= p.outbound <= w.outboundEnd && p.inbound == p.outbound + 1
    ensures !Wanted(Python, w, p)
  {
  }
}
