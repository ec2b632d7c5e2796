/**
 Which of a provider's offers are stored, and which is the best of a check
 (worker/src/services/search.ts, `persistOffers`).
 */
module Offers {
  import opened Prelude
  import opened Sorting

  const MAX_STORED_OFFERS: nat := 25

  datatype Offer = Offer(price: int, eligible: bool)

  /** An offer and its place in the provider's answer, which tells equal offers apart. */
  datatype Entry = Entry(place: nat, offer: Offer)

  datatype Row = Row(place: nat, offer: Offer, isBest: bool)

  function Assessed(offers: seq<Offer>): seq<Entry> {
    seq(|offers|, i requires 0 <= i < |offers| => Entry(i, offers[i]))
  }

  predicate Cheaper(a: Entry, b: Entry) {
    a.offer.price < b.offer.price
  }

  ghost predicate SortedByPrice(s: seq<Entry>) {
    Sorted(Cheaper, s)
  }

  /** The stable sort by price. */
  function SortByPrice(s: seq<Entry>): (r: seq<Entry>)
    ensures multiset(r) == multiset(s)
  {
    Sort(Cheaper, s)
  }

  /** The place of the first eligible entry, or the length when there is none. */
  function FirstEligible(s: seq<Entry>): (k: nat)
    ensures k <= |s| && (k < |s| ==> s[k].offer.eligible)
    ensures forall i :: 0 <= i < k ==> !s[i].offer.eligible
  {
    if s == [] || s[0].offer.eligible then 0 else 1 + FirstEligible(s[1..])
  }

  predicate HasEligible(offers: seq<Offer>) {
    exists i :: 0 <= i < |offers| && offers[i].eligible
  }

  /** `price` is the cheapest eligible price of the offers. */
  ghost predicate IsCheapest(offers: seq<Offer>, price: int) {
    && (exists i :: 0 <= i < |offers| && offers[i].eligible && offers[i].price == price)
    && forall i :: 0 <= i < |offers| && offers[i].eligible ==> price <= offers[i].price
  }

  /** What the rows stored for a list of offers have to be. */
  ghost predicate StoresWell(offers: seq<Offer>, rows: seq<Row>) {
    && |rows| == Min(|offers|, 25)
    && (forall i :: 0 <= i < |rows| ==> rows[i].place < |offers| && rows[i].offer == offers[rows[i].place])
    && (forall i, j :: 0 <= i < j < |rows| ==>
      rows[i].place != rows[j].place && rows[i].offer.price <= rows[j].offer.price)
    // exactly one row is the best, if there is an eligible offer at all; it is the cheapest of those
    && (HasEligible(offers) <==> exists i :: 0 <= i < |rows| && rows[i].isBest)
    && (forall i, j :: 0 <= i < j < |rows| ==> !(rows[i].isBest && rows[j].isBest))
    && (forall i :: 0 <= i < |rows| && rows[i].isBest ==>
      rows[i].offer.eligible && IsCheapest(offers, rows[i].offer.price))
    // but for the best row, nothing cheaper is left out
    && (forall i, p ::
      0 <= i < |rows| && !rows[i].isBest && 0 <= p < |offers| && offers[p].price < rows[i].offer.price ==>
          exists j :: 0 <= j < |rows| && rows[j].place == p)
  }

  function Truncated(s: seq<Entry>): seq<Entry> {
    s[..Min(|s|, MAX_STORED_OFFERS)]
  }

  /** The stored entries: the cheapest ones, of which the last makes way for a best that is not among them. */
  function Chosen(s: seq<Entry>): seq<Entry>
    requires s != []
  {
    var kept, best := Truncated(s), FirstEligible(s);
    if best < |s| && s[best] !in kept then SortByPrice(kept[|kept| - 1 := s[best]]) else kept
  }

  /** The first place of the entry, or -1. */
  function IndexOf(s: seq<Entry>, e: Entry): (k: int)
    ensures -1 <= k < |s| && (k == -1 <==> e !in s)
    ensures k >= 0 ==> s[k] == e && forall i :: 0 <= i < k ==> s[i] != e
  {
    if s == [] then -1
    else if s[0] == e then 0
    else
      var k := IndexOf(s[1..], e);
      if k == -1 then -1 else k + 1
  }

  function RowsOf(kept: seq<Entry>, bestIndex: int): seq<Row> {
    seq(|kept|, i requires 0 <= i < |kept| => Row(kept[i].place, kept[i].offer, i == bestIndex))
  }

  ghost predicate IsArrangement(offers: seq<Offer>, s: seq<Entry>) {
    SortedByPrice(s) && multiset(s) == multiset(Assessed(offers))
  }

  predicate Places(s: seq<Entry>, p: nat) {
    exists i :: 0 <= i < |s| && s[i].place == p
  }

  lemma ArrangementIsExact(offers: seq<Offer>, s: seq<Entry>)
    requires IsArrangement(offers, s)
    ensures |s| == |offers|
    ensures forall i :: 0 <= i < |s| ==> s[i].place < |offers| && s[i].offer == offers[s[i].place]
    ensures forall i, j :: 0 <= i < j < |s| ==> s[i].place != s[j].place
    ensures forall p: nat :: p < |offers| ==> Places(s, p)
  {
    var a := Assessed(offers);
    assert |multiset(s)| == |multiset(a)|;
    forall i | 0 <= i < |s| ensures s[i].place < |offers| && s[i] == a[s[i].place] {
      assert s[i] in multiset(s);
      assert s[i] in a;
    }
    forall p: nat | p < |offers| ensures Places(s, p) {
      assert a[p] in multiset(a);
      assert a[p] in s;
    }
    forall i, j | 0 <= i < j < |s| ensures s[i].place != s[j].place {
      if s[i].place == s[j].place {
        Twice(s, i, j);
        Once(offers, s[i].place);
      }
    }
  }

  lemma Twice(s: seq<Entry>, i: nat, j: nat)
    requires i < j < |s| && s[i] == s[j]
    ensures multiset(s)[s[i]] >= 2
  {
    assert s == s[..i] + [s[i]] + s[i + 1..j] + [s[j]] + s[j + 1..];
  }

  lemma Once(offers: seq<Offer>, p: nat)
    requires p < |offers|
    ensures multiset(Assessed(offers))[Entry(p, offers[p])] == 1
  {
    var a := Assessed(offers);
    assert a == a[..p] + [a[p]] + a[p + 1..];
  }

  lemma InTruncated(s: seq<Entry>, i: nat)
    ensures i < |Truncated(s)| ==> s[i] in Truncated(s)
  {
    if i < |Truncated(s)| {
      assert Truncated(s)[i] == s[i];
    }
  }

  /** Putting the best in the last place leaves the prices in order: it was not among the kept, so it is no cheaper. */
  lemma BestGoesLast(s: seq<Entry>, best: nat)
    requires SortedByPrice(s) && best < |s| && s[best] !in Truncated(s)
    ensures best >= MAX_STORED_OFFERS == |Truncated(s)|
    ensures SortedByPrice(Truncated(s)[MAX_STORED_OFFERS - 1 := s[best]])
  {
    InTruncated(s, best);
  }

  /** Where an offer stands in the price order. */
  lemma PlaceIn(offers: seq<Offer>, s: seq<Entry>, p: nat) returns (i: nat)
    requires IsArrangement(offers, s) && p < |offers|
    ensures i < |s| && s[i] == Entry(p, offers[p])
  {
    var a := Assessed(offers);
    assert a[p] in multiset(a);
    i :| i < |s| && s[i] == a[p];
  }

  lemma {:induction false} EligibleFrom(s: seq<Entry>, i: nat)
    requires SortedByPrice(s) && i < |s| && s[i].offer.eligible
    ensures FirstEligible(s) <= i && s[FirstEligible(s)].offer.price <= s[i].offer.price
  {
    if FirstEligible(s) < i {
      assert !Cheaper(s[i], s[FirstEligible(s)]);
    }
  }

  /** No eligible offer is cheaper than the first eligible one in price order. */
  lemma {:induction false} FirstIsCheaper(offers: seq<Offer>, s: seq<Entry>, p: nat)
    requires IsArrangement(offers, s) && p < |offers| && offers[p].eligible
    ensures FirstEligible(s) < |s| && s[FirstEligible(s)].offer.price <= offers[p].price
  {
    var i := PlaceIn(offers, s, p);
    EligibleFrom(s, i);
  }

  lemma {:induction false} FirstEligibleIsCheapest(offers: seq<Offer>, s: seq<Entry>)
    requires IsArrangement(offers, s)
    ensures FirstEligible(s) < |s| <==> HasEligible(offers)
    ensures FirstEligible(s) < |s| ==> IsCheapest(offers, s[FirstEligible(s)].offer.price)
  {
    var k := FirstEligible(s);
    forall p: nat | p < |offers| && offers[p].eligible ensures k < |s| && s[k].offer.price <= offers[p].price {
      FirstIsCheaper(offers, s, p);
    }
    if k < |s| {
      ArrangementIsExact(offers, s);
      assert offers[s[k].place].eligible && offers[s[k].place] == s[k].offer;
    }
  }

  /** The rows made of what was chosen. */
  function RowsFor(s: seq<Entry>): seq<Row>
    requires s != []
  {
    var best := FirstEligible(s);
    RowsOf(Chosen(s), if best < |s| then IndexOf(Chosen(s), s[best]) else -1)
  }

  /** The first eligible entry is no other entry before it. */
  lemma NotBeforeFirst(s: seq<Entry>)
    ensures |Truncated(s)| <= FirstEligible(s) < |s| ==> s[FirstEligible(s)] !in Truncated(s)
  {
    var best := FirstEligible(s);
    if |Truncated(s)| <= best < |s| {
      forall j | 0 <= j < |Truncated(s)| ensures Truncated(s)[j] != s[best] {
        assert !s[j].offer.eligible;
      }
    }
  }

  lemma TruncatedIs(s: seq<Entry>)
    ensures |Truncated(s)| == Min(|s|, MAX_STORED_OFFERS)
    ensures forall i :: 0 <= i < |Truncated(s)| ==> Truncated(s)[i] == s[i]
  {
  }

  /** The best is among the kept, or there is none: these are the chosen. */
  lemma ChosenAsKept(s: seq<Entry>)
    requires s != [] && !(|Truncated(s)| <= FirstEligible(s) < |s|)
    ensures Chosen(s) == Truncated(s)
  {
    InTruncated(s, FirstEligible(s));
  }

  /** Otherwise the best takes the last place. */
  lemma {:induction false} ChosenWithBest(s: seq<Entry>)
    requires s != [] && SortedByPrice(s) && |Truncated(s)| <= FirstEligible(s) < |s|
    ensures Chosen(s) == Truncated(s)[|Truncated(s)| - 1 := s[FirstEligible(s)]]
  {
    NotBeforeFirst(s);
    BestGoesLast(s, FirstEligible(s));
    SortOfSorted(Cheaper, Truncated(s)[|Truncated(s)| - 1 := s[FirstEligible(s)]]);
  }

  lemma {:induction false} ChosenWithin(s: seq<Entry>)
    requires s != [] && SortedByPrice(s)
    ensures
      var best, n, c := FirstEligible(s), |Truncated(s)|, Chosen(s);
      && |c| == n == Min(|s|, MAX_STORED_OFFERS)
      && (forall i :: 0 <= i < n - 1 ==> c[i] == s[i])
      && c[n - 1] == if best < |s| && best >= n then s[best] else s[n - 1]
  {
    TruncatedIs(s);
    if |Truncated(s)| <= FirstEligible(s) < |s| {
      ChosenWithBest(s);
    } else {
      ChosenAsKept(s);
    }
  }

  /** Where in the sorted offers the i-th chosen one stands. */
  function Source(s: seq<Entry>, i: nat): nat
    requires s != []
  {
    var best, n := FirstEligible(s), |Truncated(s)|;
    if i + 1 == n && n <= best < |s| then best else i
  }

  lemma {:induction false} ChosenFrom(s: seq<Entry>, i: nat)
    requires s != [] && SortedByPrice(s) && i < |Truncated(s)|
    ensures |Chosen(s)| == |RowsFor(s)| == |Truncated(s)| == Min(|s|, MAX_STORED_OFFERS)
    ensures i <= Source(s, i) < |s| && Chosen(s)[i] == s[Source(s, i)]
    ensures RowsFor(s)[i].place == s[Source(s, i)].place && RowsFor(s)[i].offer == s[Source(s, i)].offer
  {
    ChosenWithin(s);
  }

  lemma {:induction false} BestRow(offers: seq<Offer>, s: seq<Entry>, i: nat)
    requires s != [] && IsArrangement(offers, s) && i < |Truncated(s)|
    ensures i < |RowsFor(s)| && (RowsFor(s)[i].isBest <==> Source(s, i) == FirstEligible(s))
    ensures !RowsFor(s)[i].isBest ==> Source(s, i) == i
  {
    ChosenFrom(s, i);
    ArrangementIsExact(offers, s);
    var best, n := FirstEligible(s), |Truncated(s)|;
    if best < |s| {
      var place := if best < n then best else n - 1;
      ChosenFrom(s, place);
      var k := IndexOf(Chosen(s), s[best]);
      if k >= 0 {
        ChosenFrom(s, k);
      }
    }
  }

  lemma SomeRowIsBest(offers: seq<Offer>, s: seq<Entry>)
    requires s != [] && IsArrangement(offers, s)
    ensures HasEligible(offers) <==> exists i :: 0 <= i < |RowsFor(s)| && RowsFor(s)[i].isBest
  {
    var best, n := FirstEligible(s), |Truncated(s)|;
    FirstEligibleIsCheapest(offers, s);
    ChosenFrom(s, 0);
    if best < |s| {
      BestRow(offers, s, if best < n then best else n - 1);
    }
    if i :| 0 <= i < |RowsFor(s)| && RowsFor(s)[i].isBest {
      BestRow(offers, s, i);
      ChosenFrom(s, i);
    }
  }

  lemma NothingCheaperLeftOut(offers: seq<Offer>, s: seq<Entry>, i: nat, p: nat)
    requires s != [] && IsArrangement(offers, s) && i < |RowsFor(s)| == |Truncated(s)| && !RowsFor(s)[i].isBest
    requires p < |offers| && offers[p].price < RowsFor(s)[i].offer.price
    ensures exists j :: 0 <= j < |RowsFor(s)| && RowsFor(s)[j].place == p
  {
    ArrangementIsExact(offers, s);
    assert Places(s, p);
    var k :| 0 <= k < |s| && s[k].place == p;
    ChosenFrom(s, i);
    BestRow(offers, s, i);
    assert k < i;
    ChosenFrom(s, k);
  }

  lemma RowsInOrder(offers: seq<Offer>, s: seq<Entry>, i: nat, j: nat)
    requires s != [] && IsArrangement(offers, s) && i < j < |Truncated(s)| == |RowsFor(s)|
    ensures RowsFor(s)[i].place != RowsFor(s)[j].place && RowsFor(s)[i].offer.price <= RowsFor(s)[j].offer.price
    ensures !(RowsFor(s)[i].isBest && RowsFor(s)[j].isBest)
  {
    ArrangementIsExact(offers, s);
    ChosenFrom(s, i);
    ChosenFrom(s, j);
    BestRow(offers, s, i);
    BestRow(offers, s, j);
    assert Source(s, i) == i < j <= Source(s, j);
  }

  lemma RowIsOffer(offers: seq<Offer>, s: seq<Entry>, i: nat)
    requires s != [] && IsArrangement(offers, s) && i < |RowsFor(s)|
    ensures |RowsFor(s)| == Min(|offers|, MAX_STORED_OFFERS)
    ensures
      var row := RowsFor(s)[i];
      && row.place < |offers| && row.offer == offers[row.place]
      && (row.isBest ==> row.offer.eligible && IsCheapest(offers, row.offer.price))
  {
    ArrangementIsExact(offers, s);
    ChosenWithin(s);
    ChosenFrom(s, i);
    if RowsFor(s)[i].isBest {
      BestRow(offers, s, i);
      FirstEligibleIsCheapest(offers, s);
    }
  }

  lemma RowsAreOffers(offers: seq<Offer>, s: seq<Entry>)
    requires s != [] && IsArrangement(offers, s)
    ensures
      var rows := RowsFor(s);
      && |rows| == Min(|offers|, MAX_STORED_OFFERS)
      && (forall i :: 0 <= i < |rows| ==> rows[i].place < |offers| && rows[i].offer == offers[rows[i].place])
      && (forall i :: 0 <= i < |rows| && rows[i].isBest ==>
        rows[i].offer.eligible && IsCheapest(offers, rows[i].offer.price))
  {
    ChosenFrom(s, 0);
    RowIsOffer(offers, s, 0);
    forall i | 0 <= i < |RowsFor(s)|
      ensures
        var row := RowsFor(s)[i];
        && row.place < |offers| && row.offer == offers[row.place]
        && (row.isBest ==> row.offer.eligible && IsCheapest(offers, row.offer.price))
    {
      RowIsOffer(offers, s, i);
    }
  }

  lemma NothingCheaperIsLeftOut(offers: seq<Offer>, s: seq<Entry>)
    requires s != [] && IsArrangement(offers, s) && |RowsFor(s)| == |Truncated(s)|
    ensures
      var rows := RowsFor(s);
      forall i, p ::
        0 <= i < |rows| && !rows[i].isBest && 0 <= p < |offers| && offers[p].price < rows[i].offer.price ==>
          exists j :: 0 <= j < |rows| && rows[j].place == p
  {
    var rows := RowsFor(s);
    forall i, p | 0 <= i < |rows| && !rows[i].isBest && 0 <= p < |offers| && offers[p].price < rows[i].offer.price
      ensures exists j :: 0 <= j < |rows| && rows[j].place == p
    {
      NothingCheaperLeftOut(offers, s, i, p);
    }
  }

  /**
   However the offers are priced: at most 25 rows, in price order, one of them best exactly
   when an offer is eligible.
   */
  lemma {:induction false} RowsStoreWell(offers: seq<Offer>, s: seq<Entry>)
    requires s != [] && IsArrangement(offers, s)
    ensures StoresWell(offers, RowsFor(s))
  {
    var rows := RowsFor(s);
    SomeRowIsBest(offers, s);
    ChosenFrom(s, 0);
    RowsAreOffers(offers, s);
    forall i, j | 0 <= i < j < |rows|
      ensures rows[i].place != rows[j].place && rows[i].offer.price <= rows[j].offer.price
      ensures !(rows[i].isBest && rows[j].isBest)
    {
      RowsInOrder(offers, s, i, j);
    }
    NothingCheaperIsLeftOut(offers, s);
  }

  // ------------------------------------------------------------------ a check

  /** The offers of all executed units, one after the other. */
  function AllOffers(units: seq<seq<Offer>>): seq<Offer> {
    if units == [] then [] else AllOffers(units[..|units| - 1]) + units[|units| - 1]
  }

  ghost predicate IsStored(price: Option<int>, observation: Option<nat>, observations: seq<Row>) {
    && (observation.Some? <==> price.Some?)
    && (price.Some? ==>
          && observation.value < |observations| && observations[observation.value].isBest
          && observations[observation.value].offer.price == price.value)
  }

  lemma StillStored(price: Option<int>, observation: Option<nat>, observations: seq<Row>, rows: seq<Row>)
    requires IsStored(price, observation, observations)
    ensures IsStored(price, observation, observations + rows)
  {
  }

  predicate Extends(before: seq<Row>, after: seq<Row>) {
    |before| <= |after| && after[..|before|] == before
  }

  lemma Appended(observations: seq<Row>, rows: seq<Row>)
    ensures Extends(observations, observations + rows) && (observations + rows)[|observations|..] == rows
    ensures rows == [] ==> observations + rows == observations
  {
  }

  lemma NowStored(observations: seq<Row>, rows: seq<Row>, k: nat)
    requires k < |rows| && rows[k].isBest
    ensures IsStored(Some(rows[k].offer.price), Some(|observations| + k), observations + rows)
  {
    assert (observations + rows)[|observations| + k] == rows[k];
  }

  class Check {
    var bestPrice: Option<int>
    var bestObservation: Option<nat>
    var observations: seq<Row>

    /** The best price is the cheapest eligible one of the offers seen, and its observation is the row stored for it. */
    ghost predicate Knows(offers: seq<Offer>)
      reads this
    {
      Cheapest(offers, bestPrice) && IsStored(bestPrice, bestObservation, observations)
    }

    constructor ()
      ensures Knows([]) && observations == []
    {
      bestPrice, bestObservation, observations := None, None, [];
    }

    /** Stores the offers of one unit, and takes its best when it is strictly cheaper than that of the units before. */
    method PersistOffers(offers: seq<Offer>, ghost seen: seq<Offer>)
      requires Knows(seen)
      modifies this
      ensures Knows(seen + offers)
      ensures Extends(old(observations), observations)
      ensures offers == [] ==> observations == old(observations)
      ensures offers != [] ==> StoresWell(offers, observations[|old(observations)|..])
      ensures old(bestPrice).Some? && bestPrice == old(bestPrice) ==> bestObservation == old(bestObservation)
    {
      var rows, bestIndex := ChooseRows(offers);
      var price, observation := bestPrice, bestObservation;
      if bestIndex >= 0 {
        var best := rows[bestIndex].offer.price;
        if price.None? || best < price.value {
          price, observation := Some(best), Some(|observations| + bestIndex);
        }
      }
      KnowsBoth(seen, offers, bestPrice, bestObservation, observations, rows, bestIndex, price, observation);
      Appended(observations, rows);
      bestPrice, bestObservation, observations := price, observation, observations + rows;
    }
  }

  /** What is known after one more unit, whose best row is given. */
  lemma KnowsBoth(
    seen: seq<Offer>, offers: seq<Offer>, price0: Option<int>, observation0: Option<nat>, observations: seq<Row>,
    rows: seq<Row>, bestIndex: int, price: Option<int>, observation: Option<nat>)
    requires Cheapest(seen, price0) && IsStored(price0, observation0, observations)
    requires -1 <= bestIndex < |rows| && (bestIndex >= 0 <==> HasEligible(offers))
    requires bestIndex >= 0 ==> rows[bestIndex].isBest && IsCheapest(offers, rows[bestIndex].offer.price)
    requires
      if bestIndex >= 0 && (price0.None? || rows[bestIndex].offer.price < price0.value)
      then price == Some(rows[bestIndex].offer.price) && observation == Some(|observations| + bestIndex)
      else price == price0 && observation == observation0
    ensures Cheapest(seen + offers, price) && IsStored(price, observation, observations + rows)
  {
    CheapestOfBoth(seen, offers, price0, if bestIndex < 0 then None else Some(rows[bestIndex].offer.price));
    StillStored(price0, observation0, observations, rows);
    if bestIndex >= 0 {
      NowStored(observations, rows, bestIndex);
    }
  }

  /** The place among the stored rows of the best, or -1. */
  function BestIndex(s: seq<Entry>): int
    requires s != []
  {
    if FirstEligible(s) < |s| then IndexOf(Chosen(s), s[FirstEligible(s)]) else -1
  }

  lemma {:induction false} BestIndexIsBest(offers: seq<Offer>, s: seq<Entry>)
    requires s != [] && IsArrangement(offers, s)
    ensures
      var k, rows := BestIndex(s), RowsFor(s);
      && -1 <= k < |rows| && (k >= 0 <==> HasEligible(offers))
      && (k >= 0 ==> rows[k].isBest && IsCheapest(offers, rows[k].offer.price))
  {
    FirstEligibleIsCheapest(offers, s);
    SomeRowIsBest(offers, s);
    if BestIndex(s) >= 0 {
      RowIsOffer(offers, s, BestIndex(s));
    }
  }

  /** The rows to store for one unit, and which of them is the best. */
  method ChooseRows(offers: seq<Offer>) returns (rows: seq<Row>, bestIndex: int)
    ensures offers == [] ==> rows == []
    ensures offers != [] ==> StoresWell(offers, rows)
    ensures -1 <= bestIndex < |rows| && (bestIndex >= 0 <==> HasEligible(offers))
    ensures bestIndex >= 0 ==> rows[bestIndex].isBest && IsCheapest(offers, rows[bestIndex].offer.price)
  {
    var assessed := SortByPrice(Assessed(offers));
    SortSorts(Cheaper, Assessed(offers));
    assert |multiset(assessed)| == |multiset(Assessed(offers))|;
    if assessed == [] {
      return [], -1;
    }
    var bestEligible := FirstEligible(assessed);
    var found := bestEligible < |assessed|;
    var kept := Truncated(assessed);
    if found && assessed[bestEligible] !in kept {
      kept := kept[|kept| - 1 := assessed[bestEligible]];
      kept := SortByPrice(kept);
    }
    bestIndex := if found then IndexOf(kept, assessed[bestEligible]) else -1;
    rows := RowsOf(kept, bestIndex);
    assert kept == Chosen(assessed) && bestIndex == BestIndex(assessed) && rows == RowsFor(assessed);
    RowsStoreWell(offers, assessed);
    BestIndexIsBest(offers, assessed);
  }

  ghost predicate Cheapest(offers: seq<Offer>, x: Option<int>) {
    (x.Some? <==> HasEligible(offers)) && (x.Some? ==> IsCheapest(offers, x.value))
  }

  /** The cheapest of two lists, told from the cheapest of each. */
  lemma CheapestOfBoth(a: seq<Offer>, b: seq<Offer>, x: Option<int>, y: Option<int>)
    requires Cheapest(a, x) && Cheapest(b, y)
    ensures Cheapest(a + b, if x.None? then y else if y.None? then x else Some(Min(x.value, y.value)))
  {
    var z := if x.None? then y else if y.None? then x else Some(Min(x.value, y.value));
    forall i | 0 <= i < |a + b| && (a + b)[i].eligible ensures z.Some? && z.value <= (a + b)[i].price {
      if i < |a| {
        assert (a + b)[i] == a[i];
      } else {
        assert (a + b)[i] == b[i - |a|];
      }
    }
    if z.Some? {
      if x.Some? && z == x {
        var i :| 0 <= i < |a| && a[i].eligible && a[i].price == z.value;
        assert (a + b)[i] == a[i];
      } else {
        var i :| 0 <= i < |b| && b[i].eligible && b[i].price == z.value;
        assert (a + b)[|a| + i] == b[i];
      }
    }
  }

  /** Whatever the units answer, the check ends with the cheapest eligible offer of them all. */
  method ExecuteUnits(units: seq<seq<Offer>>) returns (check: Check)
    ensures fresh(check) && check.Knows(AllOffers(units))
  {
    check := new Check();
    for i := 0 to |units|
      invariant fresh(check) && check.Knows(AllOffers(units[..i]))
    {
      assert units[..i + 1][..i] == units[..i];
      check.PersistOffers(units[i], AllOffers(units[..i]));
    }
    assert units[..|units|] == units;
  }
}
