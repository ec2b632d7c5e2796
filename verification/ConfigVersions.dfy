/**
 Which settings define a comparison series, and when a tracker starts a new one
 (worker/src/services/tracker.ts, `comparisonPayload` and `ensureConfigVersion`).
 */
module ConfigVersions {
  import opened Prelude
  import opened DecimalText
  import opened Canonical
  import opened CanonicalMeaning
  import opened Fingerprints
  import opened Sorting
  import Series

  const COMPARISON_FIELDS: seq<Text> := [
    Units("origin"), Units("destination"), Units("adults"), Units("children"), Units("infants_in_seat"),
    Units("infants_on_lap"), Units("cabin"), Units("stops"), Units("include_airlines"), Units("exclude_airlines"),
    Units("currency"), Units("date_mode"), Units("outbound_date"), Units("return_date"), Units("flex_month"),
    Units("flex_year"), Units("flex_duration"), Units("window_outbound_start"), Units("window_outbound_end"),
    Units("window_return_start"), Units("window_return_end"), Units("min_nights"), Units("max_nights")]

  const MARKETS := Units("markets")

  /** Enough of a name to tell it from the others: its length, its second letter and its last one. */
  datatype Mark = Mark(length: nat, second: int, last: int)

  function MarkOf(s: Text): Mark {
    if |s| < 2 then Mark(|s|, 0, 0) else Mark(|s|, s[1], s[|s| - 1])
  }

  function MarkWith(length: nat, second: char, last: char): Mark {
    Mark(length, second as int, last as int)
  }

  const MARKS: seq<Mark> := [
    MarkWith(6, 'r', 'n'), MarkWith(11, 'e', 'n'), MarkWith(6, 'd', 's'), MarkWith(8, 'h', 'n'), MarkWith(15, 'n', 't'),
    MarkWith(14, 'n', 'p'), MarkWith(5, 'a', 'n'), MarkWith(5, 't', 's'), MarkWith(16, 'n', 's'),
    MarkWith(16, 'x', 's'),
    MarkWith(8, 'u', 'y'), MarkWith(9, 'a', 'e'), MarkWith(13, 'u', 'e'), MarkWith(11, 'e', 'e'),
    MarkWith(10, 'l', 'h'),
    MarkWith(9, 'l', 'r'), MarkWith(13, 'l', 'n'), MarkWith(21, 'i', 't'), MarkWith(19, 'i', 'd'),
    MarkWith(19, 'i', 't'), MarkWith(17, 'i', 'd'), MarkWith(10, 'i', 's'), MarkWith(10, 'a', 's')]

  lemma FirstMarks()
    ensures forall i :: 0 <= i < 12 ==> MarkOf(COMPARISON_FIELDS[i]) == MARKS[i]
  {
  }

  lemma LastMarks()
    ensures forall i :: 12 <= i < |COMPARISON_FIELDS| ==> MarkOf(COMPARISON_FIELDS[i]) == MARKS[i]
  {
  }

  lemma MarksDiffer()
    ensures |MARKS| == |COMPARISON_FIELDS| && forall i, j :: 0 <= i < j < |MARKS| ==> MARKS[i] != MARKS[j]
  {
  }

  lemma FieldsDiffer(i: nat, j: nat)
    requires i < j < |COMPARISON_FIELDS|
    ensures COMPARISON_FIELDS[i] != COMPARISON_FIELDS[j]
  {
    MarksDiffer();
    FirstMarks();
    LastMarks();
    assert MarkOf(COMPARISON_FIELDS[i]) == MARKS[i] && MarkOf(COMPARISON_FIELDS[j]) == MARKS[j];
  }

  lemma MarketsDiffers()
    ensures forall i :: 0 <= i < |COMPARISON_FIELDS| ==> |COMPARISON_FIELDS[i]| != |MARKETS|
  {
  }

  // ------------------------------------------------------------ sorted markets

  /** The default order of strings: by code unit. */
  predicate TextBefore(a: Text, b: Text) {
    Before(a, b)
  }

  lemma TextsAreOrdered()
    ensures IsOrder(TextBefore) && IsTotal(TextBefore)
  {
    forall a: Text, b: Text ensures TextBefore(a, b) || TextBefore(b, a) || a == b
      ensures TextBefore(a, b) ==> !TextBefore(b, a)
    {
      BeforeIsTotal(a, b);
    }
    forall a: Text, b: Text, c: Text | !TextBefore(b, a) && !TextBefore(c, b) ensures !TextBefore(c, a) {
      BeforeIsTotal(a, b);
      if TextBefore(c, a) && a != b {
        BeforeIsTransitive(c, a, b);
      }
    }
  }

  function SortTexts(s: seq<Text>): (r: seq<Text>)
    ensures multiset(r) == multiset(s)
  {
    Sort(TextBefore, s)
  }

  lemma SortedAlikeIff(a: seq<Text>, b: seq<Text>)
    ensures SortTexts(a) == SortTexts(b) <==> multiset(a) == multiset(b)
  {
    TextsAreOrdered();
    SortSorts(TextBefore, a);
    SortSorts(TextBefore, b);
    if multiset(a) == multiset(b) {
      SortedListsAgree(TextBefore, SortTexts(a), SortTexts(b));
    }
  }

  // ------------------------------------------------------------- series keys

  /** A tracker's settings: the value of each comparison field, and its markets in any order. */
  datatype Settings = Settings(fields: seq<Json>, markets: seq<Text>)
  {
    ghost predicate Valid() {
      |fields| == |COMPARISON_FIELDS| && forall i :: 0 <= i < |fields| ==> Finite(fields[i])
    }
  }

  function Strings(s: seq<Text>): Json {
    Arr(seq(|s|, i requires 0 <= i < |s| => Str(s[i])))
  }

  function FieldEntries(fields: seq<Json>): seq<Entry>
    requires |fields| <= |COMPARISON_FIELDS|
  {
    seq(|fields|, i requires 0 <= i < |fields| => Entry(COMPARISON_FIELDS[i], fields[i]))
  }

  function PayloadOf(s: Settings): seq<Entry>
    requires |s.fields| == |COMPARISON_FIELDS|
  {
    FieldEntries(s.fields) + [Entry(MARKETS, Strings(SortTexts(s.markets)))]
  }

  method ComparisonPayload(s: Settings) returns (payload: seq<Entry>)
    requires |s.fields| == |COMPARISON_FIELDS|
    ensures payload == PayloadOf(s)
  {
    payload := [];
    for i := 0 to |COMPARISON_FIELDS|
      invariant payload == FieldEntries(s.fields[..i])
    {
      payload := payload + [Entry(COMPARISON_FIELDS[i], s.fields[i])];
    }
    assert s.fields[..|COMPARISON_FIELDS|] == s.fields;
    payload := payload + [Entry(MARKETS, Strings(SortTexts(s.markets)))];
  }

  lemma PayloadIsProper(s: Settings)
    requires s.Valid()
    ensures DistinctKeys(PayloadOf(s)) && Finite(Obj(PayloadOf(s)))
  {
    var p := PayloadOf(s);
    forall i, j | 0 <= i < j < |p| ensures p[i].key != p[j].key {
      if j < |COMPARISON_FIELDS| {
        FieldsDiffer(i, j);
      } else {
        MarketsDiffers();
      }
    }
  }

  /** The text hashed into the fingerprint of a series. */
  function SeriesKey(s: Settings): Result<Text, RangeError>
    requires |s.fields| == |COMPARISON_FIELDS|
  {
    Encode(Obj(PayloadOf(s)))
  }

  ghost predicate SameSettings(a: Settings, b: Settings)
    requires |a.fields| == |b.fields|
  {
    SameFields(a.fields, b.fields) && multiset(a.markets) == multiset(b.markets)
  }

  lemma StringsAgree(a: seq<Text>, b: seq<Text>)
    ensures Normal(Strings(a)) == Normal(Strings(b)) <==> a == b
  {
    NormalStrings(a);
    NormalStrings(b);
    if Strings(a) == Strings(b) {
      var ia, ib := Strings(a).items, Strings(b).items;
      assert |a| == |ia| == |ib| == |b|;
      forall i | 0 <= i < |a| ensures a[i] == b[i] {
        assert ia[i] == Str(a[i]) && ib[i] == Str(b[i]);
      }
    }
  }

  lemma NormalStrings(a: seq<Text>)
    ensures Normal(Strings(a)) == Strings(a)
  {
    var items := Strings(a).items;
    forall i | 0 <= i < |items| ensures Normal(items[i]) == items[i] {
      assert items[i] == Str(a[i]);
    }
    assert Normal(Arr(items)).items == items;
  }

  lemma PayloadValues(s: Settings)
    requires s.Valid()
    ensures |PayloadOf(s)| == |s.fields| + 1
    ensures forall i :: 0 <= i < |s.fields| ==> PayloadOf(s)[i] == Entry(COMPARISON_FIELDS[i], s.fields[i])
    ensures PayloadOf(s)[|s.fields|] == Entry(MARKETS, Strings(SortTexts(s.markets)))
  {
  }

  ghost predicate SameFields(fa: seq<Json>, fb: seq<Json>)
    requires |fa| == |fb|
  {
    forall i :: 0 <= i < |fa| ==> Normal(fa[i]) == Normal(fb[i])
  }

  lemma ValueAgrees(pa: seq<Entry>, pb: seq<Entry>, i: nat)
    requires |pa| == |pb| && SameValues(pa, pb) && i < |pa|
    ensures Normal(pa[i].value) == Normal(pb[i].value)
  {
  }

  /** The entries of a payload with the given values: those of the fields, and that of the markets. */
  ghost predicate HasValues(p: seq<Entry>, fields: seq<Json>, markets: Json) {
    |p| == |fields| + 1 && p[|fields|].value == markets && forall i :: 0 <= i < |fields| ==> p[i].value == fields[i]
  }

  lemma ValuesToFields(pa: seq<Entry>, pb: seq<Entry>, fa: seq<Json>, fb: seq<Json>, ma: Json, mb: Json)
    requires HasValues(pa, fa, ma) && HasValues(pb, fb, mb) && |fa| == |fb| && SameValues(pa, pb)
    ensures SameFields(fa, fb) && Normal(ma) == Normal(mb)
  {
    forall i | 0 <= i < |fa| ensures Normal(fa[i]) == Normal(fb[i]) {
      ValueAgrees(pa, pb, i);
    }
    ValueAgrees(pa, pb, |fa|);
  }

  lemma FieldToValue(pa: seq<Entry>, pb: seq<Entry>, fa: seq<Json>, fb: seq<Json>, ma: Json, mb: Json, i: nat)
    requires HasValues(pa, fa, ma) && HasValues(pb, fb, mb) && |fa| == |fb| && i <= |fa|
    requires SameFields(fa, fb) && Normal(ma) == Normal(mb)
    ensures Normal(pa[i].value) == Normal(pb[i].value)
  {
    if i < |fa| {
      assert pa[i].value == fa[i] && pb[i].value == fb[i];
    }
  }

  lemma FieldsToValues(pa: seq<Entry>, pb: seq<Entry>, fa: seq<Json>, fb: seq<Json>, ma: Json, mb: Json)
    requires HasValues(pa, fa, ma) && HasValues(pb, fb, mb) && |fa| == |fb|
    requires SameFields(fa, fb) && Normal(ma) == Normal(mb)
    ensures SameValues(pa, pb)
  {
    forall i | 0 <= i < |pa| ensures Normal(pa[i].value) == Normal(pb[i].value) {
      FieldToValue(pa, pb, fa, fb, ma, mb, i);
    }
  }

  lemma ValuesAgree(pa: seq<Entry>, pb: seq<Entry>, fa: seq<Json>, fb: seq<Json>, ma: Json, mb: Json)
    requires HasValues(pa, fa, ma) && HasValues(pb, fb, mb) && |fa| == |fb|
    ensures SameValues(pa, pb) <==> SameFields(fa, fb) && Normal(ma) == Normal(mb)
  {
    if SameValues(pa, pb) {
      ValuesToFields(pa, pb, fa, fb, ma, mb);
    }
    if SameFields(fa, fb) && Normal(ma) == Normal(mb) {
      FieldsToValues(pa, pb, fa, fb, ma, mb);
    }
  }

  lemma {:induction false} SamePayloadKeys(a: Settings, b: Settings)
    requires a.Valid() && b.Valid()
    ensures SameKeys(PayloadOf(a), PayloadOf(b))
  {
    PayloadValues(a);
    PayloadValues(b);
  }

  lemma SamePayloadValues(a: Settings, b: Settings, ma: Json, mb: Json)
    requires a.Valid() && b.Valid() && ma == Strings(SortTexts(a.markets)) && mb == Strings(SortTexts(b.markets))
    ensures |PayloadOf(a)| == |PayloadOf(b)|
    ensures SameValues(PayloadOf(a), PayloadOf(b))
       <==> SameFields(a.fields, b.fields) && Normal(ma) == Normal(mb)
  {
    PayloadValues(a);
    PayloadValues(b);
    ValuesAgree(PayloadOf(a), PayloadOf(b), a.fields, b.fields, ma, mb);
  }

  lemma SamePayloads(a: Settings, b: Settings)
    requires a.Valid() && b.Valid()
    ensures SameKeys(PayloadOf(a), PayloadOf(b)) && (SameValues(PayloadOf(a), PayloadOf(b)) <==> SameSettings(a, b))
  {
    SamePayloadKeys(a, b);
    SamePayloadValues(a, b, Strings(SortTexts(a.markets)), Strings(SortTexts(b.markets)));
    SortedAlikeIff(a.markets, b.markets);
    StringsAgree(SortTexts(a.markets), SortTexts(b.markets));
  }

  /** Two trackers compare in one series exactly when every comparison field and the bag of markets agree. */
  lemma SeriesKeysIff(a: Settings, b: Settings)
    requires a.Valid() && b.Valid()
    ensures SeriesKey(a).Success? && (SeriesKey(a) == SeriesKey(b) <==> SameSettings(a, b))
  {
    PayloadIsProper(a);
    PayloadIsProper(b);
    SamePayloads(a, b);
    SameKeysAgree(PayloadOf(a), PayloadOf(b));
  }

  // ------------------------------------------------------------ config versions

  datatype Version = Version(id: nat, version: nat, key: Text)

  datatype Change = Change(changed: bool, id: nat, version: nat)

  /**
   The version rows of one tracker, oldest first, and the tracker's row in the
   database. `ids` is the next free row id.
   */
  class TrackerService {
    var versions: seq<Version>
    var current: Option<nat>
    var row: Series.TrackerRow
    var ids: nat

    /** Versions count up from one, and no two neighbours are of the same series. */
    ghost predicate Valid()
      reads this
    {
      && (forall i :: 0 <= i < |versions| ==> versions[i].version == i + 1 && versions[i].id < ids)
      && (forall i :: 0 < i < |versions| ==>
        versions[i].key != versions[i - 1].key && versions[i - 1].id < versions[i].id)
    }

    constructor (row: Series.TrackerRow)
      ensures Valid() && versions == [] && current.None? && this.row == row
    {
      versions, current, this.row, ids := [], None, row, 0;
    }

    /**
     Points the tracker at the version of its settings, whose fingerprint is
     given. A new version is made exactly when it differs from the latest one's;
     then the database forgets the old series, and the tracker in memory all
     but its observations.
     */
    method EnsureConfigVersion(key: Text, tracker: Series.TrackerRow)
      returns (change: Change, memory: Series.TrackerRow)
      requires Valid()
      modifies this
      ensures Valid() && old(versions) <= versions
      ensures |versions| > 0 && current == Some(versions[|versions| - 1].id) && versions[|versions| - 1].key == key
      ensures change == Change(change.changed, versions[|versions| - 1].id, |versions|)
      ensures change.changed <==> old(versions) == [] || old(versions)[|old(versions)| - 1].key != key
      ensures !change.changed ==> versions == old(versions) && row == old(row) && memory == tracker
      ensures change.changed ==>
        |versions| == |old(versions)| + 1 && row == Series.Transitioned(old(row))
          && memory == Series.TransitionedInMemory(tracker)
          && row == Series.TrackerRow(None, None, None, None, false)
          && memory == Series.TrackerRow(None, tracker.latestObservation, None, tracker.lowObservation, false)
    {
      if versions != [] && versions[|versions| - 1].key == key {
        var latest := versions[|versions| - 1];
        current := Some(latest.id);
        return Change(false, latest.id, latest.version), tracker;
      }
      var version := if versions == [] then 1 else versions[|versions| - 1].version + 1;
      versions := versions + [Version(ids, version, key)];
      current := Some(ids);
      row := Series.FRESH;
      change := Change(true, ids, version);
      ids := ids + 1;
      memory := tracker.(latestPrice := None, lowPrice := None, lastThresholdMet := false);
    }
  }
}
