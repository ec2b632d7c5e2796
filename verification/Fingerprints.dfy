/**
 What the fingerprints are taken of (worker/src/domain/fingerprints.ts). The
 digest itself is SHA-256 of this text; here two keys count as equal when the
 hashed texts are equal.
 */
module Fingerprints {
  import opened Prelude
  import opened DecimalText
  import opened Canonical
  import opened CanonicalMeaning
  import Money

  lemma {:induction false} GetAt(entries: seq<Entry>, i: nat)
    requires i < |entries| && DistinctKeys(entries)
    ensures Get(entries, entries[i].key) == Normal(entries[i].value)
  {
    if i > 0 {
      assert entries[0].key != entries[i].key;
      assert entries[1..][i - 1] == entries[i];
      GetAt(entries[1..], i - 1);
    }
  }

  ghost predicate SameKeys(a: seq<Entry>, b: seq<Entry>) {
    |a| == |b| && forall i :: 0 <= i < |a| ==> a[i].key == b[i].key
  }

  ghost predicate SameValues(a: seq<Entry>, b: seq<Entry>)
    requires |a| == |b|
  {
    forall i :: 0 <= i < |a| ==> Normal(a[i].value) == Normal(b[i].value)
  }

  /** Objects with the same keys in the same places answer alike exactly when their values do. */
  lemma SameKeysAgree(a: seq<Entry>, b: seq<Entry>)
    requires SameKeys(a, b) && DistinctKeys(a) && Finite(Obj(a)) && Finite(Obj(b))
    ensures Encode(Obj(a)).Success? && (Encode(Obj(a)) == Encode(Obj(b)) <==> SameValues(a, b))
  {
    EncodeSucceedsIff(Obj(a));
    ObjectsEncodeEquallyIff(a, b);
    if SameAnswers(a, b) {
      forall i | 0 <= i < |a| ensures Normal(a[i].value) == Normal(b[i].value) {
        GetAt(a, i);
        GetAt(b, i);
      }
    }
    if SameValues(a, b) {
      forall key ensures Get(a, key) == Get(b, key) {
        SameValuesSameAnswer(a, b, key);
      }
    }
  }

  lemma {:induction false} SameValuesSameAnswer(a: seq<Entry>, b: seq<Entry>, key: Text)
    requires SameKeys(a, b) && SameValues(a, b)
    ensures Get(a, key) == Get(b, key)
  {
    if a != [] {
      SameValuesSameAnswer(a[1..], b[1..], key);
    }
  }

  // ------------------------------------------------------------ alert dedupe keys

  datatype AlertDedupeArgs = AlertDedupeArgs(
    trackerId: int, configVersionId: Option<int>, alertType: Text, priceCents: int, currency: Text,
    itinerary: Option<Text>, outboundDate: Option<Text>, returnDate: Option<Text>, market: Option<Text>)

  function NumOrNull(n: Option<int>): Json {
    if n.Some? then Whole(n.value) else Null
  }

  function StrOrNull(s: Option<Text>): Json {
    if s.Some? then Str(s.value) else Null
  }

  function AlertPayload(args: AlertDedupeArgs, price: Text): seq<Entry> {
    [Entry(Units("tracker_id"), Whole(args.trackerId)),
     Entry(Units("config_version_id"), NumOrNull(args.configVersionId)),
     Entry(Units("alert_type"), Str(args.alertType)),
     Entry(Units("price"), Str(price)),
     Entry(Units("currency"), Str(args.currency)),
     Entry(Units("itinerary"), StrOrNull(args.itinerary)),
     Entry(Units("outbound_date"), StrOrNull(args.outboundDate)),
     Entry(Units("return_date"), StrOrNull(args.returnDate)),
     Entry(Units("market"), StrOrNull(args.market))]
  }

  datatype HashError = BadPrice(price: Money.RangeError) | BadNumber

  /** The text that is hashed into the key of an alert. */
  function AlertHashInput(args: AlertDedupeArgs): Result<Text, HashError> {
    var price := Money.DecimalFromCents(args.priceCents);
    if price.Failure? then Failure(BadPrice(price.error))
    else
      var text := Encode(Obj(AlertPayload(args, price.value)));
      if text.Failure? then Failure(BadNumber) else Success(text.value)
  }

  lemma AlertKeysDiffer(args: AlertDedupeArgs, price: Text)
    ensures DistinctKeys(AlertPayload(args, price)) && Finite(Obj(AlertPayload(args, price)))
  {
    var p := AlertPayload(args, price);
    forall i, j | 0 <= i < j < |p| ensures p[i].key != p[j].key {
      assert p[i].key[0] != p[j].key[0] || |p[i].key| != |p[j].key|;
    }
  }

  lemma SameAlertKeys(a: AlertDedupeArgs, pa: Text, b: AlertDedupeArgs, pb: Text)
    ensures SameKeys(AlertPayload(a, pa), AlertPayload(b, pb))
  {
  }

  /** The two payloads, once it is known that their keys are the same, all different, and their numbers finite. */
  lemma PayloadsDiffer(ea: seq<Entry>, eb: seq<Entry>)
    requires SameKeys(ea, eb) && DistinctKeys(ea) && Finite(Obj(ea)) && Finite(Obj(eb))
    ensures Encode(Obj(ea)).Success? && Encode(Obj(eb)).Success?
    ensures Encode(Obj(ea)) == Encode(Obj(eb)) ==> SameValues(ea, eb)
  {
    SameKeysAgree(ea, eb);
    SameKeysAgree(eb, ea);
  }

  lemma AlertPayloadsDiffer(a: AlertDedupeArgs, pa: Text, b: AlertDedupeArgs, pb: Text)
    ensures Encode(Obj(AlertPayload(a, pa))).Success? && Encode(Obj(AlertPayload(b, pb))).Success?
    ensures Encode(Obj(AlertPayload(a, pa))) == Encode(Obj(AlertPayload(b, pb)))
        ==> pa == pb && a == b.(priceCents := a.priceCents)
  {
    AlertKeysDiffer(a, pa);
    AlertKeysDiffer(b, pb);
    SameAlertKeys(a, pa, b, pb);
    PayloadsDiffer(AlertPayload(a, pa), AlertPayload(b, pb));
    if SameValues(AlertPayload(a, pa), AlertPayload(b, pb)) {
      SameFields(a, b, pa, pb);
    }
  }

  /** One key for one finding: the hashed texts are equal exactly when every argument is. */
  lemma AlertHashInputsDiffer(a: AlertDedupeArgs, b: AlertDedupeArgs)
    requires Money.IsSafe(a.priceCents) && Money.IsSafe(b.priceCents)
    ensures AlertHashInput(a).Success? && (AlertHashInput(a) == AlertHashInput(b) <==> a == b)
  {
    Money.CentsRoundTrip(a.priceCents);
    Money.CentsRoundTrip(b.priceCents);
    var pa, pb := Money.DecimalFromCents(a.priceCents).value, Money.DecimalFromCents(b.priceCents).value;
    AlertPayloadsDiffer(a, pa, b, pb);
    if pa == pb {
      Money.DecimalsDiffer(a.priceCents, b.priceCents);
    }
  }

  lemma SameFields(a: AlertDedupeArgs, b: AlertDedupeArgs, pa: Text, pb: Text)
    requires SameValues(AlertPayload(a, pa), AlertPayload(b, pb))
    ensures pa == pb && a == b.(priceCents := a.priceCents)
  {
    var ea, eb := AlertPayload(a, pa), AlertPayload(b, pb);
    assert Normal(ea[0].value) == Normal(eb[0].value);
    assert Normal(ea[1].value) == Normal(eb[1].value);
    assert Normal(ea[2].value) == Normal(eb[2].value);
    assert Normal(ea[3].value) == Normal(eb[3].value);
    assert Normal(ea[4].value) == Normal(eb[4].value);
    assert Normal(ea[5].value) == Normal(eb[5].value);
    assert Normal(ea[6].value) == Normal(eb[6].value);
    assert Normal(ea[7].value) == Normal(eb[7].value);
    assert Normal(ea[8].value) == Normal(eb[8].value);
    IntTextsDiffer(a.trackerId, b.trackerId);
    IntTextsDiffer(a.configVersionId.GetOr(0), b.configVersionId.GetOr(0));
  }

  // ------------------------------------------------------------------ query keys

  predicate IsExcluded(key: Text) {
    key == Units("api_key") || key == Units("output") || key == Units("no_cache")
  }

  function Scrubbed(params: seq<Entry>): (r: seq<Entry>)
    ensures forall e :: e in r <==> e in params && !IsExcluded(e.key)
  {
    if params == [] then []
    else Scrubbed(params[..|params| - 1]) + if IsExcluded(params[|params| - 1].key) then [] else [params[|params| - 1]]
  }

  function QueryPayload(endpoint: Text, scrubbed: seq<Entry>): seq<Entry> {
    [Entry(Units("endpoint"), Str(endpoint)), Entry(Units("params"), Obj(scrubbed))]
  }

  /** The text that is hashed into the key of a provider query. */
  method QueryHashInput(endpoint: Text, params: seq<Entry>) returns (text: Result<Text, RangeError>)
    ensures text == Encode(Obj(QueryPayload(endpoint, Scrubbed(params))))
  {
    var scrubbed := [];
    for i := 0 to |params|
      invariant scrubbed == Scrubbed(params[..i])
    {
      assert params[..i + 1][..i] == params[..i];
      if !IsExcluded(params[i].key) {
        scrubbed := scrubbed + [params[i]];
      }
    }
    assert params[..|params|] == params;
    text := Encode(Obj(QueryPayload(endpoint, scrubbed)));
  }

  lemma {:induction false} ScrubbedIsDistinct(params: seq<Entry>)
    requires DistinctKeys(params)
    ensures DistinctKeys(Scrubbed(params))
  {
    if params != [] {
      var n := |params| - 1;
      ScrubbedIsDistinct(params[..n]);
      var init := Scrubbed(params[..n]);
      forall i | 0 <= i < |init| ensures init[i].key != params[n].key {
        assert init[i] in params[..n];
      }
    }
  }

  lemma GetMember(entries: seq<Entry>, e: Entry)
    requires DistinctKeys(entries) && e in entries
    ensures Get(entries, e.key) == Normal(e.value)
  {
    var i :| 0 <= i < |entries| && entries[i] == e;
    GetAt(entries, i);
  }

  lemma {:induction false} GetNothing(entries: seq<Entry>, key: Text)
    requires forall e :: e in entries ==> e.key != key
    ensures Get(entries, key) == Null
  {
    if entries != [] {
      GetNothing(entries[1..], key);
    }
  }

  lemma ScrubbedAnswers(params: seq<Entry>, key: Text)
    requires DistinctKeys(params)
    ensures Get(Scrubbed(params), key) == if IsExcluded(key) then Null else Get(params, key)
  {
    ScrubbedIsDistinct(params);
    if e :| e in Scrubbed(params) && e.key == key {
      GetMember(Scrubbed(params), e);
      GetMember(params, e);
    } else {
      GetNothing(Scrubbed(params), key);
      if !IsExcluded(key) {
        GetNothing(params, key);
      }
    }
  }

  ghost predicate SameQuestions(a: seq<Entry>, b: seq<Entry>) {
    forall key :: key != Units("api_key") && key != Units("output") && key != Units("no_cache") ==>
      Get(a, key) == Get(b, key)
  }

  lemma {:induction false} ScrubbedAgree(a: seq<Entry>, b: seq<Entry>)
    requires DistinctKeys(a) && DistinctKeys(b)
    ensures Normal(Obj(Scrubbed(a))) == Normal(Obj(Scrubbed(b))) <==> SameQuestions(a, b)
  {
    var sa, sb := Scrubbed(a), Scrubbed(b);
    ScrubbedIsDistinct(a);
    ScrubbedIsDistinct(b);
    if Normal(Obj(sa)) == Normal(Obj(sb)) {
      forall key ensures IsExcluded(key) || Get(a, key) == Get(b, key) {
        ScrubbedAnswers(a, key);
        ScrubbedAnswers(b, key);
        SameEntriesSameAnswer(sa, sb, key);
      }
    }
    if SameQuestions(a, b) {
      forall key ensures Get(sa, key) == Get(sb, key) {
        ScrubbedAnswers(a, key);
        ScrubbedAnswers(b, key);
      }
      SameAnswersSameEntries(sa, sb);
    }
  }

  lemma TwoKeysDiffer(a: seq<Entry>)
    requires |a| == 2 && a[0].key != a[1].key && Finite(a[0].value) && Finite(a[1].value)
    ensures DistinctKeys(a) && Finite(Obj(a))
  {
  }

  /** Two objects of the same two keys. */
  lemma PairsAgree(a: seq<Entry>, b: seq<Entry>)
    requires |a| == |b| == 2 && SameKeys(a, b) && a[0].key != a[1].key
    requires Finite(a[0].value) && Finite(a[1].value) && Finite(b[0].value) && Finite(b[1].value)
    ensures Encode(Obj(a)) == Encode(Obj(b)) <==>
      Normal(a[0].value) == Normal(b[0].value) && Normal(a[1].value) == Normal(b[1].value)
  {
    TwoKeysDiffer(a);
    TwoKeysDiffer(b);
    SameKeysAgree(a, b);
    if SameValues(a, b) {
      assert Normal(a[0].value) == Normal(b[0].value) && Normal(a[1].value) == Normal(b[1].value);
    }
  }

  /**
   Two queries share a key exactly when they ask the same endpoint and agree on every
   parameter but the excluded ones.
   */
  lemma {:induction false} QueryHashInputsDiffer(ea: Text, a: seq<Entry>, eb: Text, b: seq<Entry>)
    requires DistinctKeys(a) && DistinctKeys(b) && Finite(Obj(Scrubbed(a))) && Finite(Obj(Scrubbed(b)))
    ensures Encode(Obj(QueryPayload(ea, Scrubbed(a)))) == Encode(Obj(QueryPayload(eb, Scrubbed(b))))
       <==> ea == eb && SameQuestions(a, b)
  {
    assert |Units("endpoint")| == 8 && |Units("params")| == 6;
    PairsAgree(QueryPayload(ea, Scrubbed(a)), QueryPayload(eb, Scrubbed(b)));
    ScrubbedAgree(a, b);
  }
}
