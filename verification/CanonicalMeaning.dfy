/** What canonical text can and cannot tell apart. */
module CanonicalMeaning {
  import opened Prelude
  import opened DecimalText
  import opened Sorting
  import opened Canonical
  import opened CanonicalReader

  // ------------------------------------------------- when the encoder refuses

  lemma {:induction false} JoinSucceeds(parts: seq<Result<Text, RangeError>>)
    ensures Join(parts).Success? <==> forall i :: 0 <= i < |parts| ==> parts[i].Success?
  {
    if |parts| > 1 {
      JoinSucceeds(parts[1..]);
      assert forall i :: 1 <= i < |parts| ==> parts[i] == parts[1..][i - 1];
    }
  }

  /** Encoding fails exactly when a number anywhere in the value is infinite or undefined. */
  lemma {:induction false} EncodeSucceedsIff(v: Json)
    ensures Encode(v).Success? <==> Finite(v)
  {
    match v
    case Arr(items) =>
      var parts := seq(|items|, i requires 0 <= i < |items| => Encode(items[i]));
      forall i | 0 <= i < |items| ensures parts[i].Success? <==> Finite(items[i]) {
        EncodeSucceedsIff(items[i]);
      }
      JoinSucceeds(parts);
    case Obj(entries) =>
      var sorted := SortEntries(Kept(entries));
      forall i | 0 <= i < |sorted| ensures Encode(sorted[i].value).Success? <==> Finite(sorted[i].value) {
        EntryIsSmaller(entries, sorted[i]);
        EncodeSucceedsIff(sorted[i].value);
      }
      ObjectSucceeds(entries);
      KeptNumbers(entries);
    case _ =>
  }

  /** An object is encoded if each of its entries is. */
  lemma {:induction false} ObjectSucceeds(entries: seq<Entry>)
    ensures
      var sorted := SortEntries(Kept(entries));
      Encode(Obj(entries)).Success? <==> forall i :: 0 <= i < |sorted| ==> Encode(sorted[i].value).Success?
  {
    var sorted := SortEntries(Kept(entries));
    var parts := Parts(sorted, entries);
    EncodeIsParts(entries);
    JoinSucceeds(parts);
    assert forall i :: 0 <= i < |parts| ==> (parts[i].Success? <==> Encode(sorted[i].value).Success?);
  }

  predicate AllFinite(entries: seq<Entry>) {
    forall i :: 0 <= i < |entries| ==> Finite(entries[i].value)
  }

  lemma AllFiniteIs(entries: seq<Entry>)
    ensures Finite(Obj(entries)) <==> AllFinite(entries)
  {
  }

  lemma KeptNumbers(entries: seq<Entry>)
    ensures Finite(Obj(entries)) <==> AllFinite(SortEntries(Kept(entries)))
  {
    var sorted := SortEntries(Kept(entries));
    forall e | e in entries && e !in sorted ensures Finite(e.value) {
      assert e !in Kept(entries) && e.value.Absent();
    }
    AllFiniteIs(entries);
    SameNumbers(entries, sorted);
  }

  /** Entries may come and go without changing whether all numbers are finite, as long as those that go hold none. */
  lemma SameNumbers(entries: seq<Entry>, others: seq<Entry>)
    requires forall e :: e in others ==> e in entries
    requires forall e :: e in entries && e !in others ==> Finite(e.value)
    ensures AllFinite(entries) <==> AllFinite(others)
  {
    if !AllFinite(entries) {
      var i :| 0 <= i < |entries| && !Finite(entries[i].value);
      assert entries[i] in others;
      var j :| 0 <= j < |others| && others[j] == entries[i];
      assert !Finite(others[j].value);
    }
    if !AllFinite(others) {
      var i :| 0 <= i < |others| && !Finite(others[i].value);
      assert others[i] in entries;
      var j :| 0 <= j < |entries| && entries[j] == others[i];
      assert !Finite(entries[j].value);
    }
  }

  // -------------------------------------------------------------- sorted lists

  /** As in every JavaScript object. */
  ghost predicate DistinctKeys(entries: seq<Entry>) {
    forall i, j :: 0 <= i < j < |entries| ==> entries[i].key != entries[j].key
  }

  lemma NotBeforeIsTransitive(a: Text, b: Text, c: Text)
    requires !KeyBefore(b, a) && !KeyBefore(c, b)
    ensures !KeyBefore(c, a)
  {
    KeyBeforeIsTotal(a, b);
    KeyBeforeIsTotal(b, c);
    if KeyBefore(c, a) && a != b {
      BeforeIsTransitive(CodePoints(c), CodePoints(a), CodePoints(b));
    }
  }

  lemma EntriesAreOrdered()
    ensures IsOrder(EntryBefore)
  {
    forall a: Entry, b: Entry | EntryBefore(a, b) ensures !EntryBefore(b, a) {
      KeyBeforeIsTotal(a.key, b.key);
    }
    forall a: Entry, b: Entry, c: Entry | !EntryBefore(b, a) && !EntryBefore(c, b) ensures !EntryBefore(c, a) {
      NotBeforeIsTransitive(a.key, b.key, c.key);
    }
  }

  lemma {:induction false} KeptOfKept(entries: seq<Entry>)
    requires forall i :: 0 <= i < |entries| ==> !entries[i].value.Absent()
    ensures Kept(entries) == entries
  {
    if entries != [] {
      KeptOfKept(entries[1..]);
    }
  }

  // ------------------------------------------------------ equal text, equal form

  lemma NormalEntries(entries: seq<Entry>)
    ensures |Normal(Obj(entries)).entries| == |SortEntries(Kept(entries))|
  {
  }

  lemma NormalEntry(entries: seq<Entry>, i: nat)
    requires i < |SortEntries(Kept(entries))|
    ensures
      var sorted, normal := SortEntries(Kept(entries)), Normal(Obj(entries)).entries;
      && |normal| == |sorted| && normal[i] == Entry(sorted[i].key, Normal(sorted[i].value))
      && sorted[i] in entries && !normal[i].value.Absent()
  {
    assert SortEntries(Kept(entries))[i] in Kept(entries);
  }

  /** Only the keys decide what is sorted. */
  lemma SameKeysSorted(a: seq<Entry>, b: seq<Entry>)
    requires |a| == |b| && forall i :: 0 <= i < |a| ==> a[i].key == b[i].key
    requires Sorted(EntryBefore, a)
    ensures Sorted(EntryBefore, b)
  {
    forall i, j | 0 <= i < j < |b| ensures !EntryBefore(b[j], b[i]) {
      assert !EntryBefore(a[j], a[i]);
    }
  }

  lemma {:induction false} SortedIsSettled(s: seq<Entry>)
    requires Sorted(EntryBefore, s) && forall i :: 0 <= i < |s| ==> !s[i].value.Absent()
    ensures SortEntries(Kept(s)) == s
  {
    KeptOfKept(s);
    SortOfSorted(EntryBefore, s);
  }

  /** Dropping nulls and sorting again changes nothing. */
  lemma {:induction false} NormalIsSettled(entries: seq<Entry>)
    ensures SortEntries(Kept(Normal(Obj(entries)).entries)) == Normal(Obj(entries)).entries
  {
    var sorted, normal := SortEntries(Kept(entries)), Normal(Obj(entries)).entries;
    EntriesAreOrdered();
    SortSorts(EntryBefore, Kept(entries));
    NormalEntries(entries);
    forall i | 0 <= i < |sorted| ensures normal[i].key == sorted[i].key && !normal[i].value.Absent() {
      NormalEntry(entries, i);
    }
    SameKeysSorted(sorted, normal);
    SortedIsSettled(normal);
  }

  /** The encoded entries of an object, in order. */
  function Parts(sorted: seq<Entry>, ghost entries: seq<Entry>): (r: seq<Result<Text, RangeError>>)
    requires forall e :: e in sorted ==> e in entries
    ensures |r| == |sorted| && forall i :: 0 <= i < |r| ==> r[i] == Named(sorted[i].key, Encode(sorted[i].value))
  {
    seq(|sorted|, i requires 0 <= i < |sorted| => Named(sorted[i].key, Encode(sorted[i].value)))
  }

  lemma EncodeIsParts(entries: seq<Entry>)
    ensures Encode(Obj(entries)) == Wrapped(LEFT_BRACE, Parts(SortEntries(Kept(entries)), entries), RIGHT_BRACE)
  {
    var sorted := SortEntries(Kept(entries));
    assert seq(|sorted|, i requires 0 <= i < |sorted| =>
             EntryIsSmaller(entries, sorted[i]);
             Named(sorted[i].key, Encode(sorted[i].value))) == Parts(sorted, entries);
  }

  /** Encoding sees only the normal form. */
  lemma {:induction false} EncodeOfNormal(v: Json)
    ensures Encode(Normal(v)) == Encode(v)
  {
    match v
    case Arr(items) =>
      var normal := Normal(v).items;
      forall i | 0 <= i < |items| ensures Encode(normal[i]) == Encode(items[i]) {
        EncodeOfNormal(items[i]);
      }
      assert seq(|normal|, i requires 0 <= i < |normal| => Encode(normal[i]))
          == seq(|items|, i requires 0 <= i < |items| => Encode(items[i]));
    case Obj(entries) =>
      var sorted, normal := SortEntries(Kept(entries)), Normal(v).entries;
      NormalIsSettled(entries);
      EncodeIsParts(entries);
      EncodeIsParts(normal);
      NormalEntries(entries);
      forall i | 0 <= i < |sorted| ensures Parts(normal, normal)[i] == Parts(sorted, entries)[i] {
        NormalEntry(entries, i);
        EntryIsSmaller(entries, sorted[i]);
        EncodeOfNormal(sorted[i].value);
      }
      assert Parts(normal, normal) == Parts(sorted, entries);
    case _ =>
  }

  /** The text is the normal form and nothing else: it can be read back, and nothing of the text is left over. */
  lemma {:induction false} UniquelyReadable(v: Json)
    requires Finite(v)
    ensures Encode(v).Success? && ReadValue(Encode(v).value) == Some(Read(Normal(v), []))
  {
    EncodeSucceedsIff(v);
    EncodeReads(v);
    assert Encode(v).value + [] == Encode(v).value;
    assert !StartsWithNumeralUnit([]);
  }

  lemma {:induction false} EncodesEquallyIff(a: Json, b: Json)
    requires Finite(a) && Finite(b)
    ensures Encode(a) == Encode(b) <==> Normal(a) == Normal(b)
  {
    UniquelyReadable(a);
    UniquelyReadable(b);
    EncodeOfNormal(a);
    EncodeOfNormal(b);
  }

  // ---------------------------------------------------- objects, key by key

  /** What the object answers for a key, in normal form; null when it has no such key. */
  function Get(entries: seq<Entry>, key: Text): Json {
    if entries == [] then Null
    else if entries[0].key == key then Normal(entries[0].value)
    else Get(entries[1..], key)
  }

  lemma {:induction false} GetIsEntry(entries: seq<Entry>, key: Text, x: Json)
    requires DistinctKeys(entries) && x != Null
    ensures Get(entries, key) == x <==> exists e :: e in entries && e.key == key && Normal(e.value) == x
  {
    if entries != [] {
      GetIsEntry(entries[1..], key, x);
      if entries[0].key == key {
        if e :| e in entries && e.key == key && Normal(e.value) == x {
          assert e == entries[0];
        }
      } else {
        assert forall e :: e in entries && e.key == key ==> e in entries[1..];
        assert forall e :: e in entries[1..] ==> e in entries;
      }
    }
  }

  lemma NormalOfAbsent(v: Json)
    ensures v.Absent() ==> Normal(v) == Null
  {
  }

  lemma FromNormal(entries: seq<Entry>, key: Text, x: Json)
    requires Entry(key, x) in Normal(Obj(entries)).entries
    ensures exists e :: e in entries && e.key == key && Normal(e.value) == x
  {
    var sorted, normal := SortEntries(Kept(entries)), Normal(Obj(entries)).entries;
    NormalEntries(entries);
    var i :| 0 <= i < |normal| && normal[i] == Entry(key, x);
    NormalEntry(entries, i);
    assert sorted[i].key == key && Normal(sorted[i].value) == x;
  }

  lemma {:induction false} IntoNormal(entries: seq<Entry>, e: Entry)
    requires e in entries && Normal(e.value) != Null
    ensures Entry(e.key, Normal(e.value)) in Normal(Obj(entries)).entries
  {
    var sorted := SortEntries(Kept(entries));
    NormalOfAbsent(e.value);
    assert e in Kept(entries) && e in sorted;
    var i :| 0 <= i < |sorted| && sorted[i] == e;
    NormalEntry(entries, i);
  }

  lemma InNormal(entries: seq<Entry>, key: Text, x: Json)
    requires x != Null
    ensures Entry(key, x) in Normal(Obj(entries)).entries
       <==> exists e :: e in entries && e.key == key && Normal(e.value) == x
  {
    if Entry(key, x) in Normal(Obj(entries)).entries {
      FromNormal(entries, key, x);
    }
    if e :| e in entries && e.key == key && Normal(e.value) == x {
      IntoNormal(entries, e);
    }
  }

  lemma {:induction false} SortStrictly(entries: seq<Entry>)
    requires DistinctKeys(entries)
    ensures StrictlySorted(EntryBefore, SortEntries(Kept(entries)))
  {
    if entries != [] {
      SortStrictly(entries[1..]);
      if !entries[0].value.Absent() {
        EntriesAreOrdered();
        forall x | x in SortEntries(Kept(entries[1..]))
          ensures EntryBefore(x, entries[0]) || EntryBefore(entries[0], x) {
          assert x in entries[1..];
          KeyBeforeIsTotal(x.key, entries[0].key);
        }
        InsertStrictly(EntryBefore, entries[0], SortEntries(Kept(entries[1..])));
      }
    }
  }

  lemma {:induction false} NormalIsStrictlySorted(entries: seq<Entry>)
    requires DistinctKeys(entries)
    ensures StrictlySorted(EntryBefore, Normal(Obj(entries)).entries)
    ensures forall e :: e in Normal(Obj(entries)).entries ==> e.value != Null
  {
    SortStrictly(entries);
  }

  ghost predicate SameAnswers(a: seq<Entry>, b: seq<Entry>) {
    forall key :: Get(a, key) == Get(b, key)
  }

  /**
   Two objects have the same text exactly when they answer every key alike:
   the order of insertion does not matter, and neither does a key whose value
   is null.
   */
  lemma {:induction false} ObjectsEncodeEquallyIff(a: seq<Entry>, b: seq<Entry>)
    requires DistinctKeys(a) && DistinctKeys(b) && Finite(Obj(a)) && Finite(Obj(b))
    ensures Encode(Obj(a)) == Encode(Obj(b)) <==> SameAnswers(a, b)
  {
    EncodesEquallyIff(Obj(a), Obj(b));
    if Normal(Obj(a)) == Normal(Obj(b)) {
      SameEntriesSameAnswers(a, b);
    }
    if SameAnswers(a, b) {
      SameAnswersSameEntries(a, b);
    }
  }

  lemma SameEntriesSameAnswers(a: seq<Entry>, b: seq<Entry>)
    requires DistinctKeys(a) && DistinctKeys(b) && Normal(Obj(a)) == Normal(Obj(b))
    ensures SameAnswers(a, b)
  {
    forall key ensures Get(a, key) == Get(b, key) {
      SameEntriesSameAnswer(a, b, key);
    }
  }

  lemma SameAnswersSameEntries(a: seq<Entry>, b: seq<Entry>)
    requires DistinctKeys(a) && DistinctKeys(b)
    requires SameAnswers(a, b)
    ensures Normal(Obj(a)) == Normal(Obj(b))
  {
    NormalIsStrictlySorted(a);
    NormalIsStrictlySorted(b);
    var na, nb := Normal(Obj(a)).entries, Normal(Obj(b)).entries;
    forall e ensures e in na <==> e in nb {
      if e.value != Null {
        AnswerIsMember(a, e.key, e.value);
        AnswerIsMember(b, e.key, e.value);
        assert Entry(e.key, e.value) == e;
      }
    }
    EntriesAreOrdered();
    StrictListsAgree(EntryBefore, na, nb);
  }

  lemma {:induction false} AnswerIsMember(entries: seq<Entry>, key: Text, x: Json)
    requires DistinctKeys(entries) && x != Null
    ensures Get(entries, key) == x <==> Entry(key, x) in Normal(Obj(entries)).entries
  {
    GetIsEntry(entries, key, x);
    InNormal(entries, key, x);
  }

  lemma SameEntriesSameAnswer(a: seq<Entry>, b: seq<Entry>, key: Text)
    requires DistinctKeys(a) && DistinctKeys(b) && Normal(Obj(a)) == Normal(Obj(b))
    ensures Get(a, key) == Get(b, key)
  {
    var x, y := Get(a, key), Get(b, key);
    if x != Null {
      AnswerIsMember(a, key, x);
      AnswerIsMember(b, key, x);
    }
    if y != Null {
      AnswerIsMember(a, key, y);
      AnswerIsMember(b, key, y);
    }
  }

  // --------------------------------------------------------- printable output

  predicate Printable(s: Text) {
    forall i :: 0 <= i < |s| ==> 0x20 <= s[i] <= 0x7e
  }

  lemma EscapeIsPrintable(c: CodeUnit)
    ensures Printable(Escape(c))
  {
    FourHexDigits(c);
  }

  lemma {:induction false} QuotedIsPrintable(s: Text)
    ensures Printable(Escaped(s)) && Printable(Quoted(s))
  {
    if s != [] {
      QuotedIsPrintable(s[..|s| - 1]);
      EscapeIsPrintable(s[|s| - 1]);
    }
  }

  lemma {:induction false} JoinIsPrintable(parts: seq<Result<Text, RangeError>>)
    requires Join(parts).Success?
    requires forall i :: 0 <= i < |parts| && parts[i].Success? ==> Printable(parts[i].value)
    ensures Printable(Join(parts).value)
  {
    if |parts| > 1 {
      JoinIsPrintable(parts[1..]);
    }
  }

  lemma NamedIsPrintable(key: Text, value: Result<Text, RangeError>)
    requires value.Success? ==> Printable(value.value)
    ensures Named(key, value).Success? ==> Printable(Named(key, value).value)
  {
    QuotedIsPrintable(key);
  }

  lemma WrappedIsPrintable(left: CodeUnit, parts: seq<Result<Text, RangeError>>, right: CodeUnit)
    requires Printable([left, right]) && Wrapped(left, parts, right).Success?
    requires forall i :: 0 <= i < |parts| && parts[i].Success? ==> Printable(parts[i].value)
    ensures Printable(Wrapped(left, parts, right).value)
  {
    JoinIsPrintable(parts);
    assert [left, right][0] == left && [left, right][1] == right;
  }

  lemma {:induction false} AtomIsPrintable(v: Json)
    requires !v.Arr? && !v.Obj? && Encode(v).Success?
    ensures Printable(Encode(v).value)
  {
    if v.Str? {
      QuotedIsPrintable(v.s);
    }
  }

  lemma {:induction false} ListIsPrintable(items: seq<Json>)
    requires Encode(Arr(items)).Success?
    requires forall i :: 0 <= i < |items| && Encode(items[i]).Success? ==> Printable(Encode(items[i]).value)
    ensures Printable(Encode(Arr(items)).value)
  {
    var parts := seq(|items|, i requires 0 <= i < |items| => Encode(items[i]));
    WrappedIsPrintable(LEFT_BRACKET, parts, RIGHT_BRACKET);
  }

  lemma {:induction false} ObjectIsPrintable(entries: seq<Entry>)
    requires Encode(Obj(entries)).Success?
    requires
      var parts := Parts(SortEntries(Kept(entries)), entries);
      forall i :: 0 <= i < |parts| && parts[i].Success? ==> Printable(parts[i].value)
    ensures Printable(Encode(Obj(entries)).value)
  {
    EncodeIsParts(entries);
    WrappedIsPrintable(LEFT_BRACE, Parts(SortEntries(Kept(entries)), entries), RIGHT_BRACE);
  }

  /** Pure ASCII, without control characters and without DEL. */
  lemma {:induction false} EncodeIsPrintable(v: Json)
    requires Encode(v).Success?
    ensures Printable(Encode(v).value)
  {
    match v
    case Arr(items) =>
      forall i | 0 <= i < |items| && Encode(items[i]).Success? ensures Printable(Encode(items[i]).value) {
        EncodeIsPrintable(items[i]);
      }
      ListIsPrintable(items);
    case Obj(entries) =>
      EntriesArePrintable(entries);
      ObjectIsPrintable(entries);
    case _ => AtomIsPrintable(v);
  }

  lemma {:induction false} EntriesArePrintable(entries: seq<Entry>)
    ensures
      var parts := Parts(SortEntries(Kept(entries)), entries);
      forall i :: 0 <= i < |parts| && parts[i].Success? ==> Printable(parts[i].value)
    decreases Obj(entries), 0
  {
    var sorted, parts := SortEntries(Kept(entries)), Parts(SortEntries(Kept(entries)), entries);
    forall i | 0 <= i < |parts| && parts[i].Success? ensures Printable(parts[i].value) {
      EntryIsSmaller(entries, sorted[i]);
      EncodeIsPrintable(sorted[i].value);
      NamedIsPrintable(sorted[i].key, Encode(sorted[i].value));
    }
  }
}
