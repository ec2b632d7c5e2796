/**
 A reader for canonical JSON text, after sections 2 to 7 of RFC 8259, and what
 it shows of the encoder: the text determines the value up to dropped nulls and
 the order of keys.
 */
module CanonicalReader {
  import opened Prelude
  import opened DecimalText
  import opened Canonical

  // ------------------------------------------------------------------- reader

  function ReadChar(s: Text): (r: Option<Read<CodeUnit>>)
    ensures r.Some? ==> |r.value.rest| < |s|
  {
    if s == [] then None
    else if s[0] != BACKSLASH then Some(Read(s[0], s[1..]))
    else if |s| < 2 then None
    else if s[1] == BACKSLASH || s[1] == QUOTE || s[1] == 0x2f then Some(Read(s[1], s[2..]))
    else if s[1] == LOWER_B then Some(Read(0x08, s[2..]))
    else if s[1] == LOWER_T then Some(Read(0x09, s[2..]))
    else if s[1] == LOWER_N then Some(Read(0x0a, s[2..]))
    else if s[1] == LOWER_F then Some(Read(0x0c, s[2..]))
    else if s[1] == LOWER_R then Some(Read(0x0d, s[2..]))
    else if s[1] == LOWER_U && |s| >= 6 && IsHex(s[2]) && IsHex(s[3]) && IsHex(s[4]) && IsHex(s[5]) then
      Some(Read(4096 * HexValue(s[2]) + 256 * HexValue(s[3]) + 16 * HexValue(s[4]) + HexValue(s[5]), s[6..]))
    else None
  }

  /** The rest of a string, after its opening quote. */
  function ReadChars(s: Text): (r: Option<Read<Text>>)
    ensures r.Some? ==> |r.value.rest| < |s|
    decreases |s|
  {
    if s == [] then None
    else if s[0] == QUOTE then Some(Read([], s[1..]))
    else
      var c := ReadChar(s);
      if c.None? then None
      else
        var more := ReadChars(c.value.rest);
        if more.None? then None else Some(Read([c.value.value] + more.value.value, more.value.rest))
  }

  predicate StartsWithNumeralUnit(s: Text) {
    s != [] && IsNumeralUnit(s[0])
  }

  /** How many units the text starts with that can be part of a number. */
  function NumeralRun(s: Text): (n: nat)
    ensures n <= |s| && (StartsWithNumeralUnit(s) ==> n > 0)
  {
    if StartsWithNumeralUnit(s) then 1 + NumeralRun(s[1..]) else 0
  }

  function ReadNumber(s: Text): (r: Option<Read<Numeral>>)
    ensures r.Some? ==> |r.value.rest| < |s|
  {
    var n := NumeralRun(s);
    if IsNumeral(s[..n]) then Some(Read(s[..n], s[n..])) else None
  }

  function ReadValue(s: Text): (r: Option<Read<Json>>)
    ensures r.Some? ==> |r.value.rest| < |s|
    decreases |s|, 0
  {
    if s == [] then None
    else if NULL_TEXT <= s then Some(Read(Null, s[4..]))
    else if TRUE_TEXT <= s then Some(Read(Bool(true), s[4..]))
    else if FALSE_TEXT <= s then Some(Read(Bool(false), s[5..]))
    else if s[0] == QUOTE then
      var t := ReadChars(s[1..]);
      if t.None? then None else Some(Read(Str(t.value.value), t.value.rest))
    else if s[0] == LEFT_BRACKET then
      if |s| > 1 && s[1] == RIGHT_BRACKET then Some(Read(Arr([]), s[2..]))
      else
        var t := ReadItems(s[1..]);
        if t.None? then None else Some(Read(Arr(t.value.value), t.value.rest))
    else if s[0] == LEFT_BRACE then
      if |s| > 1 && s[1] == RIGHT_BRACE then Some(Read(Obj([]), s[2..]))
      else
        var t := ReadEntries(s[1..]);
        if t.None? then None else Some(Read(Obj(t.value.value), t.value.rest))
    else
      var t := ReadNumber(s);
      if t.None? then None else Some(Read(Num(t.value.value), t.value.rest))
  }

  /** The items of a list that has some, up to and with its closing bracket. */
  function ReadItems(s: Text): (r: Option<Read<seq<Json>>>)
    ensures r.Some? ==> |r.value.rest| < |s|
    decreases |s|, 1
  {
    var v := ReadValue(s);
    if v.None? || v.value.rest == [] then None
    else if v.value.rest[0] == RIGHT_BRACKET then Some(Read([v.value.value], v.value.rest[1..]))
    else if v.value.rest[0] != COMMA then None
    else
      var more := ReadItems(v.value.rest[1..]);
      if more.None? then None else Some(Read([v.value.value] + more.value.value, more.value.rest))
  }

  function ReadEntry(s: Text): (r: Option<Read<Entry>>)
    ensures r.Some? ==> |r.value.rest| < |s|
    decreases |s|, 1
  {
    if s == [] || s[0] != QUOTE then None
    else
      var k := ReadChars(s[1..]);
      if k.None? || k.value.rest == [] || k.value.rest[0] != COLON then None
      else
        var v := ReadValue(k.value.rest[1..]);
        if v.None? then None else Some(Read(Entry(k.value.value, v.value.value), v.value.rest))
  }

  /** The entries of an object that has some, up to and with its closing brace. */
  function ReadEntries(s: Text): (r: Option<Read<seq<Entry>>>)
    ensures r.Some? ==> |r.value.rest| < |s|
    decreases |s|, 2
  {
    var e := ReadEntry(s);
    if e.None? || e.value.rest == [] then None
    else if e.value.rest[0] == RIGHT_BRACE then Some(Read([e.value.value], e.value.rest[1..]))
    else if e.value.rest[0] != COMMA then None
    else
      var more := ReadEntries(e.value.rest[1..]);
      if more.None? then None else Some(Read([e.value.value] + more.value.value, more.value.rest))
  }

  // -------------------------------------------------- reading what was written

  lemma FourDigits(c: CodeUnit)
    ensures 0 <= c / 4096 < 16 && c == 4096 * (c / 4096) + 256 * (c / 256 % 16) + 16 * (c / 16 % 16) + c % 16
  {
    Sixteenths(c);
    var a, b := c / 16, c / 256;
    assert c == 16 * a + c % 16;
    assert a == 16 * b + a % 16;
    assert b == 16 * (c / 4096) + b % 16;
  }

  lemma HexQuadReads(a: int, b: int, c: int, d: int, rest: Text)
    requires 0 <= a < 16 && 0 <= b < 16 && 0 <= c < 16 && 0 <= d < 16
    ensures ReadChar([BACKSLASH, LOWER_U, HexDigit(a), HexDigit(b), HexDigit(c), HexDigit(d)] + rest)
         == Some(Read(4096 * a + 256 * b + 16 * c + d, rest))
  {
    var s := [BACKSLASH, LOWER_U, HexDigit(a), HexDigit(b), HexDigit(c), HexDigit(d)] + rest;
    assert s[6..] == rest;
  }

  lemma HexReads(c: CodeUnit, rest: Text)
    ensures ReadChar(UnicodeEscape(c) + rest) == Some(Read(c, rest))
  {
    FourHexDigits(c);
    FourDigits(c);
    HexQuadReads(c / 4096, c / 256 % 16, c / 16 % 16, c % 16, rest);
    assert UnicodeEscape(c)
        == [BACKSLASH, LOWER_U, HexDigit(c / 4096), HexDigit(c / 256 % 16), HexDigit(c / 16 % 16), HexDigit(c % 16)];
  }

  lemma EscapeReads(c: CodeUnit, rest: Text)
    ensures Escape(c) != [] && Escape(c)[0] != QUOTE
    ensures ReadChar(Escape(c) + rest) == Some(Read(c, rest))
  {
    HexReads(c, rest);
    var s := Escape(c) + rest;
    if |Escape(c)| == 1 {
      assert s[1..] == rest;
    } else if |Escape(c)| == 2 {
      assert s[2..] == rest;
    }
  }

  lemma {:induction false} CharThenMore(piece: Text, c: CodeUnit, more: Text, s: Text, rest: Text)
    requires piece != [] && piece[0] != QUOTE && ReadChar(piece + more) == Some(Read(c, more))
    requires ReadChars(more) == Some(Read(s, rest))
    ensures ReadChars(piece + more) == Some(Read([c] + s, rest))
  {
  }

  ghost predicate ReadsOne(f: CodeUnit -> Text, c: CodeUnit, rest: Text) {
    f(c) != [] && f(c)[0] != QUOTE && ReadChar(f(c) + rest) == Some(Read(c, rest))
  }

  /** What f writes for a code unit is read back as it, whatever follows. */
  ghost predicate ReadsEach(f: CodeUnit -> Text) {
    forall c: CodeUnit, rest: Text :: ReadsOne(f, c, rest)
  }

  lemma {:induction false} FlatMapReads(f: CodeUnit -> Text, s: Text, rest: Text)
    requires ReadsEach(f)
    ensures ReadChars(FlatMap(f, s) + ([QUOTE] + rest)) == Some(Read(s, rest))
    decreases |s|
  {
    var tail := [QUOTE] + rest;
    if s == [] {
      assert FlatMap(f, s) + tail == tail && tail[1..] == rest;
    } else {
      var more := FlatMap(f, s[1..]) + tail;
      FlatMapFront(f, s);
      Concatenated(f(s[0]), FlatMap(f, s[1..]), tail);
      FlatMapReads(f, s[1..], rest);
      assert ReadsOne(f, s[0], more);
      CharThenMore(f(s[0]), s[0], more, s[1..], rest);
      assert s == [s[0]] + s[1..];
    }
  }

  lemma EscapedReads(s: Text, rest: Text)
    ensures ReadChars(Escaped(s) + ([QUOTE] + rest)) == Some(Read(s, rest))
  {
    forall c: CodeUnit, more: Text ensures ReadsOne(Escape, c, more) {
      EscapeReads(c, more);
    }
    FlatMapReads(Escape, s, rest);
  }

  lemma {:induction false} NumeralRunStops(t: Text, rest: Text)
    requires !StartsWithNumeralUnit(rest) && forall i :: 0 <= i < |t| ==> IsNumeralUnit(t[i])
    ensures NumeralRun(t + rest) == |t|
  {
    if t == [] {
      assert t + rest == rest;
    } else {
      NumeralRunStops(t[1..], rest);
      assert (t + rest)[1..] == t[1..] + rest;
    }
  }

  /** Whatever follows, so long as it cannot be part of a number, the text is read back as the value. */
  ghost predicate Reads(text: Text, v: Json) {
    && text != [] && text[0] != RIGHT_BRACKET
    && forall rest | !StartsWithNumeralUnit(rest) :: ReadValue(text + rest) == Some(Read(v, rest))
  }

  ghost predicate EntryReads(text: Text, e: Entry) {
    && text != [] && text[0] != RIGHT_BRACE
    && forall rest | !StartsWithNumeralUnit(rest) :: ReadEntry(text + rest) == Some(Read(e, rest))
  }

  lemma Regroup(a: Text, b: Text, c: Text, d: Text)
    ensures (a + b + c) + d == a + (b + (c + d))
  {
  }

  /** A join of several is its first part, a comma and the join of the others. */
  lemma {:induction false} JoinUnfolds(parts: seq<Result<Text, RangeError>>, end: Text)
    requires |parts| > 1 && Join(parts).Success?
    ensures parts[0].Success? && Join(parts[1..]).Success?
    ensures Join(parts).value == parts[0].value + [COMMA] + Join(parts[1..]).value
    ensures Join(parts).value + end == parts[0].value + ([COMMA] + (Join(parts[1..]).value + end))
  {
    Regroup(parts[0].value, [COMMA], Join(parts[1..]).value, end);
  }

  lemma JoinStarts(parts: seq<Result<Text, RangeError>>)
    requires parts != [] && Join(parts).Success?
    ensures parts[0].Success?
    ensures parts[0].value != [] ==> Join(parts).value != [] && Join(parts).value[0] == parts[0].value[0]
  {
  }

  lemma LastItemReads(text: Text, v: Json, rest: Text)
    requires Reads(text, v)
    ensures ReadItems(text + ([RIGHT_BRACKET] + rest)) == Some(Read([v], rest))
  {
    assert ([RIGHT_BRACKET] + rest)[1..] == rest;
  }

  lemma ItemThenMore(text: Text, v: Json, more: Text, values: seq<Json>, rest: Text)
    requires Reads(text, v) && ReadItems(more) == Some(Read(values, rest))
    ensures ReadItems(text + ([COMMA] + more)) == Some(Read([v] + values, rest))
  {
    assert ([COMMA] + more)[1..] == more;
  }

  lemma {:induction false} ItemsStep(parts: seq<Result<Text, RangeError>>, values: seq<Json>, rest: Text)
    requires |parts| == |values| > 1 && Join(parts).Success? && Reads(parts[0].value, values[0])
    requires ReadItems(Join(parts[1..]).value + ([RIGHT_BRACKET] + rest)) == Some(Read(values[1..], rest))
    ensures ReadItems(Join(parts).value + ([RIGHT_BRACKET] + rest)) == Some(Read(values, rest))
  {
    var end := [RIGHT_BRACKET] + rest;
    JoinUnfolds(parts, end);
    ItemThenMore(parts[0].value, values[0], Join(parts[1..]).value + end, values[1..], rest);
    assert values == [values[0]] + values[1..];
  }

  ghost predicate AllItemsRead(parts: seq<Result<Text, RangeError>>, values: seq<Json>) {
    |parts| == |values| && forall i :: 0 <= i < |parts| && parts[i].Success? ==> Reads(parts[i].value, values[i])
  }

  lemma OtherItemsRead(parts: seq<Result<Text, RangeError>>, values: seq<Json>)
    requires AllItemsRead(parts, values) && parts != []
    ensures AllItemsRead(parts[1..], values[1..])
  {
    var others, more := parts[1..], values[1..];
    forall i | 0 <= i < |others| && others[i].Success? ensures Reads(others[i].value, more[i]) {
      assert others[i] == parts[i + 1] && more[i] == values[i + 1];
    }
  }

  lemma {:induction false} JoinedItemsRead(parts: seq<Result<Text, RangeError>>, values: seq<Json>, rest: Text)
    requires AllItemsRead(parts, values) && parts != [] && Join(parts).Success?
    ensures ReadItems(Join(parts).value + ([RIGHT_BRACKET] + rest)) == Some(Read(values, rest))
    decreases |parts|
  {
    assert Reads(parts[0].value, values[0]);
    if |parts| == 1 {
      LastItemReads(parts[0].value, values[0], rest);
      assert values == [values[0]];
    } else {
      OtherItemsRead(parts, values);
      JoinedItemsRead(parts[1..], values[1..], rest);
      ItemsStep(parts, values, rest);
    }
  }

  lemma LastEntryReads(text: Text, e: Entry, rest: Text)
    requires EntryReads(text, e)
    ensures ReadEntries(text + ([RIGHT_BRACE] + rest)) == Some(Read([e], rest))
  {
    assert ([RIGHT_BRACE] + rest)[1..] == rest;
  }

  lemma EntryThenMore(text: Text, e: Entry, more: Text, entries: seq<Entry>, rest: Text)
    requires EntryReads(text, e) && ReadEntries(more) == Some(Read(entries, rest))
    ensures ReadEntries(text + ([COMMA] + more)) == Some(Read([e] + entries, rest))
  {
    assert ([COMMA] + more)[1..] == more;
  }

  lemma EntriesStep(parts: seq<Result<Text, RangeError>>, entries: seq<Entry>, rest: Text)
    requires |parts| == |entries| > 1 && Join(parts).Success? && EntryReads(parts[0].value, entries[0])
    requires ReadEntries(Join(parts[1..]).value + ([RIGHT_BRACE] + rest)) == Some(Read(entries[1..], rest))
    ensures ReadEntries(Join(parts).value + ([RIGHT_BRACE] + rest)) == Some(Read(entries, rest))
  {
    var end := [RIGHT_BRACE] + rest;
    JoinUnfolds(parts, end);
    EntryThenMore(parts[0].value, entries[0], Join(parts[1..]).value + end, entries[1..], rest);
    assert entries == [entries[0]] + entries[1..];
  }

  ghost predicate AllEntriesRead(parts: seq<Result<Text, RangeError>>, entries: seq<Entry>) {
    |parts| == |entries| && forall i :: 0 <= i < |parts| && parts[i].Success? ==> EntryReads(parts[i].value, entries[i])
  }

  lemma OtherEntriesRead(parts: seq<Result<Text, RangeError>>, entries: seq<Entry>)
    requires AllEntriesRead(parts, entries) && parts != []
    ensures AllEntriesRead(parts[1..], entries[1..])
  {
    var others, more := parts[1..], entries[1..];
    forall i | 0 <= i < |others| && others[i].Success? ensures EntryReads(others[i].value, more[i]) {
      assert others[i] == parts[i + 1] && more[i] == entries[i + 1];
    }
  }

  lemma {:induction false} JoinedEntriesRead(parts: seq<Result<Text, RangeError>>, entries: seq<Entry>, rest: Text)
    requires AllEntriesRead(parts, entries) && parts != [] && Join(parts).Success?
    ensures ReadEntries(Join(parts).value + ([RIGHT_BRACE] + rest)) == Some(Read(entries, rest))
    decreases |parts|
  {
    assert EntryReads(parts[0].value, entries[0]);
    if |parts| == 1 {
      LastEntryReads(parts[0].value, entries[0], rest);
      assert entries == [entries[0]];
    } else {
      OtherEntriesRead(parts, entries);
      JoinedEntriesRead(parts[1..], entries[1..], rest);
      EntriesStep(parts, entries, rest);
    }
  }

  lemma EntryThenRest(key: Text, body: Text, v: Json, rest: Text)
    requires ReadValue(body) == Some(Read(v, rest))
    ensures ReadEntry([QUOTE] + (Escaped(key) + ([QUOTE] + ([COLON] + body)))) == Some(Read(Entry(key, v), rest))
  {
    EscapedReads(key, [COLON] + body);
    var inner := Escaped(key) + ([QUOTE] + ([COLON] + body));
    assert ([QUOTE] + inner)[1..] == inner && ([COLON] + body)[1..] == body;
  }

  lemma EntryParts(key: Text, text: Text, rest: Text)
    ensures (Quoted(key) + [COLON] + text) + rest == [QUOTE] + (Escaped(key) + ([QUOTE] + ([COLON] + (text + rest))))
  {
    Around(QUOTE, Escaped(key), QUOTE, [COLON] + (text + rest));
    Regroup(Quoted(key), [COLON], text, rest);
  }

  lemma NamedReads(key: Text, text: Text, v: Json)
    requires Reads(text, v)
    ensures EntryReads(Quoted(key) + [COLON] + text, Entry(key, v))
  {
    var whole := Quoted(key) + [COLON] + text;
    forall rest | !StartsWithNumeralUnit(rest) ensures ReadEntry(whole + rest) == Some(Read(Entry(key, v), rest)) {
      EntryThenRest(key, text + rest, v, rest);
      EntryParts(key, text, rest);
    }
  }

  lemma Around(left: CodeUnit, body: Text, right: CodeUnit, rest: Text)
    ensures ([left] + body + [right]) + rest == [left] + (body + ([right] + rest))
  {
  }

  lemma {:induction false} BracketReads(body: Text)
    requires body != []
    ensures ReadValue([LEFT_BRACKET] + body) ==
            if body[0] == RIGHT_BRACKET then Some(Read(Arr([]), body[1..]))
            else if ReadItems(body).None? then None
            else Some(Read(Arr(ReadItems(body).value.value), ReadItems(body).value.rest))
  {
    var s := [LEFT_BRACKET] + body;
    assert s[0] == LEFT_BRACKET && s[1..] == body && s[2..] == body[1..];
  }

  lemma {:induction false} BraceReads(body: Text)
    requires body != []
    ensures ReadValue([LEFT_BRACE] + body) ==
            if body[0] == RIGHT_BRACE then Some(Read(Obj([]), body[1..]))
            else if ReadEntries(body).None? then None
            else Some(Read(Obj(ReadEntries(body).value.value), ReadEntries(body).value.rest))
  {
    var s := [LEFT_BRACE] + body;
    assert s[0] == LEFT_BRACE && s[1..] == body && s[2..] == body[1..];
  }

  lemma QuoteReads(body: Text)
    ensures ReadValue([QUOTE] + body) ==
            if ReadChars(body).None? then None
            else Some(Read(Str(ReadChars(body).value.value), ReadChars(body).value.rest))
  {
    var s := [QUOTE] + body;
    assert s[0] == QUOTE && s[1..] == body;
  }

  lemma ListReads(parts: seq<Result<Text, RangeError>>, values: seq<Json>)
    requires Wrapped(LEFT_BRACKET, parts, RIGHT_BRACKET).Success?
    requires AllItemsRead(parts, values)
    ensures Reads(Wrapped(LEFT_BRACKET, parts, RIGHT_BRACKET).value, Arr(values))
  {
    var text, body := Wrapped(LEFT_BRACKET, parts, RIGHT_BRACKET).value, Join(parts).value;
    forall rest | !StartsWithNumeralUnit(rest) ensures ReadValue(text + rest) == Some(Read(Arr(values), rest)) {
      var end := [RIGHT_BRACKET] + rest;
      Around(LEFT_BRACKET, body, RIGHT_BRACKET, rest);
      BracketReads(body + end);
      if parts == [] {
        assert body + end == end && end[1..] == rest;
      } else {
        JoinStarts(parts);
        JoinedItemsRead(parts, values, rest);
      }
    }
  }

  lemma ObjectReads(parts: seq<Result<Text, RangeError>>, entries: seq<Entry>)
    requires Wrapped(LEFT_BRACE, parts, RIGHT_BRACE).Success?
    requires AllEntriesRead(parts, entries)
    ensures Reads(Wrapped(LEFT_BRACE, parts, RIGHT_BRACE).value, Obj(entries))
  {
    var text, body := Wrapped(LEFT_BRACE, parts, RIGHT_BRACE).value, Join(parts).value;
    forall rest | !StartsWithNumeralUnit(rest) ensures ReadValue(text + rest) == Some(Read(Obj(entries), rest)) {
      var end := [RIGHT_BRACE] + rest;
      Around(LEFT_BRACE, body, RIGHT_BRACE, rest);
      BraceReads(body + end);
      if parts == [] {
        assert body + end == end && end[1..] == rest;
      } else {
        JoinStarts(parts);
        JoinedEntriesRead(parts, entries, rest);
      }
    }
  }

  lemma StringReads(s: Text)
    ensures Reads(Quoted(s), Str(s))
  {
    forall rest | !StartsWithNumeralUnit(rest) ensures ReadValue(Quoted(s) + rest) == Some(Read(Str(s), rest)) {
      EscapedReads(s, rest);
      QuoteReads(Escaped(s) + ([QUOTE] + rest));
      Around(QUOTE, Escaped(s), QUOTE, rest);
    }
  }

  lemma NumberReads(t: Numeral)
    ensures Reads(t, Num(t))
  {
    forall rest | !StartsWithNumeralUnit(rest) ensures ReadValue(t + rest) == Some(Read(Num(t), rest)) {
      NumeralRunStops(t, rest);
      assert (t + rest)[..|t|] == t && (t + rest)[|t|..] == rest && (t + rest)[0] == t[0];
    }
  }

  lemma WordReads(word: Text, v: Json)
    requires (word == NULL_TEXT && v == Null) || (word == TRUE_TEXT && v == Bool(true))
      || (word == FALSE_TEXT && v == Bool(false))
    ensures Reads(word, v)
  {
    forall rest | !StartsWithNumeralUnit(rest) ensures ReadValue(word + rest) == Some(Read(v, rest)) {
      var s := word + rest;
      assert s[|word|..] == rest && word <= s && s[0] == word[0];
      assert NULL_TEXT <= s ==> s[0] == NULL_TEXT[0];
      assert TRUE_TEXT <= s ==> s[0] == TRUE_TEXT[0];
    }
  }

  /** Whatever the encoder writes is read back as the normal form of what it was given. */
  lemma {:induction false} EncodeReads(v: Json)
    requires Encode(v).Success?
    ensures Reads(Encode(v).value, Normal(v))
  {
    match v
    case Null => WordReads(NULL_TEXT, Null);
    case Undefined => WordReads(NULL_TEXT, Null);
    case Bool(b) => WordReads(Encode(v).value, v);
    case NonFinite =>
    case Num(t) => NumberReads(t);
    case Str(s) => StringReads(s);
    case Arr(items) =>
      var parts := seq(|items|, i requires 0 <= i < |items| => Encode(items[i]));
      forall i | 0 <= i < |parts| && parts[i].Success? ensures Reads(parts[i].value, Normal(v).items[i]) {
        EncodeReads(items[i]);
      }
      ListReads(parts, Normal(v).items);
    case Obj(entries) =>
      var sorted := SortEntries(Kept(entries));
      var parts := seq(|sorted|, i requires 0 <= i < |sorted| =>
        EntryIsSmaller(entries, sorted[i]); Named(sorted[i].key, Encode(sorted[i].value)));
      forall i | 0 <= i < |parts| && parts[i].Success? ensures EntryReads(parts[i].value, Normal(v).entries[i]) {
        EntryIsSmaller(entries, sorted[i]);
        EncodeReads(sorted[i].value);
        assert parts[i] == Named(sorted[i].key, Encode(sorted[i].value));
        NamedReads(sorted[i].key, Encode(sorted[i].value).value, Normal(sorted[i].value));
      }
      ObjectReads(parts, Normal(v).entries);
  }
}
