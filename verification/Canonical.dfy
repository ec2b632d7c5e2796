/**
 The canonical JSON text that every fingerprint is taken of
 (worker/src/domain/canonical.ts), and a reader for it.

 A JavaScript object is its list of entries, in whatever order they were
 inserted. A finite number is what String() makes of it, which is different
 for different numbers.
 */
module Canonical {
  import opened Prelude
  import opened DecimalText
  import opened Sorting

  predicate IsNumeralUnit(c: CodeUnit) {
    IsDigit(c) || c == MINUS || c == DOT || c == 0x2b || c == 0x65
  }

  /** Digits with a sign, a point and an exponent, where there are any. */
  predicate IsNumeral(t: Text) {
    t != [] && (IsDigit(t[0]) || t[0] == MINUS) && forall i :: 0 <= i < |t| ==> IsNumeralUnit(t[i])
  }

  type Numeral = t: Text | IsNumeral(t) witness [0x30]

  /** A whole number. */
  function Whole(n: int): Json {
    var t := IntText(n);
    assert n < 0 ==> t[1..] == Digits(-n);
    Num(t)
  }

  datatype Json =
    | Null
    | Undefined
    | Bool(b: bool)
    | Num(text: Numeral)
    | NonFinite
    | Str(s: Text)
    | Arr(items: seq<Json>)
    | Obj(entries: seq<Entry>)
  {
    predicate Absent() {
      Null? || Undefined?
    }
  }

  datatype Entry = Entry(key: Text, value: Json)

  datatype RangeError = NotFinite

  // ----------------------------------------------------- the order of the keys

  predicate IsHighSurrogate(c: CodeUnit) {
    0xD800 <= c < 0xDC00
  }

  predicate IsLowSurrogate(c: CodeUnit) {
    0xDC00 <= c < 0xE000
  }

  predicate StartsWithPair(s: Text) {
    |s| >= 2 && IsHighSurrogate(s[0]) && IsLowSurrogate(s[1])
  }

  /** The code points of a string: surrogate pairs joined, lone surrogates as they are. */
  function CodePoints(s: Text): seq<int> {
    if s == [] then []
    else if StartsWithPair(s) then [0x1_0000 + (s[0] - 0xD800) * 0x400 + (s[1] - 0xDC00)] + CodePoints(s[2..])
    else [s[0]] + CodePoints(s[1..])
  }

  function UnitsOf(c: int): Text
    requires 0 <= c < 0x11_0000
  {
    if c < 0x1_0000 then [c] else [0xD800 + (c - 0x1_0000) / 0x400, 0xDC00 + (c - 0x1_0000) % 0x400]
  }

  lemma {:induction false} SameCodePoints(a: Text, b: Text)
    requires CodePoints(a) == CodePoints(b)
    ensures a == b
  {
    if a != [] && b != [] {
      var ca, cb := CodePoints(a), CodePoints(b);
      var na, nb := if StartsWithPair(a) then 2 else 1, if StartsWithPair(b) then 2 else 1;
      assert ca[0] == cb[0];
      assert UnitsOf(ca[0]) == a[..na] && UnitsOf(cb[0]) == b[..nb];
      assert ca[1..] == CodePoints(a[na..]) && cb[1..] == CodePoints(b[nb..]);
      SameCodePoints(a[na..], b[nb..]);
      assert a == a[..na] + a[na..] && b == b[..nb] + b[nb..];
    }
  }

  /** The dictionary order. */
  predicate Before(a: seq<int>, b: seq<int>) {
    b != [] && (a == [] || a[0] < b[0] || (a[0] == b[0] && Before(a[1..], b[1..])))
  }

  lemma {:induction false} BeforeIsTotal(a: seq<int>, b: seq<int>)
    ensures Before(a, b) || a == b || Before(b, a)
    ensures !(Before(a, b) && Before(b, a)) && !Before(a, a)
  {
    if a != [] && b != [] && a[0] == b[0] {
      BeforeIsTotal(a[1..], b[1..]);
      assert a == [a[0]] + a[1..] && b == [b[0]] + b[1..];
    }
    if a != [] {
      BeforeIsTotal(a[1..], a[1..]);
    }
  }

  lemma {:induction false} BeforeIsTransitive(a: seq<int>, b: seq<int>, c: seq<int>)
    requires Before(a, b) && Before(b, c)
    ensures Before(a, c)
  {
    if a != [] && a[0] == b[0] == c[0] {
      BeforeIsTransitive(a[1..], b[1..], c[1..]);
    }
  }

  predicate KeyBefore(a: Text, b: Text) {
    Before(CodePoints(a), CodePoints(b))
  }

  lemma KeyBeforeIsTotal(a: Text, b: Text)
    ensures KeyBefore(a, b) || a == b || KeyBefore(b, a)
    ensures !(KeyBefore(a, b) && KeyBefore(b, a)) && !KeyBefore(a, a)
  {
    BeforeIsTotal(CodePoints(a), CodePoints(b));
    BeforeIsTotal(CodePoints(a), CodePoints(a));
    if CodePoints(a) == CodePoints(b) {
      SameCodePoints(a, b);
    }
  }

  lemma {:induction false} BeforeAfterPrefix(a: seq<int>, b: seq<int>, n: nat)
    requires n <= |a| && n <= |b| && a[..n] == b[..n]
    ensures Before(a, b) == Before(a[n..], b[n..])
  {
    if n == 0 {
      assert a[0..] == a && b[0..] == b;
    } else {
      assert a[0] == a[..n][0] == b[..n][0] == b[0];
      assert a[1..][..n - 1] == a[..n][1..] == b[..n][1..] == b[1..][..n - 1];
      BeforeAfterPrefix(a[1..], b[1..], n - 1);
      assert a[1..][n - 1..] == a[n..] && b[1..][n - 1..] == b[n..];
    }
  }

  /** The comparator handed to the sort: its sign is the dictionary order of the code points. */
  method CompareCodePoints(a: Text, b: Text) returns (r: int)
    ensures r < 0 <==> KeyBefore(a, b)
    ensures r > 0 <==> KeyBefore(b, a)
    ensures r == 0 <==> a == b
  {
    var aChars, bChars := CodePoints(a), CodePoints(b);
    var shared := Min(|aChars|, |bChars|);
    KeyBeforeIsTotal(a, b);
    var i := 0;
    while i < shared
      invariant 0 <= i <= shared
      invariant aChars[..i] == bChars[..i]
    {
      if aChars[i] != bChars[i] {
        BeforeAfterPrefix(aChars, bChars, i);
        BeforeAfterPrefix(bChars, aChars, i);
        return aChars[i] - bChars[i];
      }
      i := i + 1;
    }
    BeforeAfterPrefix(aChars, bChars, shared);
    BeforeAfterPrefix(bChars, aChars, shared);
    if |aChars| == |bChars| {
      assert aChars == aChars[..shared] == bChars[..shared] == bChars;
      SameCodePoints(a, b);
    }
    r := |aChars| - |bChars|;
  }

  // ------------------------------------------------------------------ strings

  const QUOTE: CodeUnit := 0x22
  const COMMA: CodeUnit := 0x2c
  const COLON: CodeUnit := 0x3a
  const LEFT_BRACKET: CodeUnit := 0x5b
  const BACKSLASH: CodeUnit := 0x5c
  const RIGHT_BRACKET: CodeUnit := 0x5d
  const LOWER_B: CodeUnit := 0x62
  const LOWER_F: CodeUnit := 0x66
  const LOWER_N: CodeUnit := 0x6e
  const LOWER_R: CodeUnit := 0x72
  const LOWER_T: CodeUnit := 0x74
  const LOWER_U: CodeUnit := 0x75
  const LEFT_BRACE: CodeUnit := 0x7b
  const RIGHT_BRACE: CodeUnit := 0x7d

  const NULL_TEXT: Text := [LOWER_N, LOWER_U, 0x6c, 0x6c]
  const TRUE_TEXT: Text := [LOWER_T, LOWER_R, LOWER_U, 0x65]
  const FALSE_TEXT: Text := [LOWER_F, 0x61, 0x6c, 0x73, 0x65]

  predicate IsHex(c: CodeUnit) {
    IsDigit(c) || 0x61 <= c <= 0x66
  }

  function HexDigit(n: int): (c: CodeUnit)
    requires 0 <= n < 16
    ensures IsHex(c) && HexValue(c) == n
  {
    if n < 10 then 0x30 + n else 0x61 + n - 10
  }

  function HexValue(c: CodeUnit): (n: int)
    requires IsHex(c)
    ensures 0 <= n < 16
  {
    if IsDigit(c) then c - 0x30 else c - 0x61 + 10
  }

  /** The number in base sixteen, without leading zeros. */
  function HexText(n: nat): Text {
    if n < 16 then [HexDigit(n)] else HexText(n / 16) + [HexDigit(n % 16)]
  }

  function PadStart(s: Text, width: nat): Text {
    if |s| >= width then s else seq(width - |s|, i => 0x30) + s
  }

  lemma Sixteenths(c: nat)
    ensures c / 16 / 16 == c / 256 && c / 256 / 16 == c / 4096
  {
  }

  /** Writing a number whose last digit is r after q. */
  lemma HexTextStep(n: nat, q: nat, r: nat)
    requires n == 16 * q + r && r < 16
    ensures HexText(n) == if q == 0 then [HexDigit(r)] else HexText(q) + [HexDigit(r)]
  {
    assert n / 16 == q;
  }

  lemma PadFour(s: Text)
    requires 1 <= |s| <= 4
    ensures PadStart(s, 4) ==
      if |s| == 1 then [0x30, 0x30, 0x30, s[0]] else if |s| == 2 then [0x30, 0x30, s[0], s[1]]
      else if |s| == 3 then [0x30, s[0], s[1], s[2]] else [s[0], s[1], s[2], s[3]]
  {
  }

  lemma {:induction false} FourHexDigits(c: CodeUnit)
    ensures PadStart(HexText(c), 4)
            == [HexDigit(c / 4096), HexDigit(c / 256 % 16), HexDigit(c / 16 % 16), HexDigit(c % 16)]
  {
    Sixteenths(c);
    var a, b, d := c / 16, c / 256, c / 4096;
    HexTextStep(c, a, c % 16);
    HexTextStep(a, b, a % 16);
    HexTextStep(b, d, b % 16);
    HexTextStep(d, 0, d);
    PadFour(HexText(c));
  }

  function ShortEscape(code: CodeUnit): Option<Text> {
    if code == 0x08 then Some([BACKSLASH, LOWER_B])
    else if code == 0x09 then Some([BACKSLASH, LOWER_T])
    else if code == 0x0a then Some([BACKSLASH, LOWER_N])
    else if code == 0x0c then Some([BACKSLASH, LOWER_F])
    else if code == 0x0d then Some([BACKSLASH, LOWER_R])
    else None
  }

  function UnicodeEscape(code: CodeUnit): Text {
    [BACKSLASH, LOWER_U] + PadStart(HexText(code), 4)
  }

  /** What one code unit becomes between the quotes. */
  function Escape(code: CodeUnit): Text {
    if code == BACKSLASH then [BACKSLASH, BACKSLASH]
    else if code == QUOTE then [BACKSLASH, QUOTE]
    else if code < 0x20 then ShortEscape(code).GetOr(UnicodeEscape(code))
    else if code < 0x7f then [code]
    else UnicodeEscape(code)
  }

  /** A digit in base sixteen, in lower case. */
  function LowerHex(d: int): int {
    if d < 10 then 0x30 + d else 0x57 + d
  }

  /** The escapes in figures: the short ones where there is one, and a `u` with four lower-case digits otherwise. */
  lemma EscapeIs(c: CodeUnit)
    ensures Escape(c) ==
      if c == 0x5c then [0x5c, 0x5c]
      else if c == 0x22 then [0x5c, 0x22]
      else if c == 0x08 then [0x5c, 0x62]
      else if c == 0x09 then [0x5c, 0x74]
      else if c == 0x0a then [0x5c, 0x6e]
      else if c == 0x0c then [0x5c, 0x66]
      else if c == 0x0d then [0x5c, 0x72]
      else if 0x20 <= c <= 0x7e then [c]
      else [0x5c, 0x75, LowerHex(c / 4096), LowerHex(c / 256 % 16), LowerHex(c / 16 % 16), LowerHex(c % 16)]
  {
    FourHexDigits(c);
  }

  function FlatMap(f: CodeUnit -> Text, value: Text): Text {
    if value == [] then [] else FlatMap(f, value[..|value| - 1]) + f(value[|value| - 1])
  }

  lemma Concatenated(a: Text, b: Text, c: Text)
    ensures (a + b) + c == a + (b + c)
  {
  }

  lemma {:induction false} FlatMapFront(f: CodeUnit -> Text, s: Text)
    requires s != []
    ensures FlatMap(f, s) == f(s[0]) + FlatMap(f, s[1..])
  {
    var n := |s| - 1;
    if n == 0 {
      assert s[..0] == [] && s[1..] == [];
    } else {
      var mid := s[1..n];
      FlatMapFront(f, s[..n]);
      assert s[..n][1..] == mid && s[..n][0] == s[0];
      assert s[1..][..n - 1] == mid && s[1..][n - 1] == s[n];
      Concatenated(f(s[0]), FlatMap(f, mid), f(s[n]));
    }
  }

  function Escaped(value: Text): Text {
    FlatMap(Escape, value)
  }

  function Quoted(value: Text): Text {
    [QUOTE] + Escaped(value) + [QUOTE]
  }

  lemma OneMore(value: Text, i: nat)
    requires i < |value|
    ensures [QUOTE] + Escaped(value[..i + 1]) == [QUOTE] + Escaped(value[..i]) + Escape(value[i])
  {
    assert value[..i + 1][..i] == value[..i];
  }

  method EncodeString(value: Text) returns (out: Text)
    ensures out == Quoted(value)
  {
    out := [QUOTE];
    var i := 0;
    while i < |value|
      invariant 0 <= i <= |value|
      invariant out == [QUOTE] + Escaped(value[..i])
    {
      var code := value[i];
      OneMore(value, i);
      if code == BACKSLASH {
        out := out + [BACKSLASH, BACKSLASH];
      } else if code == QUOTE {
        out := out + [BACKSLASH, QUOTE];
      } else if code < 0x20 {
        out := out + ShortEscape(code).GetOr(UnicodeEscape(code));
      } else if code < 0x7f {
        out := out + [code];
      } else {
        out := out + UnicodeEscape(code);
      }
      i := i + 1;
    }
    assert value[..|value|] == value;
    out := out + [QUOTE];
  }

  // ----------------------------------------------------------------- encoding

  /** The entries whose value is neither null nor undefined. */
  function Kept(entries: seq<Entry>): (r: seq<Entry>)
    ensures forall e :: e in r <==> e in entries && !e.value.Absent()
  {
    if entries == [] then []
    else if entries[0].value.Absent() then Kept(entries[1..])
    else [entries[0]] + Kept(entries[1..])
  }

  predicate EntryBefore(a: Entry, b: Entry) {
    KeyBefore(a.key, b.key)
  }

  /** The stable sort by key. */
  function SortEntries(entries: seq<Entry>): (r: seq<Entry>)
    ensures forall e :: e in r <==> e in entries
  {
    Sort(EntryBefore, entries)
  }

  lemma EntryIsSmaller(entries: seq<Entry>, e: Entry)
    requires e in entries
    ensures e.value < Obj(entries)
  {
    var i :| 0 <= i < |entries| && entries[i] == e;
  }

  /** The parts with commas between them, unless one of them failed. */
  function Join(parts: seq<Result<Text, RangeError>>): Result<Text, RangeError> {
    if parts == [] then Success([])
    else if parts[0].Failure? then parts[0]
    else if |parts| == 1 then parts[0]
    else
      var more := Join(parts[1..]);
      if more.Failure? then more else Success(parts[0].value + [COMMA] + more.value)
  }

  function Wrapped(left: CodeUnit, parts: seq<Result<Text, RangeError>>, right: CodeUnit): Result<Text, RangeError> {
    var body := Join(parts);
    if body.Failure? then body else Success([left] + body.value + [right])
  }

  function Named(key: Text, value: Result<Text, RangeError>): Result<Text, RangeError> {
    if value.Failure? then value else Success(Quoted(key) + [COLON] + value.value)
  }

  function Encode(v: Json): Result<Text, RangeError> {
    match v
    case Null => Success(NULL_TEXT)
    case Undefined => Success(NULL_TEXT)
    case Bool(b) => Success(if b then TRUE_TEXT else FALSE_TEXT)
    case NonFinite => Failure(NotFinite)
    case Num(text) => Success(text)
    case Str(s) => Success(Quoted(s))
    case Arr(items) =>
      Wrapped(LEFT_BRACKET, seq(|items|, i requires 0 <= i < |items| => Encode(items[i])), RIGHT_BRACKET)
    case Obj(entries) =>
      var sorted := SortEntries(Kept(entries));
      Wrapped(LEFT_BRACE,
              seq(|sorted|, i requires 0 <= i < |sorted| =>
                EntryIsSmaller(entries, sorted[i]);
                Named(sorted[i].key, Encode(sorted[i].value))),
              RIGHT_BRACE)
  }

  /** The value with null entries dropped and keys in order, at every depth. */
  function Normal(v: Json): (r: Json)
    ensures r.Absent() == v.Absent()
  {
    match v
    case Undefined => Null
    case Arr(items) => Arr(seq(|items|, i requires 0 <= i < |items| => Normal(items[i])))
    case Obj(entries) =>
      var sorted := SortEntries(Kept(entries));
      Obj(seq(|sorted|, i requires 0 <= i < |sorted| =>
            EntryIsSmaller(entries, sorted[i]);
            Entry(sorted[i].key, Normal(sorted[i].value))))
    case _ => v
  }

  /** No number in the value is infinite or undefined. */
  predicate Finite(v: Json) {
    match v
    case NonFinite => false
    case Arr(items) => forall i :: 0 <= i < |items| ==> Finite(items[i])
    case Obj(entries) => forall i :: 0 <= i < |entries| ==> Finite(entries[i].value)
    case _ => true
  }
}
