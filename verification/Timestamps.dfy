/**
 Timestamps of the old database and of the export (flightnotify/d1_export.py,
 `to_iso_millis`): text whose order is the order of the instants.
 */
module Timestamps {
  import opened Prelude
  import opened DecimalText
  import opened Canonical

  const HYPHEN: CodeUnit := 0x2d
  const UPPER_T: CodeUnit := 0x54
  const UPPER_Z: CodeUnit := 0x5a
  const SPACE: CodeUnit := 0x20

  /** Year, month and day with hyphens between them. */
  predicate IsDay(s: Text) {
    |s| == 10 && AllDigits(s[..4]) && s[4] == HYPHEN && AllDigits(s[5..7]) && s[7] == HYPHEN && AllDigits(s[8..])
  }

  /** Hours, minutes and seconds with colons between them. */
  predicate IsClock(s: Text) {
    |s| == 8 && AllDigits(s[..2]) && s[2] == COLON && AllDigits(s[3..5]) && s[5] == COLON && AllDigits(s[6..])
  }

  /** What comes after the seconds, without a final Z: nothing, or a point and one to six digits. */
  predicate IsFraction(s: Text) {
    s == [] || (s[0] == DOT && 2 <= |s| <= 7 && AllDigits(s[1..]))
  }

  function WithoutZ(s: Text): Text {
    if s != [] && s[|s| - 1] == UPPER_Z then s[..|s| - 1] else s
  }

  predicate IsSource(s: Text) {
    && |s| >= 19 && IsDay(s[..10]) && (s[10] == SPACE || s[10] == UPPER_T) && IsClock(s[11..19])
    && IsFraction(WithoutZ(s[19..]))
  }

  function FractionOf(s: Text): (f: Text)
    requires IsSource(s)
    ensures |f| <= 6 && AllDigits(f)
  {
    var rest := WithoutZ(s[19..]);
    if rest == [] then [] else rest[1..]
  }

  const SIX_ZEROS: Text := [0x30, 0x30, 0x30, 0x30, 0x30, 0x30]

  /** Six places, padded with zeros on the right. */
  function Micros(s: Text): (m: Text)
    requires IsSource(s)
    ensures |m| == 6 && AllDigits(m)
  {
    (FractionOf(s) + SIX_ZEROS)[..6]
  }

  /** The exported text; nothing for a text that is no timestamp. */
  function ToIsoMillis(s: Text): Option<Text> {
    if !IsSource(s) then None
    else Some(s[..10] + [UPPER_T] + s[11..19] + [DOT] + Micros(s)[..3] + [UPPER_Z])
  }

  // ------------------------------------------------------- the instant it names

  /** Year, month, day, hour, minute, second, and the given fraction of it. */
  function Fields(s: Text, fraction: nat): seq<int>
    requires IsSource(s)
  {
    [ValueOf(s[..10][..4]), ValueOf(s[..10][5..7]), ValueOf(s[..10][8..]),
     ValueOf(s[11..19][..2]), ValueOf(s[11..19][3..5]), ValueOf(s[11..19][6..]), fraction]
  }

  /** The instant to the microsecond. Instants are compared field by field, the year first. */
  function InstantOf(s: Text): seq<int>
    requires IsSource(s)
  {
    Fields(s, ValueOf(Micros(s)))
  }

  /** The instant to the millisecond, cut off. */
  function MillisecondOf(s: Text): seq<int>
    requires IsSource(s)
  {
    Fields(s, ValueOf(Micros(s)) / 1000)
  }

  // ---------------------------------------------------- fixed-width text in order

  lemma {:induction false} BeforeInParts(a: Text, b: Text, x: Text, y: Text)
    requires |a| == |b|
    ensures Before(a + x, b + y) <==> Before(a, b) || (a == b && Before(x, y))
    ensures a + x == b + y <==> a == b && x == y
  {
    if a == [] {
      assert a + x == x && b + y == y;
    } else {
      assert (a + x)[1..] == a[1..] + x && (b + y)[1..] == b[1..] + y;
      BeforeInParts(a[1..], b[1..], x, y);
      assert a == [a[0]] + a[1..] && b == [b[0]] + b[1..];
      BeforeIsTotal(a, b);
    }
  }

  /** Digits of one width compare as text as their values do. */
  lemma {:induction false} DigitsInOrder(a: Text, b: Text)
    requires |a| == |b| && AllDigits(a) && AllDigits(b)
    ensures Before(a, b) <==> ValueOf(a) < ValueOf(b)
    ensures a == b <==> ValueOf(a) == ValueOf(b)
  {
    if a != [] {
      var n := |a| - 1;
      var x, y := [a[n]], [b[n]];
      DigitsInOrder(a[..n], b[..n]);
      BeforeInParts(a[..n], b[..n], x, y);
      assert a == a[..n] + x && b == b[..n] + y;
      assert Before(x, y) <==> a[n] < b[n];
    }
  }

  /** Fields of fixed width, each followed by its separator. */
  function Layout(fields: seq<Text>, ends: seq<CodeUnit>): Text
    requires |fields| == |ends|
  {
    if fields == [] then [] else fields[0] + ([ends[0]] + Layout(fields[1..], ends[1..]))
  }

  function Values(fields: seq<Text>): seq<int>
    requires forall i :: 0 <= i < |fields| ==> AllDigits(fields[i])
  {
    seq(|fields|, i requires 0 <= i < |fields| => ValueOf(fields[i]))
  }

  /** Lists that differ only from the second number on. */
  lemma BeforeHeads(x: int, xs: seq<int>, y: int, ys: seq<int>)
    ensures Before([x] + xs, [y] + ys) <==> x < y || (x == y && Before(xs, ys))
    ensures [x] + xs == [y] + ys <==> x == y && xs == ys
  {
    assert ([x] + xs)[1..] == xs && ([y] + ys)[1..] == ys;
    assert ([x] + xs)[0] == x && ([y] + ys)[0] == y;
  }

  ghost predicate SameWidths(a: seq<Text>, b: seq<Text>) {
    |a| == |b| && forall i :: 0 <= i < |a| ==> AllDigits(a[i]) && AllDigits(b[i]) && |a[i]| == |b[i]|
  }

  lemma {:induction false} FieldInOrder(a: Text, b: Text, end: CodeUnit, x: Text, y: Text)
    requires |a| == |b| && AllDigits(a) && AllDigits(b)
    ensures Before(a + ([end] + x), b + ([end] + y)) <==>
      ValueOf(a) < ValueOf(b) || (ValueOf(a) == ValueOf(b) && Before(x, y))
    ensures a + ([end] + x) == b + ([end] + y) <==> ValueOf(a) == ValueOf(b) && x == y
  {
    DigitsInOrder(a, b);
    BeforeInParts(a, b, [end] + x, [end] + y);
    BeforeInParts([end], [end], x, y);
    BeforeIsTotal([end], [end]);
  }

  /** An earlier field decides, and within a field the value. */
  lemma {:induction false} LayoutInOrder(a: seq<Text>, b: seq<Text>, ends: seq<CodeUnit>)
    requires SameWidths(a, b) && |ends| == |a|
    ensures Before(Layout(a, ends), Layout(b, ends)) <==> Before(Values(a), Values(b))
    ensures Layout(a, ends) == Layout(b, ends) <==> Values(a) == Values(b)
  {
    if a != [] {
      LayoutInOrder(a[1..], b[1..], ends[1..]);
      FieldInOrder(a[0], b[0], ends[0], Layout(a[1..], ends[1..]), Layout(b[1..], ends[1..]));
      BeforeHeads(ValueOf(a[0]), Values(a[1..]), ValueOf(b[0]), Values(b[1..]));
      assert Values(a) == [ValueOf(a[0])] + Values(a[1..]) && Values(b) == [ValueOf(b[0])] + Values(b[1..]);
    }
  }

  // ----------------------------------------------------------------- the export

  const ENDS: seq<CodeUnit> := [HYPHEN, HYPHEN, UPPER_T, COLON, COLON, DOT, UPPER_Z]

  function Pieces(s: Text): seq<Text>
    requires IsSource(s)
  {
    [s[..10][..4], s[..10][5..7], s[..10][8..], s[11..19][..2], s[11..19][3..5], s[11..19][6..], Micros(s)[..3]]
  }

  lemma DayIsLaidOut(day: Text, rest: Text)
    requires IsDay(day)
    ensures day + ([UPPER_T] + rest)
      == day[..4] + ([HYPHEN] + (day[5..7] + ([HYPHEN] + (day[8..] + ([UPPER_T] + rest)))))
  {
    assert day == day[..4] + [HYPHEN] + day[5..7] + [HYPHEN] + day[8..];
  }

  lemma ClockIsLaidOut(clock: Text, rest: Text)
    requires IsClock(clock)
    ensures clock + ([DOT] + rest) == clock[..2] + ([COLON] + (clock[3..5] + ([COLON] + (clock[6..] + ([DOT] + rest)))))
  {
    assert clock == clock[..2] + [COLON] + clock[3..5] + [COLON] + clock[6..];
  }

  /** The first three of six places are the number of milliseconds, cut off. */
  lemma MillisCutOff(micros: Text)
    requires |micros| == 6 && AllDigits(micros)
    ensures ValueOf(micros[..3]) == ValueOf(micros) / 1000
  {
    ValueOfJoined(micros[..3], micros[3..]);
    assert micros == micros[..3] + micros[3..];
    assert Pow10(1) == 10 && Pow10(2) == 100 && Pow10(3) == 1000;
  }

  lemma LayoutStep(f: Text, fs: seq<Text>, e: CodeUnit, es: seq<CodeUnit>)
    requires |fs| == |es|
    ensures Layout([f] + fs, [e] + es) == f + ([e] + Layout(fs, es))
  {
    assert ([f] + fs)[1..] == fs && ([e] + es)[1..] == es;
  }

  lemma {:induction false} LayoutOfThree(
    a: Text, b: Text, c: Text, x: CodeUnit, y: CodeUnit, z: CodeUnit, fs: seq<Text>, es: seq<CodeUnit>)
    requires |fs| == |es|
    ensures Layout([a, b, c] + fs, [x, y, z] + es) == a + ([x] + (b + ([y] + (c + ([z] + Layout(fs, es))))))
  {
    LayoutStep(c, fs, z, es);
    LayoutStep(b, [c] + fs, y, [z] + es);
    LayoutStep(a, [b] + ([c] + fs), x, [y] + ([z] + es));
    assert [a, b, c] + fs == [a] + ([b] + ([c] + fs)) && [x, y, z] + es == [x] + ([y] + ([z] + es));
  }

  lemma Regroup(day: Text, clock: Text, millis: Text)
    ensures day + [UPPER_T] + clock + [DOT] + millis + [UPPER_Z]
      == day + ([UPPER_T] + (clock + ([DOT] + (millis + [UPPER_Z]))))
  {
  }

  /** The exported text is the seven fields, each followed by its separator. */
  lemma ExportIsLaidOut(s: Text)
    requires IsSource(s)
    ensures ToIsoMillis(s) == Some(Layout(Pieces(s), ENDS))
  {
    var day, clock, millis := s[..10], s[11..19], Micros(s)[..3];
    var last := millis + ([UPPER_Z] + Layout([], []));
    assert last == millis + [UPPER_Z];
    LayoutStep(millis, [], UPPER_Z, []);
    assert [millis] + [] == [millis] && [UPPER_Z] + [] == [UPPER_Z];
    LayoutOfThree(clock[..2], clock[3..5], clock[6..], COLON, COLON, DOT, [millis], [UPPER_Z]);
    LayoutOfThree(day[..4], day[5..7], day[8..], HYPHEN, HYPHEN, UPPER_T,
                  [clock[..2], clock[3..5], clock[6..]] + [millis], [COLON, COLON, DOT] + [UPPER_Z]);
    assert Pieces(s) == [day[..4], day[5..7], day[8..]] + ([clock[..2], clock[3..5], clock[6..]] + [millis]);
    assert ENDS == [HYPHEN, HYPHEN, UPPER_T] + ([COLON, COLON, DOT] + [UPPER_Z]);
    Regroup(day, clock, millis);
    ClockIsLaidOut(clock, last);
    DayIsLaidOut(day, clock + ([DOT] + last));
  }

  lemma PiecesAreMillisecond(s: Text)
    requires IsSource(s)
    ensures |Pieces(s)| == 7 && forall i :: 0 <= i < 7 ==> AllDigits(Pieces(s)[i])
    ensures Values(Pieces(s)) == MillisecondOf(s)
  {
    MillisCutOff(Micros(s));
  }

  lemma PiecesHaveOneWidth(a: Text, b: Text)
    requires IsSource(a) && IsSource(b)
    ensures SameWidths(Pieces(a), Pieces(b))
  {
    PiecesAreMillisecond(a);
    PiecesAreMillisecond(b);
  }

  /** Exported texts are in the order of the milliseconds they name, and equal only for the same millisecond. */
  lemma {:induction false} TextsInOrder(a: Text, b: Text)
    requires IsSource(a) && IsSource(b)
    ensures Before(ToIsoMillis(a).value, ToIsoMillis(b).value) <==> Before(MillisecondOf(a), MillisecondOf(b))
    ensures ToIsoMillis(a) == ToIsoMillis(b) <==> MillisecondOf(a) == MillisecondOf(b)
  {
    PiecesHaveOneWidth(a, b);
    LayoutInOrder(Pieces(a), Pieces(b), ENDS);
    PiecesAreMillisecond(a);
    PiecesAreMillisecond(b);
    ExportIsLaidOut(a);
    ExportIsLaidOut(b);
  }

  lemma {:induction false} CutOffInOrder(xs: seq<int>, ys: seq<int>, m: nat, n: nat)
    requires |xs| == |ys|
    ensures Before(xs + [m], ys + [n]) ==>
      Before(xs + [m / 1000], ys + [n / 1000]) || xs + [m / 1000] == ys + [n / 1000]
    decreases |xs|
  {
    if xs == [] {
      assert [] + [m] == [m] && [] + [n] == [n];
    } else {
      var x, y, xt, yt := xs[0], ys[0], xs[1..], ys[1..];
      CutOffInOrder(xt, yt, m, n);
      BeforeHeads(x, xt + [m], y, yt + [n]);
      BeforeHeads(x, xt + [m / 1000], y, yt + [n / 1000]);
      assert xs + [m] == [x] + (xt + [m]) && ys + [n] == [y] + (yt + [n]);
      assert xs + [m / 1000] == [x] + (xt + [m / 1000]) && ys + [n / 1000] == [y] + (yt + [n / 1000]);
    }
  }

  /**
   So the export never reorders two instants: the earlier one's text is before the later
   one's, or the same within one millisecond.
   */
  lemma ExportKeepsOrder(a: Text, b: Text)
    requires IsSource(a) && IsSource(b) && Before(InstantOf(a), InstantOf(b))
    ensures Before(ToIsoMillis(a).value, ToIsoMillis(b).value) || ToIsoMillis(a) == ToIsoMillis(b)
  {
    var xs, ys := Fields(a, 0)[..6], Fields(b, 0)[..6];
    var m, n := ValueOf(Micros(a)), ValueOf(Micros(b));
    assert InstantOf(a) == xs + [m] && InstantOf(b) == ys + [n];
    assert MillisecondOf(a) == xs + [m / 1000] && MillisecondOf(b) == ys + [n / 1000];
    CutOffInOrder(xs, ys, m, n);
    TextsInOrder(a, b);
  }

  /** An exported text is itself a timestamp, of the same millisecond, and is exported as it is. */
  lemma ExportIsStable(s: Text)
    requires IsSource(s)
    ensures
      var t := ToIsoMillis(s).value;
      |t| == 24 && IsSource(t) && ToIsoMillis(t) == Some(t)
  {
    var t, millis := ToIsoMillis(s).value, Micros(s)[..3];
    assert t[..10] == s[..10] && t[10] == UPPER_T && t[11..19] == s[11..19];
    assert t[19..] == [DOT] + millis + [UPPER_Z];
    assert WithoutZ(t[19..]) == [DOT] + millis;
    assert FractionOf(t) == millis;
    assert Micros(t)[..3] == millis;
  }

  // ------------------------------------------------------- timestamps, piece by piece

  /**
   The pieces of a timestamp: six numbers, the sign before the clock, the digits after the
   point, and a final Z or not.
   */
  datatype Parts = Parts(
    year: Text, month: Text, day: Text, hour: Text, minute: Text, second: Text, spaced: bool, fraction: Text,
    zulu: bool)
  {
    predicate Proper() {
      && |year| == 4 && |month| == |day| == |hour| == |minute| == |second| == 2 && |fraction| <= 6
      && AllDigits(year) && AllDigits(month) && AllDigits(day)
      && AllDigits(hour) && AllDigits(minute) && AllDigits(second) && AllDigits(fraction)
    }

    function Day(): Text {
      year + [0x2d] + month + [0x2d] + day
    }

    function Clock(): Text {
      hour + [0x3a] + minute + [0x3a] + second
    }

    function End(): Text {
      (if fraction == [] then [] else [0x2e] + fraction) + if zulu then [0x5a] else []
    }

    function Written(): Text {
      Day() + [if spaced then 0x20 else 0x54] + Clock() + End()
    }

    /** The digits after the point up to the third, filled up with zeros. */
    function Millis(): Text {
      if |fraction| == 0 then [0x30, 0x30, 0x30]
      else if |fraction| == 1 then [fraction[0], 0x30, 0x30]
      else if |fraction| == 2 then [fraction[0], fraction[1], 0x30]
      else [fraction[0], fraction[1], fraction[2]]
    }

    function Exported(): Text {
      Day() + [0x54] + Clock() + [0x2e] + Millis() + [0x5a]
    }
  }

  lemma EndOfParts(p: Parts)
    requires p.Proper()
    ensures IsFraction(WithoutZ(p.End()))
    ensures WithoutZ(p.End()) == if p.fraction == [] then [] else [DOT] + p.fraction
  {
    var body: Text := if p.fraction == [] then [] else [0x2e] + p.fraction;
    assert body != [] ==> IsDigit(body[|body| - 1]) && body[1..] == p.fraction;
    if p.zulu {
      assert p.End()[..|p.End()| - 1] == body;
    } else {
      assert p.End() == body;
    }
  }

  lemma DayOfParts(p: Parts)
    requires p.Proper()
    ensures IsDay(p.Day()) && IsClock(p.Clock())
  {
    assert p.Day()[..4] == p.year && p.Day()[5..7] == p.month && p.Day()[8..] == p.day;
    assert p.Clock()[..2] == p.hour && p.Clock()[3..5] == p.minute && p.Clock()[6..] == p.second;
  }

  lemma WrittenInParts(p: Parts)
    requires p.Proper()
    ensures
      var s := p.Written();
      && |s| >= 19 && s[..10] == p.Day() && s[11..19] == p.Clock() && s[19..] == p.End()
      && s[10] == if p.spaced then 0x20 else 0x54
  {
  }

  lemma SourceOfParts(p: Parts)
    requires p.Proper()
    ensures IsSource(p.Written()) && FractionOf(p.Written()) == p.fraction
  {
    EndOfParts(p);
    DayOfParts(p);
    WrittenInParts(p);
  }

  lemma MillisOfParts(p: Parts)
    requires p.Proper()
    ensures (p.fraction + SIX_ZEROS)[..6][..3] == p.Millis()
  {
    var padded := p.fraction + SIX_ZEROS;
    assert padded[..6][..3] == [padded[0], padded[1], padded[2]];
  }

  /** A text put together from such pieces is a timestamp, and is exported to the millisecond, cut off. */
  lemma WrittenIsSource(p: Parts)
    requires p.Proper()
    ensures IsSource(p.Written()) && ToIsoMillis(p.Written()) == Some(p.Exported())
  {
    SourceOfParts(p);
    WrittenInParts(p);
    MillisOfParts(p);
  }

  lemma DayInParts(day: Text)
    requires IsDay(day)
    ensures day == day[..4] + [0x2d] + day[5..7] + [0x2d] + day[8..]
  {
  }

  lemma ClockInParts(clock: Text)
    requires IsClock(clock)
    ensures clock == clock[..2] + [0x3a] + clock[3..5] + [0x3a] + clock[6..]
  {
  }

  /** The end of a timestamp: a point and digits or nothing, and a Z or not. */
  lemma EndInParts(end: Text) returns (fraction: Text, zulu: bool)
    requires IsFraction(WithoutZ(end))
    ensures |fraction| <= 6 && AllDigits(fraction)
    ensures end == (if fraction == [] then [] else [0x2e] + fraction) + if zulu then [0x5a] else []
  {
    var body := WithoutZ(end);
    zulu := end != [] && end[|end| - 1] == 0x5a;
    fraction := if body == [] then [] else body[1..];
    assert end == body + if zulu then [0x5a] else [];
  }

  /** And every timestamp is such a text, so that nothing else is exported. */
  lemma SourceIsWritten(s: Text) returns (p: Parts)
    requires IsSource(s)
    ensures p.Proper() && p.Written() == s
  {
    var day, clock := s[..10], s[11..19];
    DayInParts(day);
    ClockInParts(clock);
    var fraction, zulu := EndInParts(s[19..]);
    p := Parts(
      day[..4], day[5..7], day[8..], clock[..2], clock[3..5], clock[6..], s[10] == 0x20, fraction, zulu);
    assert p.Day() == day && p.Clock() == clock && p.End() == s[19..];
    assert s == day + [s[10]] + clock + s[19..];
  }
}
