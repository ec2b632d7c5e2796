/**
 Money as whole cents (worker/src/domain/money.ts). Every amount the program
 does arithmetic on is a safe integer, on which its floating-point operations
 are exact, so they are integer operations here; the checks that an amount is
 safe are kept.
 */
module Money {
  import opened Prelude
  import opened DecimalText

  const MAX_SAFE_CENTS := 9007199254740991

  datatype RangeError = NotSafe | DivisionByZero | NotDecimal

  predicate IsSafe(n: int) {
    -MAX_SAFE_CENTS <= n <= MAX_SAFE_CENTS
  }

  function AssertSafe(n: int): Result<int, RangeError> {
    if IsSafe(n) then Success(n) else Failure(NotSafe)
  }

  function Abs(n: int): nat {
    if n < 0 then -n else n
  }

  function DivideHalfUp(numerator: int, denominator: int): Result<int, RangeError> {
    if !IsSafe(numerator) then Failure(NotSafe)
    else if denominator == 0 then Failure(DivisionByZero)
    else
      var negative := (numerator < 0) != (denominator < 0);
      var a, b := Abs(numerator), Abs(denominator);
      var quotient := a / b;
      var twiceRemainder := (a - quotient * b) * 2;
      var rounded := if twiceRemainder >= b then quotient + 1 else quotient;
      AssertSafe(if negative then -rounded else rounded)
  }

  /** r is a whole number nearest to n/d, and of two equally near the one farther from zero. */
  predicate IsNearest(n: int, d: int, r: int) {
    && 2 * Abs(n - r * d) <= Abs(d)
    && (2 * Abs(n - r * d) == Abs(d) ==> Abs(r * d) > Abs(n))
  }

  lemma Grows(k: nat, d: nat)
    requires k >= 1
    ensures k * d >= d
  {
    assert k * d == (k - 1) * d + d;
  }

  lemma Multiple(k: int, d: int)
    ensures k != 0 ==> Abs(k * d) >= Abs(d)
    ensures k == 0 ==> k * d == 0
  {
    if k != 0 {
      Grows(Abs(k), Abs(d));
      assert Abs(k) * Abs(d) == Abs(k * d);
    }
  }

  /** Of the multiples of d, only one is nearest to n. */
  lemma OneMultiple(n: int, d: int, x: int, y: int)
    requires d != 0 && (x == y || Abs(x - y) >= Abs(d))
    requires (x == 0 || Abs(x) >= Abs(d)) && (y == 0 || Abs(y) >= Abs(d))
    requires 2 * Abs(n - x) <= Abs(d) && (2 * Abs(n - x) == Abs(d) ==> Abs(x) > Abs(n))
    requires 2 * Abs(n - y) <= Abs(d) && (2 * Abs(n - y) == Abs(d) ==> Abs(y) > Abs(n))
    ensures x == y
  {
  }

  lemma NearestIsUnique(n: int, d: int, r: int, s: int)
    requires d != 0 && IsNearest(n, d, r) && IsNearest(n, d, s)
    ensures r == s
  {
    Multiple(r, d);
    Multiple(s, d);
    Multiple(r - s, d);
    assert (r - s) * d == r * d - s * d;
    OneMultiple(n, d, r * d, s * d);
  }

  /** The rounding step: p is the multiple of b just below a, and r b the one chosen. */
  lemma HalfUpOfNat(a: nat, b: nat, q: nat, r: nat)
    requires b > 0 && q == a / b
    requires r == if (a - q * b) * 2 >= b then q + 1 else q
    ensures 2 * (r * b - a) <= b && 2 * (a - r * b) < b && r <= a
  {
    var p := q * b;
    assert a == p + a % b;
    assert (q + 1) * b == p + b;
    assert r * b == if r == q then p else p + b;
    if r > 0 {
      Grows(b, r - 1);
      assert b * (r - 1) == r * b - b;
    }
  }

  function Signed(n: int, d: int, q: int): int {
    if (n < 0) != (d < 0) then -q else q
  }

  lemma SignedProduct(n: int, d: int, q: int)
    ensures Signed(n, d, q) * d == if n < 0 then -(q * Abs(d)) else q * Abs(d)
  {
  }

  lemma SignedNearest(n: int, d: int, q: nat)
    requires d != 0 && 2 * (q * Abs(d) - Abs(n)) <= Abs(d) && 2 * (Abs(n) - q * Abs(d)) < Abs(d)
    ensures IsNearest(n, d, Signed(n, d, q))
  {
    SignedProduct(n, d, q);
    var p, x := q * Abs(d), Signed(n, d, q) * d;
    assert x == if n < 0 then -p else p;
  }

  /** It fails only on an unsafe numerator or a zero denominator, and otherwise rounds to the nearest. */
  lemma DivideHalfUpIsNearest(n: int, d: int)
    ensures DivideHalfUp(n, d).Success? <==> -0x1f_ffff_ffff_ffff <= n <= 0x1f_ffff_ffff_ffff && d != 0
    ensures DivideHalfUp(n, d).Success? ==> IsNearest(n, d, DivideHalfUp(n, d).value)
  {
    if IsSafe(n) && d != 0 {
      var a, b := Abs(n), Abs(d);
      var q := a / b;
      var r := if (a - q * b) * 2 >= b then q + 1 else q;
      HalfUpOfNat(a, b, q, r);
      SignedNearest(n, d, r);
      assert DivideHalfUp(n, d) == AssertSafe(Signed(n, d, r));
    }
  }

  // ------------------------------------------------------------- traveler shares

  function Seats(payingTravelers: int): int {
    Max(1, payingTravelers)
  }

  function PerTravelerCents(partyCents: int, payingTravelers: int): Result<int, RangeError> {
    DivideHalfUp(partyCents, Seats(payingTravelers))
  }

  function PartyTotalCents(perTraveler: int, payingTravelers: int): Result<int, RangeError> {
    AssertSafe(perTraveler * Seats(payingTravelers))
  }

  /** A share taken of a total made of shares is the share it was made of. */
  lemma ShareOfTotal(perTraveler: int, payingTravelers: int)
    requires PartyTotalCents(perTraveler, payingTravelers).Success?
    ensures PerTravelerCents(PartyTotalCents(perTraveler, payingTravelers).value, payingTravelers)
      == Success(perTraveler)
  {
    var total, seats := PartyTotalCents(perTraveler, payingTravelers).value, Seats(payingTravelers);
    DivideHalfUpIsNearest(total, seats);
    NearestIsUnique(total, seats, perTraveler, DivideHalfUp(total, seats).value);
  }

  /** A total made of a share misses what the share was taken of by at most half a cent a seat. */
  lemma TotalOfShare(partyCents: int, payingTravelers: int)
    requires PerTravelerCents(partyCents, payingTravelers).Success?
    ensures
      var share := PerTravelerCents(partyCents, payingTravelers).value;
      2 * Abs(share * Seats(payingTravelers) - partyCents) <= Seats(payingTravelers)
  {
    DivideHalfUpIsNearest(partyCents, Seats(payingTravelers));
  }

  lemma NoRoom(a: int, b: int, d: int, x: int, y: int)
    requires a <= b && 0 < d && x - y >= d && 2 * Abs(a - x) <= d && 2 * Abs(b - y) <= d
    ensures a == b
  {
  }

  lemma NearestKeepsOrder(a: int, b: int, d: int, r: int, s: int)
    requires a <= b && 0 < d && IsNearest(a, d, r) && IsNearest(b, d, s)
    ensures r <= s
  {
    if r > s {
      Grows(r - s, d);
      assert (r - s) * d == r * d - s * d;
      NoRoom(a, b, d, r * d, s * d);
      NearestIsUnique(a, d, r, s);
    }
  }

  /** Rounding keeps the order of the amounts. */
  lemma SharesKeepOrder(a: int, b: int, payingTravelers: int)
    requires a <= b
    requires PerTravelerCents(a, payingTravelers).Success? && PerTravelerCents(b, payingTravelers).Success?
    ensures PerTravelerCents(a, payingTravelers).value <= PerTravelerCents(b, payingTravelers).value
  {
    var seats := Seats(payingTravelers);
    DivideHalfUpIsNearest(a, seats);
    DivideHalfUpIsNearest(b, seats);
    NearestKeepsOrder(a, b, seats, DivideHalfUp(a, seats).value, DivideHalfUp(b, seats).value);
  }

  // ----------------------------------------------------------- percentage drops

  /** In hundredths of a percent; nothing when there is no positive price to compare with. */
  function DropPercentBp(dropCents: int, previousCents: int): Result<Option<int>, RangeError> {
    if previousCents <= 0 then Success(None)
    else
      var r := DivideHalfUp(dropCents * 10000, previousCents);
      if r.Failure? then Failure(r.error) else Success(Some(r.value))
  }

  /** What is nearest to a quotient between 0 and 10000 is between 0 and 10000. */
  lemma Between(n: int, d: int, r: int)
    requires d > 0 && 0 <= n <= 10000 * d && IsNearest(n, d, r)
    ensures 0 <= r <= 10000
  {
    Multiple(r, d);
    Multiple(r - 10000, d);
    assert (r - 10000) * d == r * d - 10000 * d;
    assert r < 0 ==> r * d < 0;
    assert r > 10000 ==> (r - 10000) * d > 0;
  }

  /** A drop of no more than the whole price is between nothing and all of it. */
  lemma DropPercentIsAPercentage(dropCents: int, previousCents: int)
    requires 0 <= dropCents <= previousCents && 0 < previousCents && IsSafe(dropCents * 10000)
    ensures
      var r := DropPercentBp(dropCents, previousCents);
      && r.Success? && r.value.Some? && 0 <= r.value.value <= 10000
      && (dropCents == previousCents ==> r.value.value == 10000)
      && (dropCents == 0 ==> r.value.value == 0)
  {
    DivideHalfUpIsNearest(dropCents * 10000, previousCents);
    var r := DivideHalfUp(dropCents * 10000, previousCents).value;
    Between(dropCents * 10000, previousCents, r);
    if dropCents == previousCents {
      NearestIsUnique(dropCents * 10000, previousCents, r, 10000);
    }
    if dropCents == 0 {
      NearestIsUnique(0, previousCents, r, 0);
    }
  }

  // ------------------------------------------------------------- decimal strings

  /** Cents without trailing zeros, and without a point when there is nothing after it. */
  function DecimalFromCents(cents: int): Result<Text, RangeError> {
    if !IsSafe(cents) then Failure(NotSafe)
    else
      var abs := Abs(cents);
      var whole, fraction := abs / 100, abs % 100;
      var body :=
        if fraction == 0 then Digits(whole)
        else if fraction % 10 == 0 then Digits(whole) + [DOT] + Digits(fraction / 10)
        else Digits(whole) + [DOT] + PadZeros(Digits(fraction), 2);
      Success(if cents < 0 then [MINUS] + body else body)
  }

  function PadZeros(s: Text, width: nat): Text {
    if |s| >= width then s else seq(width - |s|, i => 0x30) + s
  }

  predicate IsSpace(c: CodeUnit) {
    || 0x09 <= c <= 0x0d || c == 0x20 || c == 0xa0 || c == 0x1680 || 0x2000 <= c <= 0x200a
    || c == 0x2028 || c == 0x2029 || c == 0x202f || c == 0x205f || c == 0x3000 || c == 0xfeff
  }

  function TrimStart(s: Text): Text {
    if s != [] && IsSpace(s[0]) then TrimStart(s[1..]) else s
  }

  function TrimEnd(s: Text): Text {
    if s != [] && IsSpace(s[|s| - 1]) then TrimEnd(s[..|s| - 1]) else s
  }

  function Trim(s: Text): Text {
    TrimEnd(TrimStart(s))
  }

  /** How many digits the text starts with. */
  function DigitRun(s: Text): (n: nat)
    ensures n <= |s| && AllDigits(s[..n]) && (n < |s| ==> !IsDigit(s[n]))
  {
    if StartsWithDigit(s) then
      var n := DigitRun(s[1..]);
      assert s[..n + 1] == [s[0]] + s[1..][..n];
      n + 1
    else 0
  }

  datatype Amount = Amount(negative: bool, whole: Text, fraction: Text)

  predicate IsAmount(a: Amount) {
    a.whole != [] && AllDigits(a.whole) && AllDigits(a.fraction)
  }

  /** The parts of an optional minus, digits and, after a point, more digits. */
  function Parts(s: Text): (r: Option<Amount>)
    ensures r.Some? ==> IsAmount(r.value)
  {
    var negative := s != [] && s[0] == MINUS;
    var body := if negative then s[1..] else s;
    var n := DigitRun(body);
    if n == 0 then None
    else if n == |body| then Some(Amount(negative, body, []))
    else if body[n] == DOT && n + 1 < |body| && DigitRun(body[n + 1..]) == |body| - n - 1 then
      var fraction := body[n + 1..];
      assert fraction == fraction[..|fraction|];
      Some(Amount(negative, body[..n], fraction))
    else None
  }

  /** Two places, and a third to round by. */
  function Rounded(whole: nat, fraction: Text): nat
    requires AllDigits(fraction)
  {
    assert IsDigit(0x30);
    var padded := (fraction + [0x30, 0x30, 0x30])[..3];
    whole * 100 + ValueOf(padded[..2]) + (if padded[2] - 0x30 >= 5 then 1 else 0)
  }

  function CentsFromDecimal(text: Text): Result<int, RangeError> {
    var amount := Parts(Trim(text));
    if amount.None? then Failure(NotDecimal)
    else
      var cents: int := Rounded(ValueOf(amount.value.whole), amount.value.fraction);
      if !IsSafe(cents) then Failure(NotSafe) else Success(if amount.value.negative then -cents else cents)
  }

  // ----------------------------------------------- cents, to text and back

  lemma {:induction false} RunOfDigits(s: Text, rest: Text)
    requires AllDigits(s) && !StartsWithDigit(rest)
    ensures DigitRun(s + rest) == |s|
  {
    if s == [] {
      assert s + rest == rest;
    } else {
      RunOfDigits(s[1..], rest);
      assert (s + rest)[1..] == s[1..] + rest;
    }
  }

  /** What the amount looks like when written. */
  function Written(a: Amount): Text {
    (if a.negative then [MINUS] else []) + a.whole + (if a.fraction == [] then [] else [DOT] + a.fraction)
  }

  /** The amount without its sign. */
  function Body(whole: Text, fraction: Text): Text {
    whole + (if fraction == [] then [] else [DOT] + fraction)
  }

  lemma RunOfWhole(whole: Text, fraction: Text)
    requires whole != [] && AllDigits(whole) && AllDigits(fraction)
    ensures DigitRun(Body(whole, fraction)) == |whole| && Body(whole, fraction)[..|whole|] == whole
    ensures fraction == [] ==> Body(whole, fraction) == whole
    ensures fraction != [] ==>
      |Body(whole, fraction)| > |whole| + 1 && Body(whole, fraction)[|whole|] == DOT
        && Body(whole, fraction)[|whole| + 1..] == fraction
  {
    RunOfDigits(whole, if fraction == [] then [] else [DOT] + fraction);
  }

  lemma RunOfAll(s: Text)
    requires AllDigits(s)
    ensures DigitRun(s) == |s|
  {
    RunOfDigits(s, []);
    assert s + [] == s;
  }

  lemma WrittenIsBody(a: Amount)
    requires IsAmount(a)
    ensures Written(a) == if a.negative then [MINUS] + Body(a.whole, a.fraction) else Body(a.whole, a.fraction)
    ensures Body(a.whole, a.fraction) != [] && Body(a.whole, a.fraction)[0] != MINUS
  {
    assert Body(a.whole, a.fraction)[0] == a.whole[0];
  }

  lemma PartsOfWritten(a: Amount)
    requires IsAmount(a)
    ensures Parts(Written(a)) == Some(a)
  {
    WrittenIsBody(a);
    assert a.negative ==> Written(a)[1..] == Body(a.whole, a.fraction);
    RunOfWhole(a.whole, a.fraction);
    RunOfAll(a.fraction);
  }

  lemma TrimOfSolid(s: Text)
    requires s != [] && !IsSpace(s[0]) && !IsSpace(s[|s| - 1])
    ensures Trim(s) == s
  {
  }

  lemma TrimOfWritten(a: Amount)
    requires IsAmount(a)
    ensures Trim(Written(a)) == Written(a)
  {
    WrittenIsBody(a);
    var s, body := Written(a), Body(a.whole, a.fraction);
    var last := if a.fraction == [] then a.whole[|a.whole| - 1] else a.fraction[|a.fraction| - 1];
    assert body[|body| - 1] == last && IsDigit(last);
    assert s[|s| - 1] == last;
    TrimOfSolid(s);
  }

  /** The amount a number of cents is written as. */
  function AmountOf(cents: int): (a: Amount)
    ensures IsAmount(a)
  {
    var abs := Abs(cents);
    var fraction := abs % 100;
    Amount(cents < 0, Digits(abs / 100),
           FractionText(fraction))
  }

  function FractionText(fraction: nat): (s: Text)
    requires fraction < 100
    ensures AllDigits(s)
  {
    if fraction == 0 then [] else if fraction % 10 == 0 then Digits(fraction / 10) else PadZeros(Digits(fraction), 2)
  }

  lemma DecimalIsWritten(cents: int)
    requires IsSafe(cents)
    ensures DecimalFromCents(cents) == Success(Written(AmountOf(cents)))
  {
    var a := AmountOf(cents);
    var sign: Text := if cents < 0 then [MINUS] else [];
    assert sign + a.whole + [] == sign + a.whole;
    assert sign + a.whole + ([DOT] + a.fraction) == sign + (a.whole + [DOT] + a.fraction);
    assert cents >= 0 ==>
      sign + a.whole == a.whole && sign + (a.whole + [DOT] + a.fraction) == a.whole + [DOT] + a.fraction;
  }

  lemma RoundedTwoPlaces(whole: nat, fraction: Text, cents: nat)
    requires AllDigits(fraction) && cents < 100
    requires (fraction + [0x30, 0x30, 0x30])[..3] == [0x30 + cents / 10, 0x30 + cents % 10, 0x30]
    ensures Rounded(whole, fraction) == whole * 100 + cents
  {
    var padded := (fraction + [0x30, 0x30, 0x30])[..3];
    assert padded[..2] == [0x30 + cents / 10, 0x30 + cents % 10];
    ValueOfTwo(padded[0], padded[1]);
  }

  lemma TwoPlaces(fraction: nat)
    requires fraction < 100
    ensures (FractionText(fraction) + [0x30, 0x30, 0x30])[..3] == [0x30 + fraction / 10, 0x30 + fraction % 10, 0x30]
  {
    var x, y: CodeUnit := 0x30 + fraction / 10, 0x30 + fraction % 10;
    var zeros: Text := [0x30, 0x30, 0x30];
    if fraction % 10 == 0 {
      assert FractionText(fraction) == if fraction == 0 then [] else [x];
      assert ([x] + zeros)[..3] == [x, y, 0x30] && ([] + zeros)[..3] == zeros;
    } else {
      assert Digits(fraction) == if fraction < 10 then [y] else [x] + [y];
      assert FractionText(fraction) == [x, y];
      assert ([x, y] + zeros)[..3] == [x, y, 0x30];
    }
  }

  lemma AmountIsRounded(cents: int)
    ensures Rounded(ValueOf(AmountOf(cents).whole), AmountOf(cents).fraction) == Abs(cents)
  {
    var abs := Abs(cents);
    ValueOfDigits(abs / 100);
    TwoPlaces(abs % 100);
    RoundedTwoPlaces(abs / 100, FractionText(abs % 100), abs % 100);
  }

  lemma WrittenReadsBack(a: Amount, cents: int)
    requires IsAmount(a) && Rounded(ValueOf(a.whole), a.fraction) == cents && IsSafe(cents)
    ensures CentsFromDecimal(Written(a)) == Success(if a.negative then -cents else cents)
  {
    TrimOfWritten(a);
    PartsOfWritten(a);
  }

  /** Every safe number of cents is read back from its text. */
  lemma CentsRoundTrip(cents: int)
    requires IsSafe(cents)
    ensures DecimalFromCents(cents).Success? && CentsFromDecimal(DecimalFromCents(cents).value) == Success(cents)
  {
    DecimalIsWritten(cents);
    AmountIsRounded(cents);
    WrittenReadsBack(AmountOf(cents), Abs(cents));
  }

  /** So no two amounts share a text. */
  lemma DecimalsDiffer(a: int, b: int)
    requires IsSafe(a) && IsSafe(b) && DecimalFromCents(a) == DecimalFromCents(b)
    ensures a == b
  {
    CentsRoundTrip(a);
    CentsRoundTrip(b);
  }

  // ------------------------------------------------- any text, to the nearest cent

  /** c is v parts of p, in hundredths, rounded up from the half. */
  predicate InHundredths(c: int, v: int, p: int) {
    2 * (c * p) - p <= 200 * v < 2 * (c * p) + p
  }

  lemma MoreTimes(a: int, b: int, c: nat)
    requires a <= b
    ensures a * c <= b * c
  {
    assert (b - a) * c >= 0;
  }

  /** The rounding by the third place: h whole hundredths, t thousandths, and `rest` parts of `unit` beyond. */
  lemma ThirdPlace(h: nat, t: nat, rest: nat, unit: nat)
    requires t < 10 && rest < unit
    ensures InHundredths(h + if t >= 5 then 1 else 0, (10 * h + t) * unit + rest, 1000 * unit)
  {
    var c := h + if t >= 5 then 1 else 0;
    var hu, tu := h * unit, t * unit;
    assert (10 * h + t) * unit == 10 * hu + tu;
    assert (h + 1) * unit == hu + unit;
    assert c * (1000 * unit) == 1000 * (c * unit);
    MoreTimes(t, 9, unit);
    if t >= 5 {
      MoreTimes(5, t, unit);
    } else {
      MoreTimes(t, 4, unit);
    }
  }

  function ThreePlaces(fraction: Text): Text {
    (fraction + [0x30, 0x30, 0x30])[..3]
  }

  lemma RoundedFraction(fraction: Text)
    requires AllDigits(fraction)
    ensures
      var d := ThreePlaces(fraction);
      AllDigits(d) && Rounded(0, fraction) == 10 * (d[0] - 0x30) + (d[1] - 0x30) + if d[2] - 0x30 >= 5 then 1 else 0
  {
    var d := ThreePlaces(fraction);
    ValueOfTwo(d[0], d[1]);
    assert d[..2] == [d[0], d[1]];
  }

  lemma NoFractionRounds()
    ensures InHundredths(Rounded(0, []), ValueOf([]), Pow10(0))
  {
    RoundedFraction([]);
  }

  lemma OneDigitRounds(fraction: Text)
    requires AllDigits(fraction) && |fraction| == 1
    ensures InHundredths(Rounded(0, fraction), ValueOf(fraction), Pow10(1))
  {
    RoundedFraction(fraction);
    ValueOfOne(fraction[0]);
    assert fraction == [fraction[0]];
    assert Pow10(1) == 10;
  }

  lemma {:induction false} TwoDigitsRound(fraction: Text)
    requires AllDigits(fraction) && |fraction| == 2
    ensures InHundredths(Rounded(0, fraction), ValueOf(fraction), Pow10(2))
  {
    RoundedFraction(fraction);
    ValueOfTwo(fraction[0], fraction[1]);
    assert fraction == [fraction[0], fraction[1]];
    assert Pow10(1) == 10 && Pow10(2) == 100;
  }

  lemma {:induction false} FractionRounds(fraction: Text)
    requires AllDigits(fraction)
    ensures InHundredths(Rounded(0, fraction), ValueOf(fraction), Pow10(|fraction|))
  {
    if fraction == [] {
      NoFractionRounds();
    } else if |fraction| == 1 {
      OneDigitRounds(fraction);
    } else if |fraction| == 2 {
      TwoDigitsRound(fraction);
    } else {
      LongFractionRounds(fraction);
    }
  }

  lemma ThousandTimes(k: nat)
    ensures Pow10(k + 3) == 1000 * Pow10(k)
  {
    assert Pow10(k + 1) == 10 * Pow10(k) && Pow10(k + 2) == 10 * Pow10(k + 1);
  }

  lemma {:induction false} LongFractionRounds(fraction: Text)
    requires AllDigits(fraction) && |fraction| >= 3
    ensures InHundredths(Rounded(0, fraction), ValueOf(fraction), Pow10(|fraction|))
  {
    var head, tail := fraction[..3], fraction[3..];
    assert head == ThreePlaces(fraction) && fraction == head + tail;
    RoundedFraction(fraction);
    ValueOfJoined(head, tail);
    ValueOfThree(head);
    ThousandTimes(|tail|);
    LongParts(10 * (head[0] - 0x30) + (head[1] - 0x30), head[2] - 0x30, ValueOf(tail), Pow10(|tail|),
              Rounded(0, fraction), ValueOf(head), ValueOf(fraction), Pow10(|fraction|));
  }

  lemma LongParts(h: nat, t: nat, rest: nat, unit: nat, c: int, head: nat, v: int, p: int)
    requires t < 10 && rest < unit && c == h + (if t >= 5 then 1 else 0) && head == 10 * h + t
    requires v == head * unit + rest && p == 1000 * unit
    ensures InHundredths(c, v, p)
  {
    ThirdPlace(h, t, rest, unit);
  }

  lemma WholeMoves(whole: nat, p: nat, v: nat, c: nat)
    requires p > 0 && InHundredths(c, v, p)
    ensures IsNearest(100 * (whole * p + v), p, whole * 100 + c)
  {
    assert (whole * 100 + c) * p == 100 * (whole * p) + c * p;
  }

  lemma RoundedIsNearest(a: Amount)
    requires IsAmount(a)
    ensures
      var p := Pow10(|a.fraction|);
      IsNearest(100 * (ValueOf(a.whole) * p + ValueOf(a.fraction)), p, Rounded(ValueOf(a.whole), a.fraction))
  {
    FractionRounds(a.fraction);
    WholeMoves(ValueOf(a.whole), Pow10(|a.fraction|), ValueOf(a.fraction), Rounded(0, a.fraction));
  }

  /** However many places it is written with, an amount is read as the nearest whole number of cents. */
  lemma CentsAreNearest(a: Amount)
    requires IsAmount(a) && IsSafe(Rounded(ValueOf(a.whole), a.fraction))
    ensures
      var p := Pow10(|a.fraction|);
      var scaled := 100 * (ValueOf(a.whole) * p + ValueOf(a.fraction));
      var read := CentsFromDecimal(Written(a));
      && read.Success?
      && IsNearest(scaled, p, if a.negative then -read.value else read.value)
  {
    var cents := Rounded(ValueOf(a.whole), a.fraction);
    RoundedIsNearest(a);
    WrittenReadsBack(a, cents);
    var read := CentsFromDecimal(Written(a));
    assert (if a.negative then -read.value else read.value) == cents;
  }
}
