/** Strings of UTF-16 code units, and whole numbers written and read in decimal. */
module DecimalText {
  type CodeUnit = c: int | 0 <= c < 0x1_0000
  type Text = seq<CodeUnit>

  function UnitOf(c: char): CodeUnit {
    if c as int < 0x1_0000 then c as int else 0xfffd
  }

  /** The code units of a literal, whose characters are all ASCII. */
  function Units(s: string): (t: Text)
    ensures |t| == |s|
  {
    seq(|s|, i requires 0 <= i < |s| => UnitOf(s[i]))
  }

  const MINUS: CodeUnit := 0x2d
  const DOT: CodeUnit := 0x2e

  predicate IsDigit(c: CodeUnit) {
    0x30 <= c <= 0x39
  }

  predicate AllDigits(s: Text) {
    forall i :: 0 <= i < |s| ==> IsDigit(s[i])
  }

  predicate StartsWithDigit(s: Text) {
    s != [] && IsDigit(s[0])
  }

  /** A natural number without leading zeros. */
  function Digits(n: nat): (s: Text)
    ensures s != [] && AllDigits(s)
  {
    if n < 10 then [0x30 + n] else Digits(n / 10) + [0x30 + n % 10]
  }

  function IntText(n: int): Text {
    if n < 0 then [MINUS] + Digits(-n) else Digits(n)
  }

  /** The value of a run of digits. */
  function ValueOf(s: Text): nat
    requires AllDigits(s)
  {
    if s == [] then 0 else 10 * ValueOf(s[..|s| - 1]) + (s[|s| - 1] - 0x30)
  }

  lemma {:induction false} ValueOfDigits(n: nat)
    ensures ValueOf(Digits(n)) == n
  {
    if n >= 10 {
      ValueOfDigits(n / 10);
      var s := Digits(n);
      assert s[..|s| - 1] == Digits(n / 10);
    } else {
      assert Digits(n)[..0] == [];
    }
  }

  function Pow10(k: nat): (p: nat)
    ensures p > 0
  {
    if k == 0 then 1 else 10 * Pow10(k - 1)
  }

  lemma TenTimes(a: nat, b: nat)
    ensures a * (10 * b) == 10 * (a * b)
  {
  }

  lemma {:induction false} ValueOfJoined(a: Text, b: Text)
    requires AllDigits(a) && AllDigits(b)
    ensures ValueOf(a + b) == ValueOf(a) * Pow10(|b|) + ValueOf(b)
    ensures ValueOf(b) < Pow10(|b|)
  {
    if b == [] {
      assert a + b == a;
    } else {
      var n := |b| - 1;
      ValueOfJoined(a, b[..n]);
      assert (a + b)[..|a + b| - 1] == a + b[..n] && (a + b)[|a + b| - 1] == b[n];
      var va, vb, p := ValueOf(a), ValueOf(b[..n]), Pow10(n);
      TenTimes(va, p);
      assert ValueOf(a + b) == 10 * (va * p + vb) + (b[n] - 0x30) && ValueOf(b) == 10 * vb + (b[n] - 0x30);
    }
  }

  lemma ValueOfOne(x: CodeUnit)
    requires IsDigit(x)
    ensures ValueOf([x]) == x - 0x30
  {
    var t: Text := [x];
    assert t[..0] == [];
  }

  lemma ValueOfTwo(x: CodeUnit, y: CodeUnit)
    requires IsDigit(x) && IsDigit(y)
    ensures ValueOf([x, y]) == 10 * (x - 0x30) + (y - 0x30)
  {
    var s, t: Text := [x, y], [x];
    assert t[..0] == [];
    assert ValueOf(t) == x - 0x30;
    assert s[..1] == t;
  }

  lemma ValueOfThree(s: Text)
    requires AllDigits(s) && |s| == 3
    ensures ValueOf(s) == 10 * (10 * (s[0] - 0x30) + (s[1] - 0x30)) + (s[2] - 0x30)
  {
    ValueOfTwo(s[0], s[1]);
    assert s[..2] == [s[0], s[1]];
  }

  datatype Read<+T> = Read(value: T, rest: Text)

  lemma DigitsDiffer(n: nat, m: nat)
    ensures Digits(n) == Digits(m) <==> n == m
  {
    ValueOfDigits(n);
    ValueOfDigits(m);
  }

  lemma SignIsFirst(n: int)
    ensures IntText(n) != [] && (IntText(n)[0] == MINUS <==> n < 0)
    ensures n < 0 ==> IntText(n)[1..] == Digits(-n)
  {
  }

  lemma IntTextsDiffer(n: int, m: int)
    ensures IntText(n) == IntText(m) <==> n == m
  {
    SignIsFirst(n);
    SignIsFirst(m);
    if n < 0 && m < 0 {
      DigitsDiffer(-n, -m);
    } else if n >= 0 && m >= 0 {
      DigitsDiffer(n, m);
    }
  }
}
