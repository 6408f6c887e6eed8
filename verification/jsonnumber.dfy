/** Numbers by section 6 of RFC 8259, in every way they can be written, and the proof that the parser reads each of them
    as the real number it stands for (cJSON.c). */
module JsonNumber {
  import opened Words
  import opened JsonValue

  datatype Sign = NoSign | PlusSign | MinusSign

  /** The exponent of a number, if it has one. */
  datatype Power = NoPower | Power(capital: bool, sign: Sign, digits: seq<u8>)

  /** A number as it is written: sign, digits, digits behind a point if there are any, exponent. */
  datatype Numeral = Numeral(negative: bool, whole: seq<u8>, fraction: seq<u8>, power: Power)

  predicate AllDigits(d: seq<u8>) {
    forall i :: 0 <= i < |d| ==> 0x30 <= d[i] <= 0x39
  }

  predicate GoodNumeral(w: Numeral) {
    && AllDigits(w.whole) && w.whole != [] && (|w.whole| > 1 ==> w.whole[0] != 0x30) && AllDigits(w.fraction)
    && (w.power.Power? ==> AllDigits(w.power.digits) && w.power.digits != [])
  }

  function PointText(f: seq<u8>): seq<u8> {
    if f == [] then [] else [0x2E] + f
  }

  function SignText(s: Sign): seq<u8> {
    match s
    case NoSign => []
    case PlusSign => [0x2B]
    case MinusSign => [0x2D]
  }

  function PowerText(p: Power): seq<u8> {
    match p
    case NoPower => []
    case Power(capital, sign, digits) => [if capital then 0x45 else 0x65] + SignText(sign) + digits
  }

  function NumeralText(w: Numeral): seq<u8> {
    (if w.negative then [0x2D] else []) + w.whole + PointText(w.fraction) + PowerText(w.power)
  }

  /** The value of some digits, the last one counting one. */
  function NatOf(d: seq<u8>): nat
    requires AllDigits(d)
  {
    if d == [] then 0 else NatOf(d[..|d| - 1]) * 10 + (d[|d| - 1] as int - 0x30)
  }

  /** The value of some digits behind a point. */
  function FractionOf(f: seq<u8>): real
    requires AllDigits(f)
  {
    if f == [] then 0.0 else ((f[0] as int - 0x30) as real + FractionOf(f[1..])) / 10.0
  }

  function PowerOf(p: Power): int
    requires p.Power? ==> AllDigits(p.digits)
  {
    if p.NoPower? then 0 else if p.sign.MinusSign? then -(NatOf(p.digits) as int) else NatOf(p.digits)
  }

  function NumeralValue(w: Numeral): real
    requires GoodNumeral(w)
  {
    (if w.negative then -1.0 else 1.0) * (NatOf(w.whole) as real + FractionOf(w.fraction)) * Pow10(PowerOf(w.power))
  }

  /** What follows could be taken for more of a number. */
  predicate Continues(rest: seq<u8>) {
    DigitFirst(rest) || Fraction(rest) || Exponent(rest)
  }

  // ---- digits ----

  lemma {:induction false} RunOver(d: seq<u8>, rest: seq<u8>)
    requires AllDigits(d)
    ensures DigitRun(d + rest, 0) == DigitRun(rest, NatOf(d))
  {
    if d == [] {
      assert d + rest == rest;
    } else {
      var last := [d[|d| - 1]] + rest;
      assert d + rest == d[..|d| - 1] + last;
      RunOver(d[..|d| - 1], last);
      assert last[1..] == rest;
    }
  }

  lemma RunStops(rest: seq<u8>, n: nat)
    requires !DigitFirst(rest)
    ensures DigitRun(rest, n) == (n, rest)
  {
  }

  /** The integer part, read behind the sign. */
  lemma WholeRead(d: seq<u8>, rest: seq<u8>)
    requires AllDigits(d) && d != [] && (|d| > 1 ==> d[0] != 0x30) && !DigitFirst(rest)
    ensures WholeAt(d + rest) == (NatOf(d), rest)
  {
    hide DigitRun, NatOf;
    var b := d + rest;
    assert b[0] == d[0];
    if d[0] == 0x30 {
      assert b[1..] == rest;
      ZeroDigit(d);
    } else {
      RunOver(d, rest);
      RunStops(rest, NatOf(d));
    }
  }

  lemma ZeroDigit(d: seq<u8>)
    requires d == [0x30]
    ensures NatOf(d) == 0
  {
    assert d[..0] == [];
  }

  // ---- fractions ----

  /** `m` is `n` with the digits of `f` behind it. */
  ghost predicate Joined(n: nat, f: seq<u8>, m: nat) {
    AllDigits(f) && m as real == (n as real + FractionOf(f)) * Pow10(|f|)
  }

  lemma JoinedNext(n: nat, f: seq<u8>, m: nat)
    requires AllDigits(f) && f != [] && Joined(n * 10 + (f[0] as int - 0x30), f[1..], m)
    ensures Joined(n, f, m)
  {
    ShiftPoint(n as real, (f[0] as int - 0x30) as real, FractionOf(f[1..]), Pow10(|f| - 1));
  }

  lemma JoinedNone(n: nat)
    ensures Joined(n, [], n)
  {
  }

  /** Digits behind those of `n` are read as one number, and end with it. */
  lemma {:induction false} FractionRead(f: seq<u8>, n: nat, rest: seq<u8>)
    requires AllDigits(f) && !DigitFirst(rest)
    ensures var (m, r) := DigitRun(f + rest, n); r == rest && Joined(n, f, m)
  {
    hide Joined;
    if f == [] {
      assert f + rest == rest;
      JoinedNone(n);
    } else {
      var d := f[0] as int - 0x30;
      assert (f + rest)[1..] == f[1..] + rest;
      FractionRead(f[1..], n * 10 + d, rest);
      JoinedNext(n, f, DigitRun(f + rest, n).0);
    }
  }

  lemma ShiftPoint(n: real, d: real, f: real, p: real)
    ensures (n * 10.0 + d + f) * p == (n + (d + f) / 10.0) * (10.0 * p)
  {
    var g := (d + f) / 10.0;
    assert n * 10.0 + d + f == (n + g) * 10.0;
  }

  lemma PointRead(f: seq<u8>, n: nat, rest: seq<u8>)
    requires AllDigits(f) && !DigitFirst(rest) && !Fraction(rest)
    ensures var (m, k, r) := FractionAt(PointText(f) + rest, n);
            r == rest && k == |f| && Joined(n, f, m)
  {
    hide DigitRun, Joined;
    var b := PointText(f) + rest;
    if f == [] {
      assert b == rest;
      JoinedNone(n);
    } else {
      assert b[0] == 0x2E && b[1] == f[0];
      assert b[1..] == f + rest;
      FractionRead(f, n, rest);
    }
  }

  lemma PointFirst(f: seq<u8>, rest: seq<u8>)
    requires !DigitFirst(rest)
    ensures !DigitFirst(PointText(f) + rest)
  {
    if f == [] {
      assert PointText(f) + rest == rest;
    }
  }

  // ---- exponents ----

  /** Powers of ten, one by one. */
  lemma PowNext(k: int)
    ensures Pow10(0) == 1.0 && Pow10(k + 1) == 10.0 * Pow10(k)
  {
  }

  lemma {:induction false} PowSum(k: nat, x: int)
    ensures Pow10(k) * Pow10(x - k) == Pow10(x)
  {
    if k > 0 {
      PowSum(k - 1, x);
      PowNext(x - k);
      Regroup(Pow10(k - 1), Pow10(x - k));
    }
  }

  lemma Regroup(a: real, b: real)
    ensures (10.0 * a) * b == a * (10.0 * b)
  {
  }

  lemma SignRead(sign: Sign, d: seq<u8>, rest: seq<u8>)
    requires AllDigits(d) && d != []
    ensures var b := SignText(sign) + d + rest;
            && (Starts(b, MINUS) <==> sign.MinusSign?)
            && (if Starts(b, PLUS) || Starts(b, MINUS) then b[1..] else b) == d + rest
  {
    var b := SignText(sign) + d + rest;
    if sign.NoSign? {
      assert b == d + rest && b[0] == d[0];
    } else {
      assert b[1..] == d + rest;
    }
  }

  lemma PowerRead(p: Power, rest: seq<u8>)
    requires (p.Power? ==> AllDigits(p.digits) && p.digits != []) && !Continues(rest)
    ensures ExponentAt(PowerText(p) + rest) == (PowerOf(p), rest)
  {
    hide DigitRun, NatOf, SignText, Fraction;
    var b := PowerText(p) + rest;
    if p.NoPower? {
      assert b == rest;
      assert !Exponent(rest);
    } else {
      var tail := SignText(p.sign) + p.digits + rest;
      assert b[0] == (if p.capital then 0x45 else 0x65) && b[1..] == tail;
      SignRead(p.sign, p.digits, rest);
      assert Starts(tail, PLUS) || Starts(tail, MINUS) ==> b[2..] == tail[1..];
      RunOver(p.digits, rest);
      RunStops(rest, NatOf(p.digits));
    }
  }

  lemma PowerFirst(p: Power, rest: seq<u8>)
    requires !Continues(rest)
    ensures !DigitFirst(PowerText(p) + rest) && !Fraction(PowerText(p) + rest)
  {
    if p.NoPower? {
      assert PowerText(p) + rest == rest;
    }
  }

  // ---- numbers ----

  lemma SignOut(negative: bool, m: nat)
    ensures Signed(negative, m) as real == (if negative then -1.0 else 1.0) * m as real
  {
  }

  lemma Grouped(s: real, a: real, p: real, q: real)
    ensures (s * (a * p)) * q == (s * a) * (p * q)
  {
    assert s * (a * p) == (s * a) * p;
  }

  lemma ScaledValue(w: Numeral, m: nat)
    requires GoodNumeral(w) && Joined(NatOf(w.whole), w.fraction, m)
    ensures Decimal(Signed(w.negative, m), PowerOf(w.power) - |w.fraction|) == NumeralValue(w)
  {
    hide Pow10, FractionOf, NatOf, PowerOf;
    var k, x := |w.fraction|, PowerOf(w.power);
    PowSum(k, x);
    SignOut(w.negative, m);
    Grouped(if w.negative then -1.0 else 1.0, NatOf(w.whole) as real + FractionOf(w.fraction), Pow10(k), Pow10(x - k));
  }

  lemma NumberParts(b: seq<u8>, negative: bool, n: nat, b1: seq<u8>, m: nat, k: nat, b2: seq<u8>, x: int, rest: seq<u8>)
    requires (Starts(b, MINUS) || DigitFirst(b)) && (negative <==> b[0] == MINUS)
    requires WholeAt(if negative then b[1..] else b) == (n, b1)
    requires FractionAt(b1, n) == (m, k, b2) && ExponentAt(b2) == (x, rest)
    ensures NumberAt(b) == if -INT_MAX <= x <= INT_MAX then
              Out(Number(Decimal(Signed(negative, m), x - k)), rest) else Unknown
  {
    hide WholeAt, FractionAt, ExponentAt, Decimal;
  }

  /** Every number is read as the value of its numeral, unless the exponent is not an int. */
  lemma NumeralRead(w: Numeral, rest: seq<u8>)
    requires GoodNumeral(w) && !Continues(rest)
    ensures var b := NumeralText(w) + rest;
            && (Starts(b, MINUS) || DigitFirst(b))
            && NumberAt(b) == if -0x7FFF_FFFF <= PowerOf(w.power) <= 0x7FFF_FFFF then
                 Out(Number(NumeralValue(w)), rest) else Unknown
  {
    hide WholeAt, FractionAt, ExponentAt, PointText, PowerText, PowerOf, Continues, Fraction, Decimal, NumeralValue,
         Joined, NumberAt, NatOf, AllDigits;
    var b2 := PowerText(w.power) + rest;
    var b1 := PointText(w.fraction) + b2;
    var b0 := w.whole + b1;
    var b := NumeralText(w) + rest;
    assert b == (if w.negative then [0x2D] else []) + b0;
    FirstIsDigit(w.whole);
    assert b0[0] == w.whole[0];
    assert b0 == if w.negative then b[1..] else b;
    PowerFirst(w.power, rest);
    PointFirst(w.fraction, b2);
    WholeRead(w.whole, b1);
    PointRead(w.fraction, NatOf(w.whole), b2);
    PowerRead(w.power, rest);
    var (m, k, r) := FractionAt(b1, NatOf(w.whole));
    NumberParts(b, w.negative, NatOf(w.whole), b1, m, k, b2, PowerOf(w.power), rest);
    ScaledValue(w, m);
  }

  lemma FirstIsDigit(d: seq<u8>)
    requires AllDigits(d) && d != []
    ensures IsDigit(d[0]) && d[0] != 0x2D
  {
  }

  // ---- what the parser takes for a number besides ----

  /** No digits at all are zero: a minus sign alone is a number. */
  lemma SignAlone(rest: seq<u8>)
    requires !Continues(rest)
    ensures NumberAt([0x2D] + rest) == Out(Number(0.0), rest)
  {
    hide DigitRun;
    var b := [0x2D] + rest;
    assert b[1..] == rest;
    assert Decimal(Signed(true, 0), 0 - 0) == 0.0;
  }

  /** One leading zero is passed over. */
  lemma LeadingZero(d: seq<u8>, rest: seq<u8>)
    requires AllDigits(d) && d != [] && d[0] != 0x30 && !Continues(rest)
    ensures NumberAt([0x30] + d + rest) == Out(Number(NatOf(d) as real), rest)
  {
    hide DigitRun, NatOf, Fraction, Exponent;
    var b := [0x30] + d + rest;
    assert b[1..] == d + rest && b[0] == 0x30;
    RunOver(d, rest);
    RunStops(rest, NatOf(d));
    assert WholeAt(b) == (NatOf(d), rest);
    assert Pow10(0 - 0) == 1.0;
  }

  /** An exponent without digits is zero. */
  lemma NoPowerDigits(capital: bool, sign: Sign, rest: seq<u8>)
    requires !DigitFirst(rest) && (sign.NoSign? ==> !Starts(rest, 0x2B) && !Starts(rest, 0x2D))
    ensures ExponentAt([if capital then 0x45 else 0x65] + SignText(sign) + rest) == (0, rest)
  {
    hide DigitRun;
    var b := [if capital then 0x45 else 0x65] + SignText(sign) + rest;
    RunStops(rest, 0);
    if sign.NoSign? {
      assert b[1..] == rest;
    } else {
      assert b[1..] == SignText(sign) + rest && b[2..] == rest;
    }
  }

  // ---- the digits of an integer ----

  /** The digits printed are those of the number, without leading zeros. */
  lemma {:induction false} DigitsAre(n: nat)
    ensures var d := Digits(n); AllDigits(d) && d != [] && (|d| > 1 ==> d[0] != 0x30) && NatOf(d) == n
    ensures n > 0 ==> Digits(n)[0] != 0x30
  {
    if n < 10 {
      assert Digits(n)[..0] == [];
    } else {
      DigitsAre(n / 10);
      var d, front := Digits(n), Digits(n / 10);
      assert d[..|d| - 1] == front && d[0] == front[0];
    }
  }

  function IntNumeral(n: int): Numeral {
    Numeral(n < 0, Digits(if n < 0 then -n else n), [], NoPower)
  }

  lemma IntWritten(n: int)
    ensures var w := IntNumeral(n);
            GoodNumeral(w) && NumeralText(w) == IntText(n) && NumeralValue(w) == n as real && PowerOf(w.power) == 0
  {
    hide Digits, NatOf, AllDigits;
    DigitsAre(if n < 0 then -n else n);
    NoDigits();
  }

  lemma NoDigits()
    ensures AllDigits([]) && FractionOf([]) == 0.0 && Pow10(0) == 1.0
  {
  }
}
