/** Unicode escapes of JSON strings turned into UTF-8 (parse_string of cJSON.c), against section 3 of RFC 3629
    and section 2.2 of RFC 2781. */
module JsonEscape {
  import opened Words

  // ---- bitwise operators on unsigned ----

  function BitOr(a: nat, b: nat): nat
    decreases a + b
  {
    if a == 0 && b == 0 then 0 else 2 * BitOr(a / 2, b / 2) + (if a % 2 == 1 || b % 2 == 1 then 1 else 0)
  }

  function BitAnd(a: nat, b: nat): nat {
    if a == 0 then 0 else 2 * BitAnd(a / 2, b / 2) + (if a % 2 == 1 && b % 2 == 1 then 1 else 0)
  }

  function Pow2(k: nat): (p: nat)
    ensures p >= 1
  {
    if k == 0 then 1 else 2 * Pow2(k - 1)
  }

  lemma {:induction false} OrZero(a: nat)
    ensures BitOr(a, 0) == a && BitOr(0, a) == a
  {
    if a > 0 {
      OrZero(a / 2);
    }
  }

  lemma OrUnfold(x: nat, y: nat, bit: nat)
    requires bit <= 1
    ensures BitOr(2 * x, 2 * y + bit) == 2 * BitOr(x, y) + bit
  {
    if x == 0 && y == 0 && bit == 0 {
      assert BitOr(0, 0) == 0;
    }
  }

  /** a << k */
  function Shifted(a: nat, k: nat): nat {
    if k == 0 then a else 2 * Shifted(a, k - 1)
  }

  lemma {:induction false} ShiftedIs(a: nat, k: nat)
    ensures Shifted(a, k) == a * Pow2(k)
  {
    if k > 0 {
      ShiftedIs(a, k - 1);
      Doubled(a, Pow2(k - 1));
    }
  }

  lemma Doubled(a: nat, p: nat)
    ensures a * (2 * p) == 2 * (a * p)
  {
  }

  /** One more bit below the others. */
  lemma OrPush(x: nat, y: nat, c: nat, z: nat)
    requires BitOr(x, y + c / 2) == z + c / 2
    ensures BitOr(2 * x, 2 * y + c) == 2 * z + c
  {
    hide BitOr;
    OrUnfold(x, y + c / 2, c % 2);
    assert 2 * (y + c / 2) + c % 2 == 2 * y + c;
  }

  /** Or above and below position `k`. */
  lemma {:induction false} OrShifted(k: nat, a: nat, b: nat, c: nat)
    requires c < Pow2(k)
    ensures BitOr(Shifted(a, k), Shifted(b, k) + c) == Shifted(BitOr(a, b), k) + c
  {
    if k > 0 {
      hide BitOr;
      OrShifted(k - 1, a, b, c / 2);
      OrPush(Shifted(a, k - 1), Shifted(b, k - 1), c, Shifted(BitOr(a, b), k - 1));
    }
  }

  lemma OrSplit(k: nat, a: nat, b: nat, c: nat)
    requires c < Pow2(k)
    ensures BitOr(a * Pow2(k), b * Pow2(k) + c) == BitOr(a, b) * Pow2(k) + c
  {
    hide BitOr, Shifted, Pow2;
    OrShifted(k, a, b, c);
    ShiftedIs(a, k);
    ShiftedIs(b, k);
    ShiftedIs(BitOr(a, b), k);
  }

  /** Or of numbers without a common bit is their sum. */
  lemma OrAdds(k: nat, a: nat, b: nat)
    requires b < Pow2(k)
    ensures BitOr(a * Pow2(k), b) == a * Pow2(k) + b
  {
    hide BitOr, Pow2;
    OrSplit(k, a, 0, b);
    OrZero(a);
  }

  /** And with k ones keeps the last k bits. */
  lemma {:induction false} AndMask(k: nat, a: nat)
    ensures BitAnd(a, Pow2(k) - 1) == a % Pow2(k)
  {
    if k == 0 {
      AndZero(a);
      ModIs(a, 1, a, 0);
    } else {
      AndMask(k - 1, a / 2);
      AndMaskNext(k, a);
    }
  }

  lemma AndMaskNext(k: nat, a: nat)
    requires k > 0 && BitAnd(a / 2, Pow2(k - 1) - 1) == a / 2 % Pow2(k - 1)
    ensures BitAnd(a, Pow2(k) - 1) == a % Pow2(k)
  {
    hide BitAnd;
    var p := Pow2(k - 1);
    AndMaskStep(a, p);
    assert Pow2(k) == 2 * p;
  }

  lemma AndMaskStep(a: nat, p: nat)
    requires p >= 1 && BitAnd(a / 2, p - 1) == a / 2 % p
    ensures BitAnd(a, 2 * p - 1) == a % (2 * p)
  {
    hide BitAnd;
    HalfMod(a, p);
    AndStep(a, p);
  }

  lemma AndStep(a: nat, p: nat)
    requires p >= 1
    ensures BitAnd(a, 2 * p - 1) == 2 * BitAnd(a / 2, p - 1) + a % 2
  {
    assert (2 * p - 1) / 2 == p - 1;
  }

  lemma {:induction false} AndZero(a: nat)
    ensures BitAnd(a, 0) == 0
  {
    if a > 0 {
      AndZero(a / 2);
    }
  }

  lemma HalfMod(a: nat, p: nat)
    requires p >= 1
    ensures a % (2 * p) == 2 * (a / 2 % p) + a % 2
  {
    var q, r := a / 2 / p, a / 2 % p;
    assert a == 2 * (a / 2) + a % 2;
    assert a / 2 == p * q + r;
    assert a == 2 * p * q + (2 * r + a % 2);
    ModIs(a, 2 * p, q, 2 * r + a % 2);
  }

  lemma ModIs(a: nat, m: nat, q: nat, r: nat)
    requires m >= 1 && r < m && a == m * q + r
    ensures a % m == r
  {
    var q', r' := a / m, a % m;
    assert a == m * q' + r';
    if q < q' {
      Apart(m, q, q');
    } else if q' < q {
      Apart(m, q', q);
    }
  }

  lemma Apart(m: nat, a: nat, b: nat)
    requires a < b
    ensures m * a + m <= m * b
    decreases b
  {
    if a + 1 < b {
      Apart(m, a, b - 1);
    }
  }

  lemma {:induction false} OrSwap(a: nat, b: nat)
    ensures BitOr(a, b) == BitOr(b, a)
    decreases a + b
  {
    if a > 0 || b > 0 {
      OrSwap(a / 2, b / 2);
    }
  }

  // ---- the references ----

  predicate IsHigh(u: nat) { 0xD800 <= u <= 0xDBFF }

  predicate IsLow(u: nat) { 0xDC00 <= u <= 0xDFFF }

  /** The code point of a surrogate pair (RFC 2781, section 2.2). */
  function PairPoint(w1: nat, w2: nat): nat {
    0x10000 + w1 % 0x400 * 0x400 + w2 % 0x400
  }

  /** The UTF-8 bytes of a code point (RFC 3629, section 3). */
  function Utf8(cp: nat): (b: seq<u8>)
    requires cp <= 0x10_FFFF
    ensures 1 <= |b| <= 4
  {
    if cp < 0x80 then [cp]
    else if cp < 0x800 then [0xC0 + cp / 0x40, 0x80 + cp % 0x40]
    else if cp < 0x1_0000 then [0xE0 + cp / 0x1000, 0x80 + cp / 0x40 % 0x40, 0x80 + cp % 0x40]
    else [0xF0 + cp / 0x4_0000, 0x80 + cp / 0x1000 % 0x40, 0x80 + cp / 0x40 % 0x40, 0x80 + cp % 0x40]
  }

  // ---- what the code computes ----

  /** 0x10000 | ((uc & 0x3FF) << 10) | (uc2 & 0x3FF) */
  function PairAsCoded(uc: nat, uc2: nat): nat {
    BitOr(BitOr(0x10000, BitAnd(uc, 0x3FF) * 0x400), BitAnd(uc2, 0x3FF))
  }

  /** ((uc | 0x80) & 0xBF), stored in a char */
  function TailByte(uc: nat): u8 {
    BitAnd(BitOr(uc, 0x80), 0xBF) % 0x100
  }

  /** (uc | firstByteMark[len]), stored in a char */
  function LeadByte(uc: nat, len: nat): u8 {
    BitOr(uc, if len <= 1 then 0x00 else if len == 2 then 0xC0 else if len == 3 then 0xE0 else 0xF0) % 0x100
  }

  function EscapeLength(uc: nat): nat {
    if uc < 0x80 then 1 else if uc < 0x800 then 2 else if uc < 0x10000 then 3 else 4
  }

  lemma PowersOfTwo()
    ensures Pow2(6) == 0x40 && Pow2(10) == 0x400 && Pow2(16) == 0x10000
  {
    assert Pow2(3) == 8;
    assert Pow2(6) == 0x40;
    assert Pow2(9) == 0x200;
    assert Pow2(12) == 0x1000;
    assert Pow2(15) == 0x8000;
  }

  lemma {:induction false} TailIs(k: nat, uc: nat)
    ensures BitAnd(BitOr(uc, 2 * Pow2(k)), 3 * Pow2(k) - 1) == 2 * Pow2(k) + uc % Pow2(k)
  {
    if k == 0 {
      TailTop(uc);
    } else {
      hide BitAnd, BitOr;
      TailIs(k - 1, uc / 2);
      TailStep(uc, Pow2(k - 1));
    }
  }

  lemma TailStep(uc: nat, p: nat)
    requires p >= 1 && BitAnd(BitOr(uc / 2, 2 * p), 3 * p - 1) == 2 * p + uc / 2 % p
    ensures BitAnd(BitOr(uc, 2 * (2 * p)), 3 * (2 * p) - 1) == 2 * (2 * p) + uc % (2 * p)
  {
    hide BitAnd, BitOr;
    HalfMod(uc, p);
    OrUnfold(2 * p, uc / 2, uc % 2);
    OrSwap(2 * (2 * p), uc);
    OrSwap(2 * p, uc / 2);
    AndUnfold(BitOr(uc / 2, 2 * p), 3 * p - 1, uc % 2);
  }

  lemma AndUnfold(x: nat, y: nat, bit: nat)
    requires bit <= 1
    ensures BitAnd(2 * x + bit, 2 * y + 1) == 2 * BitAnd(x, y) + bit
  {
    if x == 0 && bit == 0 {
      assert BitAnd(0, y) == 0;
    }
  }

  lemma TailTop(uc: nat)
    ensures BitAnd(BitOr(uc, 2), 2) == 2
  {
    hide BitOr, BitAnd;
    var h := uc / 2;
    OrSwap(uc, 2);
    OrUnfold(1, h, uc % 2);
    OddOr(h);
    AndTwo(BitOr(1, h), uc % 2);
  }

  lemma OddOr(h: nat)
    ensures BitOr(1, h) % 2 == 1
  {
    assert BitOr(1, h) == 2 * BitOr(0, h / 2) + 1;
  }

  lemma AndTwo(x: nat, bit: nat)
    requires bit <= 1 && x % 2 == 1
    ensures BitAnd(2 * x + bit, 2) == 2
  {
    AndZero(x / 2);
    assert BitAnd(x, 1) == 2 * BitAnd(x / 2, 0) + 1;
  }

  lemma TailByteIs(uc: nat)
    ensures TailByte(uc) == 0x80 + uc % 0x40
  {
    hide BitAnd, BitOr;
    PowersOfTwo();
    TailIs(6, uc);
  }

  lemma LeadByteIs(uc: nat, len: nat)
    requires 1 <= len <= 4
    requires uc < (if len == 1 then 0x80 else if len == 2 then 0x20 else if len == 3 then 0x10 else 0x08)
    ensures LeadByte(uc, len) ==
            uc + if len == 1 then 0x00 else if len == 2 then 0xC0 else if len == 3 then 0xE0 else 0xF0
  {
    hide BitAnd, BitOr;
    SmallPowers();
    if len == 1 {
      OrZero(uc);
    } else {
      var k := if len == 2 then 5 else if len == 3 then 4 else 3;
      var a := if len == 2 then 6 else if len == 3 then 14 else 30;
      OrAdds(k, a, uc);
      OrSwap(a * Pow2(k), uc);
    }
  }

  lemma SmallPowers()
    ensures Pow2(3) == 8 && Pow2(4) == 16 && Pow2(5) == 32
  {
    assert Pow2(2) == 4;
    assert Pow2(4) == 16;
  }

  /** The bytes emitted for a code value, the first one last written. */
  function EscapeBytes(uc: nat): seq<u8> {
    var len := EscapeLength(uc);
    if len == 1 then [LeadByte(uc, 1)]
    else if len == 2 then [LeadByte(uc / 0x40, 2), TailByte(uc)]
    else if len == 3 then [LeadByte(uc / 0x1000, 3), TailByte(uc / 0x40), TailByte(uc)]
    else [LeadByte(uc / 0x4_0000, 4), TailByte(uc / 0x1000), TailByte(uc / 0x40), TailByte(uc)]
  }

  /** The bytes emitted are the UTF-8 form of the code value. */
  lemma EscapeIsUtf8(uc: nat)
    requires uc <= 0x10_FFFF
    ensures EscapeBytes(uc) == Utf8(uc) && |EscapeBytes(uc)| == EscapeLength(uc)
  {
    hide LeadByte, TailByte;
    TailByteIs(uc);
    TailByteIs(uc / 0x40);
    TailByteIs(uc / 0x1000);
    var len := EscapeLength(uc);
    LeadByteIs(if len == 1 then uc else if len == 2 then uc / 0x40 else if len == 3 then uc / 0x1000
        else uc / 0x4_0000, len);
  }

  /** Or loses a carry: 0x10000 is added only when its bit is clear. */
  lemma PairIs(w1: nat, w2: nat)
    ensures PairAsCoded(w1, w2) == if w1 % 0x400 / 0x40 % 2 == 1 then PairPoint(w1, w2) - 0x10000 else PairPoint(w1, w2)
  {
    hide BitAnd, BitOr;
    PowersOfTwo();
    AndMask(10, w1);
    AndMask(10, w2);
    var h, l := w1 % 0x400, w2 % 0x400;
    var t, u := h / 0x40, h % 0x40;
    OrSplit(16, 1, t, u * 0x400);
    OrOne(t);
    var x := BitOr(1, t) * 0x40 + u;
    OrAdds(10, x, l);
  }

  lemma OrOne(t: nat)
    ensures BitOr(1, t) == if t % 2 == 1 then t else t + 1
  {
    OrZero(t / 2);
  }

  /** A surrogate pair is decoded as section 2.2 of RFC 2781 says exactly when bit 16 of the code point less
      0x10000 is clear; the supplementary planes 2, 4, ..., 16 come out wrong. */
  lemma PairExact(w1: nat, w2: nat)
    requires IsHigh(w1) && IsLow(w2)
    ensures 0x10000 <= PairPoint(w1, w2) <= 0x10_FFFF && 0x10000 <= PairAsCoded(w1, w2) <= 0x10_FFFF
    ensures PairAsCoded(w1, w2) == PairPoint(w1, w2) <==> (PairPoint(w1, w2) - 0x10000) / 0x10000 % 2 == 0
    ensures EscapeBytes(PairAsCoded(w1, w2)) == Utf8(PairPoint(w1, w2)) <==>
            (PairPoint(w1, w2) - 0x10000) / 0x10000 % 2 == 0
  {
    hide PairAsCoded, EscapeBytes, Utf8, Utf8Point;
    PairIs(w1, w2);
    EscapeIsUtf8(PairAsCoded(w1, w2));
    if PairAsCoded(w1, w2) != PairPoint(w1, w2) {
      Utf8Back(PairPoint(w1, w2) - 0x10000);
      Utf8Back(PairPoint(w1, w2));
    }
  }

  /** Decoding UTF-8 again. */
  function Utf8Point(b: seq<u8>): int {
    match |b|
    case 1 => b[0]
    case 2 => (b[0] as int - 0xC0) * 0x40 + (b[1] as int - 0x80)
    case 3 => (b[0] as int - 0xE0) * 0x1000 + (b[1] as int - 0x80) * 0x40 + (b[2] as int - 0x80)
    case 4 => (b[0] as int - 0xF0) * 0x4_0000 + (b[1] as int - 0x80) * 0x1000 + (b[2] as int - 0x80) * 0x40 +
        (b[3] as int - 0x80)
    case _ => -1
  }

  lemma Utf8Back(cp: nat)
    requires cp <= 0x10_FFFF
    ensures Utf8Point(Utf8(cp)) == cp
  {
    var a := cp / 0x40;
    var b := a / 0x40;
    var c := b / 0x40;
    assert cp == 0x40 * a + cp % 0x40 && a == 0x40 * b + a % 0x40 && b == 0x40 * c + b % 0x40;
    assert cp / 0x1000 == b && cp / 0x4_0000 == c;
  }

  /** With addition in place of or, every pair is decoded right. */
  lemma PairRepaired(w1: nat, w2: nat)
    requires IsHigh(w1) && IsLow(w2)
    ensures 0x10000 + BitAnd(w1, 0x3FF) * 0x400 + BitAnd(w2, 0x3FF) == PairPoint(w1, w2)
    ensures EscapeBytes(0x10000 + BitAnd(w1, 0x3FF) * 0x400 + BitAnd(w2, 0x3FF)) == Utf8(PairPoint(w1, w2))
  {
    hide BitAnd, EscapeBytes;
    PowersOfTwo();
    AndMask(10, w1);
    AndMask(10, w2);
    EscapeIsUtf8(PairPoint(w1, w2));
  }
}
