/** String literals by section 7 of RFC 8259, in every way they can be written, and the proof that the parser reads
    each of them as what it means. Nothing here is defined with the constants of the parser (cJSON.c). */
module JsonChars {
  import opened Words
  import JsonEscape
  import JsonString

  /** One character of a string literal as it may be written: itself, a backslash and a letter, a \u escape, two of them
      for a supplementary code point, or two of which the first alone is one half of a pair. The booleans choose capital
      hexadecimal digits. */
  datatype Char =
    | Raw(c: u8)
    | Short(letter: u8)
    | Code(n: nat, caps: seq<bool>)
    | Pair(high: nat, low: nat, caps: seq<bool>)
    | Broken(high: nat, n: nat, caps: seq<bool>)

  function HexText(d: nat, capital: bool): u8
    requires d < 16
  {
    if d < 10 then 0x30 + d else if capital then 0x41 + d - 10 else 0x61 + d - 10
  }

  /** Four hexadecimal digits, the most significant one first. */
  function Quad(n: nat, caps: seq<bool>): (b: seq<u8>)
    requires n < 0x10000 && |caps| == 4
    ensures |b| == 4
  {
    [HexText(n / 0x1000, caps[0]), HexText(n / 0x100 % 16, caps[1]), HexText(n / 0x10 % 16, caps[2]),
     HexText(n % 16, caps[3])]
  }

  predicate HighHalf(n: nat) { 0xD800 <= n <= 0xDBFF }
  predicate LowHalf(n: nat) { 0xDC00 <= n <= 0xDFFF }

  predicate GoodChar(ch: Char) {
    match ch
    case Raw(c) => c != 0 && c != 0x22 && c != 0x5C
    case Short(e) => e in {0x22, 0x5C, 0x2F, 0x62, 0x66, 0x6E, 0x72, 0x74}
    case Code(n, caps) => n < 0x10000 && |caps| == 4
    case Pair(high, low, caps) => HighHalf(high) && LowHalf(low) && |caps| == 8
    case Broken(high, n, caps) => HighHalf(high) && n < 0x10000 && !LowHalf(n) && |caps| == 8
  }

  function CharText(ch: Char): (b: seq<u8>)
    requires GoodChar(ch)
    ensures 1 <= |b| <= 12
  {
    match ch
    case Raw(c) => [c]
    case Short(e) => [0x5C, e]
    case Code(n, caps) => [0x5C, 0x75] + Quad(n, caps)
    case Pair(high, low, caps) => [0x5C, 0x75] + Quad(high, caps[..4]) + [0x5C, 0x75] + Quad(low, caps[4..])
    case Broken(high, n, caps) => [0x5C, 0x75] + Quad(high, caps[..4]) + [0x5C, 0x75] + Quad(n, caps[4..])
  }

  /** The code point of a surrogate pair by section 2.1 of RFC 2781. */
  function PointOf(high: nat, low: nat): nat
    requires HighHalf(high) && LowHalf(low)
  {
    0x10000 + (high - 0xD800) * 0x400 + (low - 0xDC00)
  }

  /** The bytes the parser makes of it. Surrogates that are no pair and code 0 give nothing; a pair loses a carry when
      bit 16 of the code point less 0x10000 is set. */
  function CharValue(ch: Char): seq<u8>
    requires GoodChar(ch)
  {
    match ch
    case Raw(c) => [c]
    case Short(e) =>
      [if e == 0x62 then 0x08 else if e == 0x66 then 0x0C else if e == 0x6E then 0x0A
       else if e == 0x72 then 0x0D else if e == 0x74 then 0x09 else e]
    case Code(n, _) => if n == 0 || HighHalf(n) || LowHalf(n) then [] else JsonEscape.Utf8(n)
    case Pair(high, low, _) =>
      var point := PointOf(high, low);
      if (point - 0x10000) / 0x10000 % 2 == 0 then JsonEscape.Utf8(point) else JsonEscape.Utf8(point - 0x10000)
    case Broken(_, _, _) => []
  }

  /** An escape with the first half of a pair stands alone only where no other \u escape follows. */
  predicate GoodChars(chars: seq<Char>) {
    && (forall i :: 0 <= i < |chars| ==> GoodChar(chars[i]))
    && (forall i :: 0 <= i < |chars| - 1 ==>
          chars[i].Code? && HighHalf(chars[i].n) ==> chars[i + 1].Raw? || chars[i + 1].Short?)
  }

  function CharsText(chars: seq<Char>): seq<u8>
    requires forall i :: 0 <= i < |chars| ==> GoodChar(chars[i])
  {
    if chars == [] then [] else CharText(chars[0]) + CharsText(chars[1..])
  }

  function CharsValue(chars: seq<Char>): seq<u8>
    requires forall i :: 0 <= i < |chars| ==> GoodChar(chars[i])
  {
    if chars == [] then [] else CharValue(chars[0]) + CharsValue(chars[1..])
  }

  lemma HexRead(d: nat, capital: bool)
    requires d < 16
    ensures JsonString.HexDigit(HexText(d, capital)) == Some(d)
  {
  }

  /** Four digits are read as the number they stand for. */
  lemma QuadRead(n: nat, caps: seq<bool>, rest: seq<u8>)
    requires n < 0x10000 && |caps| == 4
    ensures JsonString.Hex4(Quad(n, caps) + rest) == Some(n)
  {
    hide JsonString.HexDigit, HexText;
    var b := Quad(n, caps) + rest;
    HexRead(n / 0x1000, caps[0]);
    HexRead(n / 0x100 % 16, caps[1]);
    HexRead(n / 0x10 % 16, caps[2]);
    HexRead(n % 16, caps[3]);
    DigitsOf(n);
  }

  lemma DigitsOf(n: nat)
    ensures ((n / 0x1000 * 16 + n / 0x100 % 16) * 16 + n / 0x10 % 16) * 16 + n % 16 == n
  {
    var a, b := n / 0x10, n / 0x100;
    assert a / 0x10 == b && b / 0x10 == n / 0x1000;
  }

  lemma CodeFront(n: nat, caps: seq<bool>, rest: seq<u8>)
    requires n < 0x10000 && |caps| == 4
    ensures var b := [0x5C, 0x75] + Quad(n, caps) + rest;
            && b[0] == 0x5C && b[1] == 0x75 && b[6..] == rest && JsonString.Hex4(b[2..]) == Some(n)
  {
    hide Quad, JsonString.Hex4;
    QuadRead(n, caps, rest);
    assert ([0x5C, 0x75] + Quad(n, caps) + rest)[2..] == Quad(n, caps) + rest;
  }

  /** `rest` does not go on with another \u escape. */
  predicate NoCode(rest: seq<u8>) {
    |rest| < 2 || rest[0] != 0x5C || rest[1] != 0x75
  }

  lemma CodeRead(n: nat, caps: seq<bool>, rest: seq<u8>)
    requires n < 0x10000 && |caps| == 4 && (HighHalf(n) ==> NoCode(rest))
    ensures var b := [0x5C, 0x75] + Quad(n, caps) + rest;
            JsonString.Body(b) == JsonString.Prepend(CharValue(Code(n, caps)), JsonString.Body(rest))
  {
    hide Quad, JsonString.Hex4, JsonEscape.EscapeBytes, JsonEscape.Utf8, JsonEscape.PairAsCoded;
    var b := [0x5C, 0x75] + Quad(n, caps) + rest;
    CodeFront(n, caps, rest);
    JsonEscape.EscapeIsUtf8(n);
    assert HighHalf(n) && |b| >= 8 ==> rest == b[6..] && (b[6] != 0x5C || b[7] != 0x75);
  }

  lemma TwoCodes(high: nat, n: nat, caps: seq<bool>, rest: seq<u8>)
    requires HighHalf(high) && n < 0x10000 && |caps| == 8
    ensures var b := [0x5C, 0x75] + Quad(high, caps[..4]) + [0x5C, 0x75] + Quad(n, caps[4..]) + rest;
            && b[0] == 0x5C && b[1] == 0x75 && JsonString.Hex4(b[2..]) == Some(high)
            && b[6] == 0x5C && b[7] == 0x75 && JsonString.Hex4(b[8..]) == Some(n) && b[12..] == rest
  {
    hide Quad, JsonString.Hex4;
    var second := [0x5C, 0x75] + Quad(n, caps[4..]) + rest;
    var b := [0x5C, 0x75] + Quad(high, caps[..4]) + [0x5C, 0x75] + Quad(n, caps[4..]) + rest;
    assert b == [0x5C, 0x75] + Quad(high, caps[..4]) + second;
    CodeFront(high, caps[..4], second);
    CodeFront(n, caps[4..], rest);
    assert b[6..] == second;
    assert b[8..] == second[2..] && b[12..] == second[6..];
  }

  lemma PairRead(high: nat, low: nat, caps: seq<bool>, rest: seq<u8>)
    requires GoodChar(Pair(high, low, caps))
    ensures var ch := Pair(high, low, caps);
            JsonString.Body(CharText(ch) + rest) == JsonString.Prepend(CharValue(ch), JsonString.Body(rest))
  {
    hide Quad, JsonString.Hex4, JsonEscape.EscapeBytes, JsonEscape.Utf8, JsonEscape.PairAsCoded;
    TwoCodes(high, low, caps, rest);
    JsonEscape.PairExact(high, low);
    JsonEscape.PairIs(high, low);
    JsonEscape.EscapeIsUtf8(JsonEscape.PairAsCoded(high, low));
    CarryBit(high, low);
  }

  lemma CarryBit(high: nat, low: nat)
    requires HighHalf(high) && LowHalf(low)
    ensures JsonEscape.PairPoint(high, low) == PointOf(high, low)
    ensures (PointOf(high, low) - 0x10000) / 0x10000 % 2 == high % 0x400 / 0x40 % 2
  {
    var a, b := high - 0xD800, low - 0xDC00;
    LowPart(high, a, 54);
    LowPart(low, b, 55);
    TopPart(a / 0x40, a % 0x40, b);
    assert a == a / 0x40 * 0x40 + a % 0x40;
  }

  lemma LowPart(n: nat, a: nat, k: nat)
    requires n == k * 0x400 + a && a < 0x400
    ensures n % 0x400 == a
  {
  }

  lemma TopPart(t: nat, u: nat, b: nat)
    requires u < 0x40 && b < 0x400
    ensures ((t * 0x40 + u) * 0x400 + b) / 0x10000 == t
  {
  }

  lemma BrokenRead(high: nat, n: nat, caps: seq<bool>, rest: seq<u8>)
    requires GoodChar(Broken(high, n, caps))
    ensures var ch := Broken(high, n, caps);
            JsonString.Body(CharText(ch) + rest) == JsonString.Prepend([], JsonString.Body(rest))
  {
    hide Quad, JsonString.Hex4, JsonEscape.EscapeBytes, JsonEscape.Utf8, JsonEscape.PairAsCoded, JsonString.Body;
    var b := CharText(Broken(high, n, caps)) + rest;
    TwoCodes(high, n, caps, rest);
    assert JsonString.EscapeAt(b) == JsonString.Escape([], 12);
    EscapeTaken(b);
  }

  lemma EscapeTaken(b: seq<u8>)
    requires b != [] && b[0] == 0x5C && JsonString.EscapeAt(b).Escape?
    ensures var e := JsonString.EscapeAt(b);
            JsonString.Body(b) == JsonString.Prepend(e.bytes, JsonString.Body(b[e.length..]))
  {
    hide JsonString.EscapeAt;
  }

  /** Every character is read as what it means. */
  lemma CharRead(ch: Char, rest: seq<u8>)
    requires GoodChar(ch) && (ch.Code? && HighHalf(ch.n) ==> NoCode(rest))
    ensures JsonString.Body(CharText(ch) + rest) == JsonString.Prepend(CharValue(ch), JsonString.Body(rest))
  {
    match ch
    case Raw(c) =>
      assert ([c] + rest)[1..] == rest;
    case Short(e) =>
      var b := [0x5C, e] + rest;
      assert b[0] == 0x5C && b[1] == e && b[2..] == rest;
    case Code(n, caps) => CodeRead(n, caps, rest);
    case Pair(high, low, caps) => PairRead(high, low, caps, rest);
    case Broken(high, n, caps) => BrokenRead(high, n, caps, rest);
  }

  lemma NextFront(chars: seq<Char>, rest: seq<u8>)
    requires chars != [] && GoodChars(chars) && chars[0].Code? && HighHalf(chars[0].n)
    ensures NoCode(CharsText(chars[1..]) + [0x22] + rest)
  {
    hide Quad;
    var b := CharsText(chars[1..]) + [0x22] + rest;
    if |chars| > 1 {
      var next := chars[1..];
      assert next[0] == chars[1] && GoodChar(next[0]);
      assert CharsText(next) == CharText(next[0]) + CharsText(next[1..]);
    }
  }

  /** Every string literal is read as what its characters mean, up to its closing quote. */
  lemma {:induction false} CharsRead(chars: seq<Char>, rest: seq<u8>)
    requires GoodChars(chars)
    ensures JsonString.Body(CharsText(chars) + [0x22] + rest) == JsonString.Literal(CharsValue(chars), rest)
  {
    hide CharText, CharValue, NoCode;
    var b := CharsText(chars) + [0x22] + rest;
    if chars == [] {
      QuoteEnds(rest);
      assert b == [0x22] + rest;
    } else {
      var tail := CharsText(chars[1..]) + [0x22] + rest;
      assert b == CharText(chars[0]) + tail;
      if chars[0].Code? && HighHalf(chars[0].n) {
        NextFront(chars, rest);
      }
      CharRead(chars[0], tail);
      CharsRead(chars[1..], rest);
    }
  }

  // ---- what the parser takes for a string besides ----

  /** A backslash and any other character stand for that character. */
  lemma OtherEscape(e: u8, rest: seq<u8>)
    requires e !in {0x62, 0x66, 0x6E, 0x72, 0x74, 0x75}
    ensures JsonString.Body([0x5C, e] + rest) == JsonString.Prepend([e], JsonString.Body(rest))
  {
    var b := [0x5C, e] + rest;
    assert b[0] == 0x5C && b[1] == e && b[2..] == rest;
  }

  /** The end of the text ends a string as a quote does. */
  lemma {:induction false} CharsAtEnd(chars: seq<Char>)
    requires GoodChars(chars)
    ensures JsonString.Body(CharsText(chars)) == JsonString.Literal(CharsValue(chars), [])
  {
    hide CharText, CharValue, NoCode;
    if chars != [] {
      if chars[0].Code? && HighHalf(chars[0].n) {
        NextFront(chars, []);
        assert CharsText(chars[1..]) + [0x22] + [] == CharsText(chars[1..]) + [0x22];
        FrontAlone(CharsText(chars[1..]), [0x22]);
      }
      CharRead(chars[0], CharsText(chars[1..]));
      CharsAtEnd(chars[1..]);
    }
  }

  lemma FrontAlone(a: seq<u8>, b: seq<u8>)
    requires NoCode(a + b)
    ensures NoCode(a)
  {
  }

  /** Four bytes that are not all hexadecimal digits are no code. */
  lemma NotHex(b: seq<u8>, i: nat)
    requires i < 4 && |b| > i
    requires !(0x30 <= b[i] <= 0x39) && !(0x41 <= b[i] <= 0x46) && !(0x61 <= b[i] <= 0x66)
    ensures JsonString.Hex4(b).None?
  {
  }

  lemma QuoteEnds(rest: seq<u8>)
    ensures JsonString.Body([0x22] + rest) == JsonString.Literal([], rest)
  {
    assert ([0x22] + rest)[1..] == rest;
  }
}
