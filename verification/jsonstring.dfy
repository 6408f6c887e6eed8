/** JSON strings (parse_string and print_string_ptr of cJSON.c). Texts are the bytes before the terminating NUL. */
module JsonString {
  import opened Words
  import opened JsonEscape

  const QUOTE: u8 := 0x22
  const BACKSLASH: u8 := 0x5C

  predicate NoNul(s: seq<u8>) { 0 !in s }

  // ---- parse_string ----

  function HexDigit(c: u8): Option<nat> {
    if 0x30 <= c <= 0x39 then Some(c - 0x30)
    else if 0x41 <= c <= 0x46 then Some(c - 0x41 + 10)
    else if 0x61 <= c <= 0x66 then Some(c - 0x61 + 10)
    else None
  }

  /** The number that four hexadecimal digits at the front of `b` stand for. */
  function Hex4(b: seq<u8>): (n: Option<nat>)
    ensures n.Some? ==> |b| >= 4 && n.value < 0x10000 && forall i :: 0 <= i < 4 ==> b[i] != QUOTE && b[i] != BACKSLASH
  {
    if |b| < 4 then None else
    var d0, d1, d2, d3 := HexDigit(b[0]), HexDigit(b[1]), HexDigit(b[2]), HexDigit(b[3]);
    if d0.None? || d1.None? || d2.None? || d3.None? then None
    else Some(((d0.value * 16 + d1.value) * 16 + d2.value) * 16 + d3.value)
  }

  /** An escape: the bytes it stands for and the length it takes. Malformed: the C code reads past the end of the
      text, or converts something that is not four hexadecimal digits. */
  datatype Escape = Escape(bytes: seq<u8>, length: nat) | Malformed

  const LETTER_B: u8 := 0x62
  const LETTER_F: u8 := 0x66
  const LETTER_N: u8 := 0x6E
  const LETTER_R: u8 := 0x72
  const LETTER_T: u8 := 0x74
  const LETTER_U: u8 := 0x75

  function SimpleEscape(c: u8): u8 {
    if c == LETTER_B then 0x08 else if c == LETTER_F then 0x0C else if c == LETTER_N then 0x0A
        else if c == LETTER_R then 0x0D else if c == LETTER_T then 0x09 else c
  }

  /** Escape at the front of `b`, which starts with a backslash. */
  function EscapeAt(b: seq<u8>): (e: Escape)
    requires b != [] && b[0] == BACKSLASH
    ensures e.Escape? ==>
              && 2 <= e.length <= |b| && (e.length == 2 || e.length == 6 || e.length == 12)
              && |e.bytes| <= e.length - 1
    ensures e.Escape? ==> |e.bytes| <= 4
  {
    if |b| < 2 then Malformed
    else if b[1] != LETTER_U then Escape([SimpleEscape(b[1])], 2)
    else if Hex4(b[2..]).None? then Malformed
    else
      var uc := Hex4(b[2..]).value;
      if IsLow(uc) || uc == 0 then Escape([], 6)
      else if !IsHigh(uc) then EscapeIsUtf8(uc); Escape(EscapeBytes(uc), 6)
      else if |b| < 8 || b[6] != BACKSLASH || b[7] != LETTER_U then Escape([], 6)
      else if Hex4(b[8..]).None? then Malformed
      else
        var uc2 := Hex4(b[8..]).value;
        if !IsLow(uc2) then Escape([], 12)
        else PairExact(uc, uc2); EscapeIsUtf8(PairAsCoded(uc, uc2)); Escape(EscapeBytes(PairAsCoded(uc, uc2)), 12)
  }

  /** What is read behind the opening quote, and what is left behind the closing one. */
  datatype Literal = Literal(bytes: seq<u8>, rest: seq<u8>) | BadLiteral

  function Prepend(bytes: seq<u8>, l: Literal): Literal {
    if l.Literal? then Literal(bytes + l.bytes, l.rest) else l
  }

  /** A missing closing quote is accepted at the end of the text. */
  function Body(b: seq<u8>): (l: Literal)
    ensures l.Literal? ==> |l.rest| <= |b| && l.rest == b[|b| - |l.rest|..]
    decreases |b|
  {
    if b == [] then Literal([], [])
    else if b[0] == QUOTE then Literal([], b[1..])
    else if b[0] != BACKSLASH then Prepend([b[0]], Body(b[1..]))
    else
      var e := EscapeAt(b);
      if e.Malformed? then BadLiteral else Prepend(e.bytes, Body(b[e.length..]))
  }

  /** The first pass: an estimate of the length, and where it stops. */
  datatype Scan = Scan(length: nat, rest: seq<u8>) | Overrun

  function Longer(s: Scan): Scan {
    if s.Scan? then Scan(s.length + 1, s.rest) else s
  }

  function FirstPass(b: seq<u8>): Scan
    decreases |b|
  {
    if b == [] || b[0] == QUOTE then Scan(0, b)
    else if b[0] != BACKSLASH then Longer(FirstPass(b[1..]))
    else if |b| < 2 then Overrun
    else Longer(FirstPass(b[2..]))
  }

  lemma FourOn(b: seq<u8>)
    requires |b| >= 4 && forall i :: 0 <= i < 4 ==> b[i] != QUOTE && b[i] != BACKSLASH
    ensures FirstPass(b) == Longer(Longer(Longer(Longer(FirstPass(b[4..])))))
  {
    assert b[1..][1..] == b[2..] && b[2..][1..] == b[3..] && b[3..][1..] == b[4..];
    assert FirstPass(b) == Longer(FirstPass(b[1..]));
    assert FirstPass(b[1..]) == Longer(FirstPass(b[2..]));
    assert FirstPass(b[2..]) == Longer(FirstPass(b[3..]));
  }

  /** The first pass goes over an escape as the second does, and counts enough for it. */
  lemma EscapeScanned(b: seq<u8>)
    requires b != [] && b[0] == BACKSLASH && EscapeAt(b).Escape?
    ensures var e := EscapeAt(b);
            && (FirstPass(b[e.length..]).Scan? <==> FirstPass(b).Scan?)
            && (FirstPass(b).Scan? ==> FirstPass(b).rest == FirstPass(b[e.length..]).rest &&
                                       FirstPass(b).length >= FirstPass(b[e.length..]).length + |e.bytes|)
  {
    hide EscapeBytes, Utf8, PairAsCoded;
    var e := EscapeAt(b);
    if e.length > 2 {
      FourOn(b[2..]);
      assert b[2..][4..] == b[6..];
      if e.length > 6 {
        FourOn(b[8..]);
        assert b[6..][2..] == b[8..] && b[8..][4..] == b[12..];
      }
    }
  }

  /** Both passes stop at the same place, and what the second writes fits what the first counted. */
  lemma {:induction false} PassesAgree(b: seq<u8>)
    requires Body(b).Literal?
    ensures FirstPass(b).Scan? && |Body(b).bytes| <= FirstPass(b).length
    ensures var r := FirstPass(b).rest; Body(b).rest == if r == [] then [] else r[1..]
    decreases |b|
  {
    hide EscapeAt;
    if b != [] && b[0] != QUOTE {
      if b[0] == BACKSLASH {
        EscapeScanned(b);
        PassesAgree(b[EscapeAt(b).length..]);
      } else {
        PassesAgree(b[1..]);
      }
    }
  }

  /** Outcome of a parser: the value and the position behind it, a failure (null), or an input on which the C code
      leaves the text, converts something that is not four hexadecimal digits, or overflows an int. */
  datatype Result<+V> = Parsed(value: V, pos: nat) | Failed | Undefined

  /** One code value, written as the C code does: from the last byte back to the first. */
  method EmitEscape(out: array<u8>, at: nat, code: nat) returns (end: nat)
    requires code <= 0x10_FFFF && at + EscapeLength(code) <= out.Length
    modifies out
    ensures end == at + |EscapeBytes(code)| <= out.Length
    ensures out[at..end] == EscapeBytes(code)
    ensures forall i :: 0 <= i < out.Length && !(at <= i < end) ==> out[i] == old(out[i])
  {
    hide LeadByte, TailByte;
    EscapeIsUtf8(code);
    var len := EscapeLength(code);
    var uc := code;
    var ptr2 := at + len;
    if len >= 4 {
      ptr2 := ptr2 - 1;
      out[ptr2] := TailByte(uc);
      uc := uc / 0x40;
    }
    if len >= 3 {
      ptr2 := ptr2 - 1;
      out[ptr2] := TailByte(uc);
      uc := uc / 0x40;
    }
    if len >= 2 {
      ptr2 := ptr2 - 1;
      out[ptr2] := TailByte(uc);
      uc := uc / 0x40;
    }
    ptr2 := ptr2 - 1;
    out[ptr2] := LeadByte(uc, len);
    Sixties(code);
    end := ptr2 + len;
  }

  lemma Sixties(code: nat)
    ensures code / 0x40 / 0x40 == code / 0x1000 && code / 0x1000 / 0x40 == code / 0x4_0000
  {
  }

  /** The first pass of parse_string, from just behind the opening quote. */
  method CountString(text: seq<u8>, start: nat) returns (ok: bool, len: nat)
    requires start <= |text|
    ensures ok <==> FirstPass(text[start..]).Scan?
    ensures ok ==> len == FirstPass(text[start..]).length
  {
    hide FirstPass;
    len := 0;
    var ptr := start;
    while ptr < |text| && text[ptr] != QUOTE
      invariant start <= ptr <= |text|
      invariant FirstPass(text[start..]) == LongerBy(FirstPass(text[ptr..]), len)
      decreases |text| - ptr
    {
      ScanStep(text, ptr, len);
      len := len + 1;
      ptr := ptr + 1;
      if text[ptr - 1] == BACKSLASH {
        if ptr == |text| {
          return false, len;
        }
        ptr := ptr + 1;
      }
    }
    ScanEnd(text, ptr);
    ok := true;
  }

  ghost function LongerBy(s: Scan, n: nat): Scan {
    if s.Scan? then Scan(s.length + n, s.rest) else s
  }

  lemma ScanEnd(text: seq<u8>, ptr: nat)
    requires ptr <= |text| && (ptr < |text| ==> text[ptr] == QUOTE)
    ensures FirstPass(text[ptr..]) == Scan(0, text[ptr..])
  {
  }

  lemma ScanStep(text: seq<u8>, ptr: nat, n: nat)
    requires ptr < |text| && text[ptr] != QUOTE
    ensures text[ptr] != BACKSLASH ==>
              LongerBy(FirstPass(text[ptr..]), n) == LongerBy(FirstPass(text[ptr + 1..]), n + 1)
    ensures text[ptr] == BACKSLASH && ptr + 1 < |text| ==>
              LongerBy(FirstPass(text[ptr..]), n) == LongerBy(FirstPass(text[ptr + 2..]), n + 1)
    ensures text[ptr] == BACKSLASH && ptr + 1 == |text| ==> FirstPass(text[ptr..]).Overrun?
  {
    assert text[ptr..][1..] == text[ptr + 1..];
    if ptr + 1 < |text| {
      assert text[ptr..][2..] == text[ptr + 2..];
    }
  }

  /** The switch of parse_string: the escape at `ptr` written at `out[at..]`. */
  method DecodeEscape(text: seq<u8>, ptr: nat, out: array<u8>, at: nat) returns (e: Escape, end: nat)
    requires ptr < |text| && text[ptr] == BACKSLASH && at <= out.Length
    requires EscapeAt(text[ptr..]).Escape? ==> at + |EscapeAt(text[ptr..]).bytes| <= out.Length
    modifies out
    ensures e == EscapeAt(text[ptr..])
    ensures e.Escape? ==> end == at + |e.bytes| <= out.Length && out[at..end] == e.bytes
    ensures forall i :: 0 <= i < at ==> out[i] == old(out[i])
  {
    hide EscapeBytes, PairAsCoded, Utf8;
    ghost var b := text[ptr..];
    end := at;
    if ptr + 1 == |text| {
      return Malformed, at;
    }
    if text[ptr + 1] != LETTER_U {
      out[at] := SimpleEscape(text[ptr + 1]);
      return Escape([SimpleEscape(text[ptr + 1])], 2), at + 1;
    }
    assert text[ptr + 2..] == b[2..];
    var hex := Hex4(text[ptr + 2..]);
    if hex.None? {
      return Malformed, at;
    }
    var uc := hex.value;
    if IsLow(uc) || uc == 0 {
      return Escape([], 6), at;
    }
    var length := 6;
    if IsHigh(uc) {
      if ptr + 8 > |text| || text[ptr + 6] != BACKSLASH || text[ptr + 7] != LETTER_U {
        return Escape([], 6), at;
      }
      assert text[ptr + 8..] == b[8..];
      var hex2 := Hex4(text[ptr + 8..]);
      if hex2.None? {
        return Malformed, at;
      }
      length := 12;
      if !IsLow(hex2.value) {
        return Escape([], 12), at;
      }
      PairExact(uc, hex2.value);
      uc := PairAsCoded(uc, hex2.value);
    }
    EscapeIsUtf8(uc);
    end := EmitEscape(out, at, uc);
    e := Escape(out[at..end], length);
  }

  /** What parse_string makes of the text from `pos` on. */
  ghost function StringAt(text: seq<u8>, pos: nat): Result<seq<u8>>
    requires pos <= |text|
  {
    if pos == |text| || text[pos] != QUOTE then Failed else
    var l := Body(text[pos + 1..]);
    if l.Literal? then Parsed(l.bytes, |text| - |l.rest|) else Undefined
  }

  /** State of the second pass. */
  ghost predicate Decoding(text: seq<u8>, start: nat, ptr: nat, done: seq<u8>, len: nat) {
    && start <= ptr <= |text|
    && Body(text[start..]) == Prepend(done, Body(text[ptr..]))
    && FirstPass(text[ptr..]).Scan? && |done| + FirstPass(text[ptr..]).length <= len
  }

  lemma DecodingChar(text: seq<u8>, start: nat, ptr: nat, done: seq<u8>, len: nat)
    requires Decoding(text, start, ptr, done, len) && ptr < |text| && text[ptr] != QUOTE && text[ptr] != BACKSLASH
    ensures |done| < len && Decoding(text, start, ptr + 1, done + [text[ptr]], len)
  {
    assert text[ptr..][1..] == text[ptr + 1..];
    PrependTwice(done, [text[ptr]], Body(text[ptr + 1..]));
  }

  lemma PrependTwice(a: seq<u8>, b: seq<u8>, l: Literal)
    ensures Prepend(a, Prepend(b, l)) == Prepend(a + b, l)
  {
    if l.Literal? {
      assert a + (b + l.bytes) == (a + b) + l.bytes;
    }
  }

  lemma DecodingEscape(text: seq<u8>, start: nat, ptr: nat, done: seq<u8>, len: nat)
    requires Decoding(text, start, ptr, done, len) && ptr < |text| && text[ptr] == BACKSLASH
    ensures EscapeAt(text[ptr..]).Malformed? ==> Body(text[start..]).BadLiteral?
    ensures var e := EscapeAt(text[ptr..]);
            e.Escape? ==>
              && |done| + |e.bytes| <= len && ptr + e.length <= |text|
              && Decoding(text, start, ptr + e.length, done + e.bytes, len)
  {
    hide EscapeAt;
    var e := EscapeAt(text[ptr..]);
    if e.Escape? {
      assert text[ptr..][e.length..] == text[ptr + e.length..];
      EscapeScanned(text[ptr..]);
      PrependTwice(done, e.bytes, Body(text[ptr + e.length..]));
    }
  }

  lemma DecodingEnds(text: seq<u8>, start: nat, ptr: nat, done: seq<u8>, len: nat)
    requires Decoding(text, start, ptr, done, len) && (ptr < |text| ==> text[ptr] == QUOTE)
    ensures Body(text[start..]) == Literal(done, text[if ptr < |text| then ptr + 1 else ptr..])
  {
    if ptr < |text| {
      assert text[ptr..][1..] == text[ptr + 1..];
    }
  }

  lemma DecodingStarts(text: seq<u8>, start: nat)
    requires start <= |text|
    ensures FirstPass(text[start..]).Scan? ==> Decoding(text, start, start, [], FirstPass(text[start..]).length)
    ensures FirstPass(text[start..]).Overrun? ==> Body(text[start..]).BadLiteral?
  {
    if Body(text[start..]).Literal? {
      PassesAgree(text[start..]);
    }
  }

  /** parse_string */
  method ParseString(text: seq<u8>, pos: nat) returns (r: Result<seq<u8>>)
    requires pos <= |text|
    ensures r == StringAt(text, pos)
  {
    hide Body, FirstPass, EscapeAt, Decoding;
    if pos == |text| || text[pos] != QUOTE {
      return Failed;
    }
    var ok, len := CountString(text, pos + 1);
    DecodingStarts(text, pos + 1);
    if !ok {
      return Undefined;
    }
    var out := new u8[len + 1](_ => 0);
    var ptr, ptr2 := pos + 1, 0;
    assert out[..0] == [];
    while ptr < |text| && text[ptr] != QUOTE
      invariant ptr <= |text| && ptr2 <= len && Decoding(text, pos + 1, ptr, out[..ptr2], len)
      decreases |text| - ptr
    {
      ghost var done := out[..ptr2];
      if text[ptr] != BACKSLASH {
        DecodingChar(text, pos + 1, ptr, done, len);
        out[ptr2] := text[ptr];
        ptr2 := ptr2 + 1;
        ptr := ptr + 1;
        assert out[..ptr2] == done + [text[ptr - 1]];
      } else {
        DecodingEscape(text, pos + 1, ptr, done, len);
        var e, end := DecodeEscape(text, ptr, out, ptr2);
        if e.Malformed? {
          return Undefined;
        }
        assert out[..end] == out[..ptr2] + out[ptr2..end] && out[..ptr2] == done;
        ptr2 := end;
        ptr := ptr + e.length;
      }
    }
    DecodingEnds(text, pos + 1, ptr, out[..ptr2], len);
    out[ptr2] := 0;
    if ptr < |text| {
      ptr := ptr + 1;
    }
    r := Parsed(out[..ptr2], ptr);
  }

  // ---- print_string_ptr ----

  function HexChar(d: nat): (c: u8)
    requires d < 16
    ensures HexDigit(c) == Some(d)
  {
    if d < 10 then 0x30 + d else 0x61 + d - 10
  }

  /** Characters that have an escape of their own. */
  predicate Named(c: u8) {
    c == QUOTE || c == BACKSLASH || c == 0x08 || c == 0x0C || c == 0x0A || c == 0x0D || c == 0x09
  }

  function NameOf(c: u8): (e: u8)
    requires Named(c)
    ensures e != LETTER_U && SimpleEscape(e) == c
  {
    if c == 0x08 then LETTER_B else if c == 0x0C then LETTER_F else if c == 0x0A then LETTER_N
        else if c == 0x0D then LETTER_R else if c == 0x09 then LETTER_T else c
  }

  /** A character as printed. */
  function Printed(c: u8): (b: seq<u8>)
    ensures 1 <= |b| <= 6
  {
    if Named(c) then [BACKSLASH, NameOf(c)]
    else if c < 32 then [BACKSLASH, LETTER_U, 0x30, 0x30, HexChar(c / 16), HexChar(c % 16)]
    else [c]
  }

  function Escaped(s: seq<u8>): seq<u8> {
    if s == [] then [] else Printed(s[0]) + Escaped(s[1..])
  }

  /** A string as a JSON literal. */
  function StringText(s: seq<u8>): seq<u8> {
    [QUOTE] + Escaped(s) + [QUOTE]
  }

  lemma {:induction false} EscapedSplit(s: seq<u8>, i: nat)
    requires i < |s|
    ensures Escaped(s[..i + 1]) == Escaped(s[..i]) + Printed(s[i])
    decreases i
  {
    hide Printed;
    if i == 0 {
      assert s[..1] == [s[0]] && s[..1][1..] == [] && s[..0] == [];
    } else {
      EscapedSplit(s[1..], i - 1);
      assert s[..i + 1][1..] == s[1..][..i] && s[..i][1..] == s[1..][..i - 1];
    }
  }

  /** First pass of print_string_ptr: the exact length. */
  method MeasureString(str: seq<u8>) returns (len: nat)
    ensures len == |Escaped(str)|
  {
    hide Printed, Escaped;
    EscapedNothing();
    len := 0;
    var i := 0;
    assert str[..0] == [];
    while i < |str|
      invariant 0 <= i <= |str| && len == |Escaped(str[..i])|
    {
      EscapedSplit(str, i);
      PrintedLength(str[i]);
      len := len + 1;
      if Named(str[i]) {
        len := len + 1;
      } else if str[i] < 32 {
        len := len + 5;
      }
      i := i + 1;
    }
    assert str[..i] == str;
  }

  lemma EscapedNothing()
    ensures Escaped([]) == []
  {
  }

  lemma PrintedLength(c: u8)
    ensures |Printed(c)| == if Named(c) then 2 else if c < 32 then 6 else 1
  {
  }

  /** One character of the second pass. */
  method PrintChar(out: array<u8>, at: nat, c: u8) returns (end: nat)
    requires at + |Printed(c)| <= out.Length
    modifies out
    ensures end == at + |Printed(c)| && out[at..end] == Printed(c)
    ensures forall i :: 0 <= i < at ==> out[i] == old(out[i])
  {
    if c > 31 && c != QUOTE && c != BACKSLASH {
      out[at] := c;
      return at + 1;
    }
    out[at] := BACKSLASH;
    if Named(c) {
      out[at + 1] := NameOf(c);
      end := at + 2;
    } else {
      out[at + 1] := LETTER_U;
      out[at + 2] := 0x30;
      out[at + 3] := 0x30;
      out[at + 4] := HexChar(c / 16);
      out[at + 5] := HexChar(c % 16);
      end := at + 6;
    }
  }

  /** print_string_ptr: exactly as many bytes are written, with the terminating NUL, as were asked for. */
  method PrintString(str: seq<u8>) returns (out: array<u8>)
    ensures fresh(out) && out.Length == |Escaped(str)| + 3
    ensures out[..] == StringText(str) + [0]
  {
    hide Printed, Escaped;
    var len := MeasureString(str);
    out := new u8[len + 3](_ => 0);
    out[0] := QUOTE;
    var ptr2, i := 1, 0;
    EscapedNothing();
    assert str[..0] == [];
    while i < |str|
      invariant 0 <= i <= |str| && ptr2 == 1 + |Escaped(str[..i])| && out.Length == len + 3
      invariant ptr2 + |Escaped(str[i..])| == len + 1
      invariant out[..ptr2] == [QUOTE] + Escaped(str[..i])
    {
      EscapedSplit(str, i);
      EscapedFirst(str, i);
      ghost var done := out[..ptr2];
      var end := PrintChar(out, ptr2, str[i]);
      assert out[..end] == out[..ptr2] + out[ptr2..end] && out[..ptr2] == done;
      ptr2 := end;
      i := i + 1;
    }
    assert str[..i] == str && str[i..] == [];
    out[ptr2] := QUOTE;
    out[ptr2 + 1] := 0;
    assert out[..] == out[..ptr2] + [QUOTE, 0];
  }

  lemma EscapedFirst(s: seq<u8>, i: nat)
    requires i < |s|
    ensures Escaped(s[i..]) == Printed(s[i]) + Escaped(s[i + 1..])
  {
    assert s[i..][1..] == s[i + 1..];
  }
}
