/** JSON values, their text, and what the parser makes of a text (parse_value, parse_number, parse_array, parse_object
    and skip of cJSON.c, as functions). */
module JsonValue {
  import opened Words
  import JsonString

  datatype Json =
    | Null | False | True
    | Number(value: real)
    | Str(s: seq<u8>)
    | Array(items: seq<Json>)
    | Object(members: seq<Member>)

  datatype Member = Member(name: seq<u8>, value: Json)

  const INT_MIN := -0x8000_0000
  const INT_MAX := 0x7FFF_FFFF
  /** Up to here every integer is a double, and so is every integer on the way to it. */
  const MAX_EXACT := 0x20_0000_0000_0000

  const NULL_TEXT: seq<u8> := [0x6E, 0x75, 0x6C, 0x6C]
  const FALSE_TEXT: seq<u8> := [0x66, 0x61, 0x6C, 0x73, 0x65]
  const TRUE_TEXT: seq<u8> := [0x74, 0x72, 0x75, 0x65]
  const COMMA: u8 := 0x2C
  const COLON: u8 := 0x3A
  const OPEN_ARRAY: u8 := 0x5B
  const CLOSE_ARRAY: u8 := 0x5D
  const OPEN_OBJECT: u8 := 0x7B
  const CLOSE_OBJECT: u8 := 0x7D
  const MINUS: u8 := 0x2D
  const PLUS: u8 := 0x2B
  const DOT: u8 := 0x2E
  const LETTER_E: u8 := 0x65
  const CAPITAL_E: u8 := 0x45
  const SPACE: u8 := 0x20
  const TAB: u8 := 0x09
  const NEWLINE: u8 := 0x0A

  /** An integer that a double holds. */
  predicate ExactInt(d: real) {
    d == d.Floor as real && -MAX_EXACT <= d.Floor <= MAX_EXACT
  }

  /** The values whose text is proved to parse back: integers up to 2^53 either way, strings without NUL. */
  predicate Good(v: Json) {
    match v
    case Number(d) => ExactInt(d)
    case Str(s) => JsonString.NoNul(s)
    case Array(items) => forall i :: 0 <= i < |items| ==> Good(items[i])
    case Object(members) => forall i :: 0 <= i < |members| ==>
        JsonString.NoNul(members[i].name) && Good(members[i].value)
    case _ => true
  }

  // ---- text ----

  function Digits(n: nat): (d: seq<u8>)
    ensures |d| >= 1
  {
    if n < 10 then [0x30 + n] else Digits(n / 10) + [0x30 + n % 10]
  }

  /** sprintf("%d"), and "%.0f" of an integer */
  function IntText(n: int): seq<u8> {
    if n < 0 then [MINUS] + Digits(-n) else Digits(n)
  }

  function Tabs(n: nat): (t: seq<u8>)
    ensures |t| == n
  {
    seq<u8>(n, _ => TAB)
  }

  function When(b: bool, s: seq<u8>): seq<u8> { if b then s else [] }

  /** The text of a value; of numbers only integers are printed here. */
  function Text(v: Json, depth: nat, fmt: bool): seq<u8>
    decreases v
  {
    match v
    case Null => NULL_TEXT
    case False => FALSE_TEXT
    case True => TRUE_TEXT
    case Number(d) => IntText(d.Floor)
    case Str(s) => JsonString.StringText(s)
    case Array(items) => [OPEN_ARRAY] + ItemsText(items, depth, fmt) + [CLOSE_ARRAY]
    case Object(members) =>
      [OPEN_OBJECT] + When(fmt, [NEWLINE]) + MembersText(members, depth + 1, fmt) + When(fmt, Tabs(depth)) +
          [CLOSE_OBJECT]
  }

  function ItemsText(items: seq<Json>, depth: nat, fmt: bool): seq<u8>
    decreases items
  {
    if items == [] then [] else
    Text(items[0], depth + 1, fmt) + When(|items| > 1, [COMMA] + When(fmt, [SPACE])) + ItemsText(items[1..], depth, fmt)
  }

  function MemberText(m: Member, depth: nat, fmt: bool): seq<u8>
    decreases m
  {
    When(fmt, Tabs(depth)) + JsonString.StringText(m.name) + [COLON] + When(fmt, [TAB]) + Text(m.value, depth, fmt)
  }

  function MembersText(members: seq<Member>, depth: nat, fmt: bool): seq<u8>
    decreases members
  {
    if members == [] then [] else
    MemberText(members[0], depth, fmt) + When(|members| > 1, [COMMA]) + When(fmt, [NEWLINE]) +
        MembersText(members[1..], depth, fmt)
  }

  // ---- the parser ----

  /** A value and what follows it; no value; or a text for which the C code does nothing that is defined: a malformed
      escape, an exponent beyond an int. */
  datatype Out<+V> = Out(value: V, rest: seq<u8>) | NoValue | Unknown

  /** skip */
  function Skip(b: seq<u8>): (r: seq<u8>)
    ensures |r| <= |b|
  {
    if b != [] && 1 <= b[0] <= 32 then Skip(b[1..]) else b
  }

  predicate IsDigit(c: u8) { 0x30 <= c <= 0x39 }

  predicate DigitFirst(b: seq<u8>) { b != [] && IsDigit(b[0]) }

  predicate Starts(b: seq<u8>, c: u8) { b != [] && b[0] == c }

  function DigitRun(b: seq<u8>, n: nat): (r: (nat, seq<u8>))
    ensures |r.1| <= |b|
  {
    if DigitFirst(b) then DigitRun(b[1..], n * 10 + (b[0] as int - 0x30)) else (n, b)
  }

  predicate Fraction(b: seq<u8>) { Starts(b, DOT) && DigitFirst(b[1..]) }

  predicate Exponent(b: seq<u8>) { Starts(b, LETTER_E) || Starts(b, CAPITAL_E) }

  function Signed(negative: bool, n: nat): int { if negative then -(n as int) else n }

  /** pow(10.0, k) */
  function Pow10(k: int): real
    decreases if k < 0 then -k else k
  {
    if k == 0 then 1.0 else if k > 0 then 10.0 * Pow10(k - 1) else Pow10(k + 1) / 10.0
  }

  function Decimal(m: int, k: int): real { m as real * Pow10(k) }

  /** The integer part of a number: at most one zero, or digits behind it that start with another one. */
  function WholeAt(b: seq<u8>): (r: (nat, seq<u8>))
    ensures |r.1| <= |b| && (DigitFirst(b) ==> |r.1| < |b|)
  {
    var b1 := if Starts(b, 0x30) then b[1..] else b;
    if DigitFirst(b1) && b1[0] != 0x30 then DigitRun(b1, 0) else (0, b1)
  }

  /** The digits read so far with those of the fraction behind them, how many those are, and what follows. */
  function FractionAt(b: seq<u8>, n: nat): (r: (nat, nat, seq<u8>))
    ensures |r.2| <= |b|
  {
    if Fraction(b) then
      var (m, rest) := DigitRun(b[1..], n);
      (m, |b| - 1 - |rest|, rest)
    else (n, 0, b)
  }

  /** The exponent, none being zero. */
  function ExponentAt(b: seq<u8>): (r: (int, seq<u8>))
    ensures |r.1| <= |b|
  {
    if !Exponent(b) then (0, b) else
    var (x, rest) := DigitRun(if Starts(b[1..], PLUS) || Starts(b[1..], MINUS) then b[2..] else b[1..], 0);
    (Signed(Starts(b[1..], MINUS), x), rest)
  }

  /** parse_number */
  function NumberAt(b: seq<u8>): (o: Out<Json>)
    requires Starts(b, MINUS) || DigitFirst(b)
    ensures o.Out? ==> |o.rest| < |b|
  {
    var (n, b1) := WholeAt(if b[0] == MINUS then b[1..] else b);
    var (m, k, b2) := FractionAt(b1, n);
    var (x, rest) := ExponentAt(b2);
    if -INT_MAX <= x <= INT_MAX then Out(Number(Decimal(Signed(b[0] == MINUS, m), x - k)), rest) else Unknown
  }

  function StringOut(b: seq<u8>): (o: Out<seq<u8>>)
    ensures o.Out? ==> |o.rest| < |b|
  {
    if !Starts(b, JsonString.QUOTE) then NoValue else
    var l := JsonString.Body(b[1..]);
    if l.Literal? then Out(l.bytes, l.rest) else Unknown
  }

  function Map<A, C>(o: Out<A>, f: A -> C): Out<C> {
    match o
    case Out(a, rest) => Out(f(a), rest)
    case NoValue => NoValue
    case Unknown => Unknown
  }

  function With<A>(xs: seq<A>, o: Out<seq<A>>): Out<seq<A>> {
    if o.Out? then Out(xs + o.value, o.rest) else o
  }

  /** parse_value */
  function ValueAt(b: seq<u8>): (o: Out<Json>)
    ensures o.Out? ==> |o.rest| < |b|
    decreases |b|, 3
  {
    if NULL_TEXT <= b then Out(Null, b[4..])
    else if FALSE_TEXT <= b then Out(False, b[5..])
    else if TRUE_TEXT <= b then Out(True, b[4..])
    else if b == [] then NoValue
    else if b[0] == JsonString.QUOTE then Map(StringOut(b), s => Str(s))
    else if b[0] == MINUS || IsDigit(b[0]) then NumberAt(b)
    else if b[0] == OPEN_ARRAY then
      var v := Skip(b[1..]);
      if Starts(v, CLOSE_ARRAY) then Out(Array([]), v[1..]) else Map(ItemsAt(v), xs => Array(xs))
    else if b[0] == OPEN_OBJECT then
      var v := Skip(b[1..]);
      if Starts(v, CLOSE_OBJECT) then Out(Object([]), v[1..]) else Map(MembersAt(v), ms => Object(ms))
    else NoValue
  }

  /** The values of an array from one of them to the closing bracket. */
  function ItemsAt(b: seq<u8>): (o: Out<seq<Json>>)
    ensures o.Out? ==> |o.rest| < |b| && o.value != []
    decreases |b|, 4
  {
    var x := ValueAt(Skip(b));
    if !x.Out? then (if x.NoValue? then NoValue else Unknown) else
    var v := Skip(x.rest);
    if Starts(v, COMMA) then With([x.value], ItemsAt(v[1..]))
    else if Starts(v, CLOSE_ARRAY) then Out([x.value], v[1..])
    else NoValue
  }

  /** One name and value. */
  function MemberAt(b: seq<u8>): (o: Out<Member>)
    ensures o.Out? ==> |o.rest| < |b|
    decreases |b|, 4
  {
    var name := StringOut(Skip(b));
    if !name.Out? then (if name.NoValue? then NoValue else Unknown) else
    var v := Skip(name.rest);
    if !Starts(v, COLON) then NoValue else Map(ValueAt(Skip(v[1..])), x => Member(name.value, x))
  }

  /** The members of an object from one of them to the closing brace. */
  function MembersAt(b: seq<u8>): (o: Out<seq<Member>>)
    ensures o.Out? ==> |o.rest| < |b| && o.value != []
    decreases |b|, 5
  {
    var x := MemberAt(b);
    if !x.Out? then (if x.NoValue? then NoValue else Unknown) else
    var v := Skip(x.rest);
    if Starts(v, COMMA) then With([x.value], MembersAt(v[1..]))
    else if Starts(v, CLOSE_OBJECT) then Out([x.value], v[1..])
    else NoValue
  }
}
