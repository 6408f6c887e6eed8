/** The recursive descent parser (parse_value, parse_number, parse_array, parse_object and skip of cJSON.c). */
module JsonParse {
  import opened Words
  import opened JsonString
  import opened JsonValue

  // ---- what is left of a text ----

  ghost predicate Tail(rest: seq<u8>, b: seq<u8>) {
    |rest| <= |b| && rest == b[|b| - |rest|..]
  }

  lemma TailTwice(a: seq<u8>, b: seq<u8>, c: seq<u8>)
    requires Tail(a, b) && Tail(b, c)
    ensures Tail(a, c)
  {
    assert b[|b| - |a|..] == c[|c| - |b|..][|b| - |a|..];
  }

  lemma TailNext(b: seq<u8>, n: nat)
    requires n <= |b|
    ensures Tail(b[n..], b)
  {
  }

  lemma {:induction false} SkipTail(b: seq<u8>)
    ensures Tail(Skip(b), b)
  {
    if b != [] && 1 <= b[0] <= 32 {
      SkipTail(b[1..]);
      TailNext(b, 1);
      TailTwice(Skip(b), b[1..], b);
    }
  }

  lemma {:induction false} DigitTail(b: seq<u8>, n: nat)
    ensures Tail(DigitRun(b, n).1, b)
  {
    if DigitFirst(b) {
      DigitTail(b[1..], n * 10 + (b[0] as int - 0x30));
      TailNext(b, 1);
      TailTwice(DigitRun(b, n).1, b[1..], b);
    }
  }

  lemma NumberTail(b: seq<u8>)
    requires (Starts(b, MINUS) || DigitFirst(b)) && NumberAt(b).Out?
    ensures Tail(NumberAt(b).rest, b)
  {
    hide WholeAt, FractionAt, ExponentAt, Decimal, Tail;
    var b0 := if b[0] == MINUS then b[1..] else b;
    TailNext(b, if b[0] == MINUS then 1 else 0);
    WholeTail(b0);
    var (n, b1) := WholeAt(b0);
    TailTwice(b1, b0, b);
    FractionTail(b1, n);
    var (m, k, b2) := FractionAt(b1, n);
    TailTwice(b2, b1, b);
    ExponentTail(b2);
    TailTwice(ExponentAt(b2).1, b2, b);
  }

  lemma WholeTail(b: seq<u8>)
    ensures Tail(WholeAt(b).1, b)
  {
    hide DigitRun, Tail;
    var b1 := if Starts(b, 0x30) then b[1..] else b;
    TailNext(b, if Starts(b, 0x30) then 1 else 0);
    DigitTail(b1, 0);
    TailTwice(DigitRun(b1, 0).1, b1, b);
  }

  lemma FractionTail(b: seq<u8>, n: nat)
    ensures Tail(FractionAt(b, n).2, b)
  {
    hide DigitRun, Tail;
    if Fraction(b) {
      TailNext(b, 1);
      DigitTail(b[1..], n);
      TailTwice(DigitRun(b[1..], n).1, b[1..], b);
    } else {
      TailNext(b, 0);
    }
  }

  lemma ExponentTail(b: seq<u8>)
    ensures Tail(ExponentAt(b).1, b)
  {
    hide DigitRun, Tail;
    if Exponent(b) {
      var at := if Starts(b[1..], PLUS) || Starts(b[1..], MINUS) then 2 else 1;
      TailNext(b, at);
      DigitTail(b[at..], 0);
      TailTwice(DigitRun(b[at..], 0).1, b[at..], b);
    } else {
      TailNext(b, 0);
    }
  }

  lemma StringTail(b: seq<u8>)
    requires StringOut(b).Out?
    ensures Tail(StringOut(b).rest, b)
  {
    hide Body;
    TailNext(b, 1);
    TailTwice(StringOut(b).rest, b[1..], b);
  }

  lemma {:induction false} ValueTail(b: seq<u8>)
    requires ValueAt(b).Out?
    ensures Tail(ValueAt(b).rest, b)
    decreases |b|, 3
  {
    hide Tail, NumberAt, StringOut;
    if NULL_TEXT <= b || TRUE_TEXT <= b {
      TailNext(b, 4);
    } else if FALSE_TEXT <= b {
      TailNext(b, 5);
    } else if b[0] == QUOTE {
      StringTail(b);
    } else if b[0] == MINUS || IsDigit(b[0]) {
      NumberTail(b);
    } else {
      TailNext(b, 1);
      SkipTail(b[1..]);
      var v := Skip(b[1..]);
      TailTwice(v, b[1..], b);
      if Starts(v, CLOSE_ARRAY) || Starts(v, CLOSE_OBJECT) {
        TailNext(v, 1);
        TailTwice(v[1..], v, b);
      }
      if b[0] == OPEN_ARRAY && !Starts(v, CLOSE_ARRAY) {
        ItemsTail(v);
        TailTwice(ItemsAt(v).rest, v, b);
      }
      if b[0] == OPEN_OBJECT && !Starts(v, CLOSE_OBJECT) {
        MembersTail(v);
        TailTwice(MembersAt(v).rest, v, b);
      }
    }
  }

  lemma {:induction false} ItemsTail(b: seq<u8>)
    requires ItemsAt(b).Out?
    ensures Tail(ItemsAt(b).rest, b)
    decreases |b|, 4
  {
    hide Tail, ValueAt;
    SkipTail(b);
    var x := ValueAt(Skip(b));
    ValueTail(Skip(b));
    SkipTail(x.rest);
    var v := Skip(x.rest);
    TailTwice(x.rest, Skip(b), b);
    TailTwice(v, x.rest, b);
    TailNext(v, 1);
    TailTwice(v[1..], v, b);
    if Starts(v, COMMA) {
      ItemsTail(v[1..]);
      TailTwice(ItemsAt(v[1..]).rest, v[1..], b);
    }
  }

  lemma {:induction false} MemberTail(b: seq<u8>)
    requires MemberAt(b).Out?
    ensures Tail(MemberAt(b).rest, b)
    decreases |b|, 4
  {
    hide Tail, ValueAt, StringOut;
    SkipTail(b);
    var name := StringOut(Skip(b));
    StringTail(Skip(b));
    SkipTail(name.rest);
    var v := Skip(name.rest);
    TailTwice(name.rest, Skip(b), b);
    TailTwice(v, name.rest, b);
    TailNext(v, 1);
    TailTwice(v[1..], v, b);
    SkipTail(v[1..]);
    TailTwice(Skip(v[1..]), v[1..], b);
    ValueTail(Skip(v[1..]));
    TailTwice(ValueAt(Skip(v[1..])).rest, Skip(v[1..]), b);
  }

  lemma {:induction false} MembersTail(b: seq<u8>)
    requires MembersAt(b).Out?
    ensures Tail(MembersAt(b).rest, b)
    decreases |b|, 5
  {
    hide Tail, MemberAt;
    var x := MemberAt(b);
    MemberTail(b);
    SkipTail(x.rest);
    var v := Skip(x.rest);
    TailTwice(v, x.rest, b);
    TailNext(v, 1);
    TailTwice(v[1..], v, b);
    if Starts(v, COMMA) {
      MembersTail(v[1..]);
      TailTwice(MembersAt(v[1..]).rest, v[1..], b);
    }
  }

  // ---- the parser itself ----

  ghost function Lift<V>(text: seq<u8>, o: Out<V>): Result<V> {
    match o
    case Out(v, rest) => if |rest| <= |text| then Parsed(v, |text| - |rest|) else Failed
    case NoValue => Failed
    case Unknown => Undefined
  }

  /** Position behind `rest`, when `rest` is an end of the text from `pos` on. */
  lemma RestAt(text: seq<u8>, pos: nat, rest: seq<u8>)
    requires pos <= |text| && Tail(rest, text[pos..])
    ensures pos <= |text| - |rest| <= |text| && text[|text| - |rest|..] == rest
  {
  }

  method SkipAt(text: seq<u8>, pos: nat) returns (end: nat)
    requires pos <= |text|
    ensures pos <= end <= |text| && text[end..] == Skip(text[pos..])
  {
    end := pos;
    while end < |text| && 1 <= text[end] <= 32
      invariant pos <= end <= |text| && Skip(text[end..]) == Skip(text[pos..])
    {
      assert text[end..][1..] == text[end + 1..];
      end := end + 1;
    }
  }

  lemma DigitStep(text: seq<u8>, num: nat, n: nat)
    requires num < |text| && IsDigit(text[num])
    ensures DigitRun(text[num..], n) == DigitRun(text[num + 1..], n * 10 + (text[num] as int - 0x30))
  {
    assert text[num..][1..] == text[num + 1..];
  }

  lemma DigitStop(text: seq<u8>, num: nat, n: nat)
    requires num <= |text|
    ensures num == |text| || !IsDigit(text[num]) ==> DigitRun(text[num..], n) == (n, text[num..])
  {
  }

  /** The digits from `from` on, behind those of `n0`. */
  method ReadDigits(text: seq<u8>, from: nat, n0: nat) returns (n: nat, num: nat)
    requires from <= |text|
    ensures from <= num <= |text| && (n, text[num..]) == DigitRun(text[from..], n0)
  {
    n, num := n0, from;
    while num < |text| && IsDigit(text[num])
      invariant from <= num <= |text| && DigitRun(text[num..], n) == DigitRun(text[from..], n0)
    {
      DigitStep(text, num, n);
      n := n * 10 + (text[num] as int - 0x30);
      num := num + 1;
    }
    DigitStop(text, num, n);
  }

  lemma NumberIs(text: seq<u8>, pos: nat, b0: seq<u8>, n: nat, b1: seq<u8>, m: nat, k: nat, b2: seq<u8>, x: int,
                 num: nat)
    requires pos < |text| && (text[pos] == MINUS || IsDigit(text[pos])) && num <= |text|
    requires b0 == if text[pos] == MINUS then text[pos..][1..] else text[pos..]
    requires (n, b1) == WholeAt(b0) && (m, k, b2) == FractionAt(b1, n) && (x, text[num..]) == ExponentAt(b2)
    ensures Lift(text, NumberAt(text[pos..])) ==
            if -INT_MAX <= x <= INT_MAX then
              Parsed(Number(Decimal(Signed(text[pos] == MINUS, m), x - k)), num)
            else Undefined
  {
    hide WholeAt, FractionAt, ExponentAt, Decimal;
  }

  lemma WholeIs(text: seq<u8>, at: nat, from: nat, n: nat, num: nat)
    requires at <= from <= |text| && num <= |text| && from == if Starts(text[at..], 0x30) then at + 1 else at
    requires (n, text[num..]) == if from < |text| && 0x31 <= text[from] <= 0x39 then DigitRun(text[from..], 0)
                                 else (0, text[from..])
    ensures WholeAt(text[at..]) == (n, text[num..])
  {
    hide DigitRun;
  }

  lemma FractionIs(text: seq<u8>, at: nat, n: nat, m: nat, num: nat)
    requires at <= |text| && num <= |text|
    requires (m, text[num..]) == if Fraction(text[at..]) then DigitRun(text[at + 1..], n) else (n, text[at..])
    ensures FractionAt(text[at..], n) == (m, if Fraction(text[at..]) then num - at - 1 else 0, text[num..])
  {
    hide DigitRun;
    if Fraction(text[at..]) {
      assert text[at..][1..] == text[at + 1..];
    }
  }

  lemma ExponentIs(text: seq<u8>, at: nat, from: nat, n: nat, num: nat)
    requires at < |text| && from <= |text| && num <= |text| && Exponent(text[at..])
    requires from == if Starts(text[at + 1..], PLUS) || Starts(text[at + 1..], MINUS) then at + 2 else at + 1
    requires (n, text[num..]) == DigitRun(text[from..], 0)
    ensures ExponentAt(text[at..]) == (Signed(Starts(text[at + 1..], MINUS), n), text[num..])
  {
    hide DigitRun;
    assert text[at..][1..] == text[at + 1..];
  }

  lemma NoExponent(text: seq<u8>, at: nat)
    requires at <= |text| && !Exponent(text[at..])
    ensures ExponentAt(text[at..]) == (0, text[at..])
  {
  }

  /** parse_number, the digits in front of a point */
  method ReadWhole(text: seq<u8>, at: nat) returns (n: nat, num: nat)
    requires at <= |text|
    ensures at <= num <= |text| && WholeAt(text[at..]) == (n, text[num..])
  {
    hide DigitRun, WholeAt;
    n, num := 0, at;
    if num < |text| && text[num] == 0x30 {
      num := num + 1;
    }
    ghost var from := num;
    if num < |text| && 0x31 <= text[num] <= 0x39 {
      n, num := ReadDigits(text, num, 0);
    }
    WholeIs(text, at, from, n, num);
  }

  /** parse_number, the digits behind a point */
  method ReadFraction(text: seq<u8>, at: nat, n0: nat) returns (n: nat, scale: int, num: nat)
    requires at <= |text|
    ensures at <= num <= |text| && scale <= 0 && FractionAt(text[at..], n0) == (n, -scale, text[num..])
  {
    hide DigitRun, FractionAt;
    n, scale, num := n0, 0, at;
    if num + 1 < |text| && text[num] == DOT && IsDigit(text[num + 1]) {
      n, num := ReadDigits(text, at + 1, n0);
      scale := at + 1 - num;
    }
    FractionIs(text, at, n0, n, num);
  }

  /** parse_number, the exponent */
  method ReadExponent(text: seq<u8>, at: nat) returns (subscale: nat, signSubscale: int, num: nat)
    requires at <= |text|
    ensures at <= num <= |text| && (signSubscale == 1 || signSubscale == -1)
    ensures ExponentAt(text[at..]) == (signSubscale * subscale, text[num..])
  {
    hide DigitRun, ExponentAt;
    subscale, signSubscale, num := 0, 1, at;
    if num < |text| && (text[num] == LETTER_E || text[num] == CAPITAL_E) {
      num := num + 1;
      if num < |text| && text[num] == PLUS {
        num := num + 1;
      } else if num < |text| && text[num] == MINUS {
        signSubscale := -1;
        num := num + 1;
      }
      ghost var from := num;
      subscale, num := ReadDigits(text, num, 0);
      ExponentIs(text, at, from, subscale, num);
    } else {
      NoExponent(text, num);
    }
  }

  /** parse_number */
  method ParseNumber(text: seq<u8>, pos: nat) returns (r: Result<Json>)
    requires pos < |text| && (text[pos] == MINUS || IsDigit(text[pos]))
    ensures r == Lift(text, NumberAt(text[pos..]))
  {
    hide Decimal, NumberAt, WholeAt, FractionAt, ExponentAt, Lift;
    var sign: int, start := 1, pos;
    if text[pos] == MINUS {
      sign, start := -1, pos + 1;
    }
    var n0, num0 := ReadWhole(text, start);
    var n, scale, num1 := ReadFraction(text, num0, n0);
    var subscale, signSubscale, num := ReadExponent(text, num1);
    NumberIs(text, pos, text[start..], n0, text[num0..], n, -scale, text[num1..], signSubscale * subscale, num);
    if subscale > INT_MAX {
      return Undefined;
    }
    assert sign * n == Signed(text[pos] == MINUS, n);
    r := Parsed(Number(Decimal(sign * n, scale + signSubscale * subscale)), num);
  }

  lemma StringLift(text: seq<u8>, pos: nat)
    requires pos <= |text|
    ensures StringAt(text, pos) == Lift(text, StringOut(text[pos..]))
  {
    hide Body;
    if pos < |text| {
      assert text[pos..][1..] == text[pos + 1..];
    }
  }

  /** parse_value */
  method ParseValue(text: seq<u8>, pos: nat) returns (r: Result<Json>)
    requires pos <= |text|
    ensures r == Lift(text, ValueAt(text[pos..]))
    decreases |text| - pos, 1
  {
    hide NumberAt, StringOut, ItemsAt, MembersAt, StringAt;
    var value := text[pos..];
    if NULL_TEXT <= value {
      return Parsed(Null, pos + 4);
    }
    if FALSE_TEXT <= value {
      return Parsed(False, pos + 5);
    }
    if TRUE_TEXT <= value {
      return Parsed(True, pos + 4);
    }
    if pos == |text| {
      return Failed;
    }
    if text[pos] == QUOTE {
      StringLift(text, pos);
      var s := ParseString(text, pos);
      r := match s case Parsed(v, end) => Parsed(Str(v), end) case Failed => Failed case Undefined => Undefined;
    } else if text[pos] == MINUS || IsDigit(text[pos]) {
      r := ParseNumber(text, pos);
    } else if text[pos] == OPEN_ARRAY {
      r := ParseArray(text, pos);
    } else if text[pos] == OPEN_OBJECT {
      r := ParseObject(text, pos);
    } else {
      r := Failed;
    }
  }

  /** What is left to read of an array behind one of its values. */
  ghost function MoreItems(v: seq<u8>): Out<seq<Json>> {
    if Starts(v, COMMA) then ItemsAt(v[1..])
    else if Starts(v, CLOSE_ARRAY) then Out([], v[1..])
    else NoValue
  }

  /** One value of an array, read from `start` and ending at `end`. */
  lemma ItemRead(text: seq<u8>, start: nat, from: nat, end: nat, x: Json)
    requires start <= |text| && from <= |text| && text[from..] == Skip(text[start..])
    requires Lift(text, ValueAt(text[from..])) == Parsed(x, end)
    ensures from < end <= |text|
    ensures ItemsAt(text[start..]) == With([x], MoreItems(Skip(text[end..])))
  {
    hide ValueAt, Skip;
    ValueTail(text[from..]);
    RestAt(text, from, ValueAt(text[from..]).rest);
    assert [x] + [] == [x];
  }

  lemma ItemUnread(text: seq<u8>, start: nat, from: nat)
    requires start <= |text| && from <= |text| && text[from..] == Skip(text[start..])
    ensures ValueAt(text[from..]).NoValue? ==> ItemsAt(text[start..]) == NoValue
    ensures ValueAt(text[from..]).Unknown? ==> ItemsAt(text[start..]) == Unknown
  {
    hide ValueAt, Skip;
  }

  lemma WithTwice<A>(a: seq<A>, b: seq<A>, o: Out<seq<A>>)
    ensures With(a, With(b, o)) == With(a + b, o)
  {
    if o.Out? {
      assert a + (b + o.value) == (a + b) + o.value;
    }
  }

  /** The array at `pos` starts with `items`; what is left of it is at `value`. */
  ghost predicate ReadingItems(text: seq<u8>, pos: nat, items: seq<Json>, value: nat) {
    && pos < value <= |text|
    && ValueAt(text[pos..]) == Map(With(items, MoreItems(text[value..])), xs => Array(xs))
  }

  lemma ArrayStarts(text: seq<u8>, pos: nat, value: nat)
    requires pos < |text| && text[pos] == OPEN_ARRAY && pos < value <= |text| && text[value..] == Skip(text[pos + 1..])
    ensures if value < |text| && text[value] == CLOSE_ARRAY then
            Lift(text, ValueAt(text[pos..])) == Parsed(Array([]), value + 1)
            else ValueAt(text[pos..]) == Map(ItemsAt(text[value..]), xs => Array(xs))
  {
    hide ItemsAt, Skip;
    assert text[pos..][1..] == text[pos + 1..];
    if value < |text| {
      assert text[value..][1..] == text[value + 1..];
    }
  }

  /** The next value of an array has been parsed from `from`, behind `start`. */
  lemma ItemsNext(text: seq<u8>, pos: nat, items: seq<Json>, start: nat, from: nat, x: Result<Json>)
    requires pos < start <= |text| && from <= |text| && text[from..] == Skip(text[start..])
    requires ValueAt(text[pos..]) == Map(With(items, ItemsAt(text[start..])), xs => Array(xs))
    requires x == Lift(text, ValueAt(text[from..]))
    ensures !x.Parsed? ==> Lift(text, ValueAt(text[pos..])) == x
    ensures x.Parsed? ==> start <= from < x.pos <= |text|
    ensures x.Parsed? ==> forall value :: x.pos <= value <= |text| && text[value..] == Skip(text[x.pos..]) ==>
              ReadingItems(text, pos, items + [x.value], value)
  {
    hide ValueAt, ItemsAt, Skip, MoreItems;
    ItemUnread(text, start, from);
    SkipTail(text[start..]);
    if x.Parsed? {
      ItemRead(text, start, from, x.pos, x.value);
      WithTwice(items, [x.value], MoreItems(Skip(text[x.pos..])));
    } else {
      ValueShort(text[from..]);
    }
  }

  lemma ValueShort(b: seq<u8>)
    ensures ValueAt(b).Out? ==> |ValueAt(b).rest| < |b|
  {
  }

  lemma ItemsComma(text: seq<u8>, pos: nat, items: seq<Json>, value: nat)
    requires ReadingItems(text, pos, items, value) && value < |text| && text[value] == COMMA
    ensures ValueAt(text[pos..]) == Map(With(items, ItemsAt(text[value + 1..])), xs => Array(xs))
  {
    hide ValueAt, ItemsAt;
    assert text[value..][1..] == text[value + 1..];
  }

  lemma ItemsEnd(text: seq<u8>, pos: nat, items: seq<Json>, value: nat)
    requires ReadingItems(text, pos, items, value) && (value == |text| || text[value] != COMMA)
    ensures Lift(text, ValueAt(text[pos..])) ==
            if value < |text| && text[value] == CLOSE_ARRAY then Parsed(Array(items), value + 1) else Failed
  {
    hide ValueAt, ItemsAt;
    assert items + [] == items;
    if value < |text| {
      assert text[value..][1..] == text[value + 1..];
    }
  }

  lemma NoItems(text: seq<u8>, pos: nat, start: nat)
    requires pos <= |text| && start <= |text| && ValueAt(text[pos..]) == Map(ItemsAt(text[start..]), xs => Array(xs))
    ensures ValueAt(text[pos..]) == Map(With([], ItemsAt(text[start..])), xs => Array(xs))
  {
    hide ValueAt, ItemsAt;
    var o := ItemsAt(text[start..]);
    if o.Out? {
      assert [] + o.value == o.value;
    }
  }

  /** parse_array */
  method ParseArray(text: seq<u8>, pos: nat) returns (r: Result<Json>)
    requires pos < |text| && text[pos] == OPEN_ARRAY
    ensures r == Lift(text, ValueAt(text[pos..]))
    decreases |text| - pos, 0
  {
    hide ValueAt, ItemsAt, Skip, Lift, ReadingItems, With, Map;
    var value := SkipAt(text, pos + 1);
    ArrayStarts(text, pos, value);
    if value < |text| && text[value] == CLOSE_ARRAY {
      return Parsed(Array([]), value + 1);
    }
    NoItems(text, pos, value);
    var from := SkipAt(text, value);
    var x := ParseValue(text, from);
    ItemsNext(text, pos, [], value, from, x);
    if !x.Parsed? {
      return x;
    }
    var items := [x.value];
    assert [] + items == items;
    value := SkipAt(text, x.pos);
    while value < |text| && text[value] == COMMA
      invariant pos < value <= |text| && ReadingItems(text, pos, items, value)
      decreases |text| - value
    {
      ItemsComma(text, pos, items, value);
      from := SkipAt(text, value + 1);
      x := ParseValue(text, from);
      ItemsNext(text, pos, items, value + 1, from, x);
      if !x.Parsed? {
        return x;
      }
      items := items + [x.value];
      value := SkipAt(text, x.pos);
    }
    ItemsEnd(text, pos, items, value);
    r := if value < |text| && text[value] == CLOSE_ARRAY then Parsed(Array(items), value + 1) else Failed;
  }

  /** A name, a colon and a value: the part parse_object has twice. */
  method ParseMember(text: seq<u8>, start: nat) returns (r: Result<Member>)
    requires start <= |text|
    ensures r == Lift(text, MemberAt(text[start..]))
    ensures r.Parsed? ==> start < r.pos <= |text|
    decreases |text| - start, 2
  {
    hide StringOut, StringAt, ValueAt, Skip;
    var value := SkipAt(text, start);
    StringLift(text, value);
    var name := ParseString(text, value);
    if !name.Parsed? {
      NameUnread(text, start, value);
      return if name.Failed? then Failed else Undefined;
    }
    NameRead(text, start, value, name.pos);
    value := SkipAt(text, name.pos);
    if value == |text| || text[value] != COLON {
      return Failed;
    }
    assert text[value..][1..] == text[value + 1..];
    value := SkipAt(text, value + 1);
    var x := ParseValue(text, value);
    if !x.Parsed? {
      return if x.Failed? then Failed else Undefined;
    }
    ValueEnds(text, value);
    r := Parsed(Member(name.value, x.value), x.pos);
  }

  lemma NameUnread(text: seq<u8>, start: nat, from: nat)
    requires start <= |text| && from <= |text| && text[from..] == Skip(text[start..])
    ensures StringOut(text[from..]).NoValue? ==> MemberAt(text[start..]) == NoValue
    ensures StringOut(text[from..]).Unknown? ==> MemberAt(text[start..]) == Unknown
  {
    hide StringOut, Skip;
  }

  lemma NameRead(text: seq<u8>, start: nat, from: nat, end: nat)
    requires start <= |text| && from <= |text| && text[from..] == Skip(text[start..])
    requires StringOut(text[from..]).Out? && end == |text| - |StringOut(text[from..]).rest|
    ensures start <= from < end <= |text| && text[end..] == StringOut(text[from..]).rest
  {
    hide StringOut;
    StringTail(text[from..]);
    SkipTail(text[start..]);
    RestAt(text, from, StringOut(text[from..]).rest);
  }

  lemma ValueEnds(text: seq<u8>, pos: nat)
    requires pos <= |text| && ValueAt(text[pos..]).Out?
    ensures pos < |text| - |ValueAt(text[pos..]).rest| <= |text|
  {
    hide ValueAt;
    ValueTail(text[pos..]);
    RestAt(text, pos, ValueAt(text[pos..]).rest);
  }

  /** What is left to read of an object behind one of its members. */
  ghost function MoreMembers(v: seq<u8>): Out<seq<Member>> {
    if Starts(v, COMMA) then MembersAt(v[1..])
    else if Starts(v, CLOSE_OBJECT) then Out([], v[1..])
    else NoValue
  }

  lemma MemberRead(text: seq<u8>, start: nat, end: nat, m: Member)
    requires start <= |text| && Lift(text, MemberAt(text[start..])) == Parsed(m, end)
    ensures start < end <= |text|
    ensures MembersAt(text[start..]) == With([m], MoreMembers(Skip(text[end..])))
  {
    hide MemberAt, Skip;
    MemberTail(text[start..]);
    RestAt(text, start, MemberAt(text[start..]).rest);
    assert [m] + [] == [m];
  }

  lemma MemberUnread(text: seq<u8>, start: nat)
    requires start <= |text|
    ensures MemberAt(text[start..]).NoValue? ==> MembersAt(text[start..]) == NoValue
    ensures MemberAt(text[start..]).Unknown? ==> MembersAt(text[start..]) == Unknown
  {
    hide MemberAt;
  }

  /** The object at `pos` starts with `members`; what is left of it is at `value`. */
  ghost predicate ReadingMembers(text: seq<u8>, pos: nat, members: seq<Member>, value: nat) {
    && pos < value <= |text|
    && ValueAt(text[pos..]) == Map(With(members, MoreMembers(text[value..])), ms => Object(ms))
  }

  lemma ObjectStarts(text: seq<u8>, pos: nat, value: nat)
    requires pos < |text| && text[pos] == OPEN_OBJECT && pos < value <= |text| && text[value..] == Skip(text[pos + 1..])
    ensures if value < |text| && text[value] == CLOSE_OBJECT then
            Lift(text, ValueAt(text[pos..])) == Parsed(Object([]), value + 1)
            else ValueAt(text[pos..]) == Map(With([], MembersAt(text[value..])), ms => Object(ms))
  {
    hide MembersAt, Skip;
    assert text[pos..][1..] == text[pos + 1..];
    if value < |text| {
      assert text[value..][1..] == text[value + 1..];
    }
    var o := MembersAt(text[value..]);
    if o.Out? {
      assert [] + o.value == o.value;
    }
  }

  /** The next member of an object has been parsed, from `start` on. */
  lemma MembersNext(text: seq<u8>, pos: nat, members: seq<Member>, start: nat, m: Result<Member>)
    requires pos < start <= |text|
    requires ValueAt(text[pos..]) == Map(With(members, MembersAt(text[start..])), ms => Object(ms))
    requires m == Lift(text, MemberAt(text[start..]))
    ensures m.Failed? ==> Lift(text, ValueAt(text[pos..])) == Failed
    ensures m.Undefined? ==> Lift(text, ValueAt(text[pos..])) == Undefined
    ensures m.Parsed? ==> start < m.pos <= |text|
    ensures m.Parsed? ==> forall value :: m.pos <= value <= |text| && text[value..] == Skip(text[m.pos..]) ==>
              ReadingMembers(text, pos, members + [m.value], value)
  {
    hide ValueAt, MembersAt, MemberAt, Skip, MoreMembers;
    MemberUnread(text, start);
    MemberShort(text[start..]);
    if m.Parsed? {
      MemberRead(text, start, m.pos, m.value);
      WithTwice(members, [m.value], MoreMembers(Skip(text[m.pos..])));
    }
  }

  lemma MemberShort(b: seq<u8>)
    ensures MemberAt(b).Out? ==> |MemberAt(b).rest| < |b|
  {
  }

  lemma MembersComma(text: seq<u8>, pos: nat, members: seq<Member>, value: nat)
    requires ReadingMembers(text, pos, members, value) && value < |text| && text[value] == COMMA
    ensures ValueAt(text[pos..]) == Map(With(members, MembersAt(text[value + 1..])), ms => Object(ms))
  {
    hide ValueAt, MembersAt;
    assert text[value..][1..] == text[value + 1..];
  }

  lemma MembersEnd(text: seq<u8>, pos: nat, members: seq<Member>, value: nat)
    requires ReadingMembers(text, pos, members, value) && (value == |text| || text[value] != COMMA)
    ensures Lift(text, ValueAt(text[pos..])) ==
            if value < |text| && text[value] == CLOSE_OBJECT then Parsed(Object(members), value + 1) else Failed
  {
    hide ValueAt, MembersAt;
    assert members + [] == members;
    if value < |text| {
      assert text[value..][1..] == text[value + 1..];
    }
  }

  /** parse_object */
  method ParseObject(text: seq<u8>, pos: nat) returns (r: Result<Json>)
    requires pos < |text| && text[pos] == OPEN_OBJECT
    ensures r == Lift(text, ValueAt(text[pos..]))
    decreases |text| - pos, 0
  {
    hide ValueAt, MembersAt, MemberAt, Skip, Lift, ReadingMembers, With, Map;
    var value := SkipAt(text, pos + 1);
    ObjectStarts(text, pos, value);
    if value < |text| && text[value] == CLOSE_OBJECT {
      return Parsed(Object([]), value + 1);
    }
    var m := ParseMember(text, value);
    MembersNext(text, pos, [], value, m);
    if !m.Parsed? {
      return if m.Failed? then Failed else Undefined;
    }
    var members := [m.value];
    assert [] + members == members;
    value := SkipAt(text, m.pos);
    while value < |text| && text[value] == COMMA
      invariant pos < value <= |text| && ReadingMembers(text, pos, members, value)
      decreases |text| - value
    {
      MembersComma(text, pos, members, value);
      m := ParseMember(text, value + 1);
      MembersNext(text, pos, members, value + 1, m);
      if !m.Parsed? {
        return if m.Failed? then Failed else Undefined;
      }
      members := members + [m.value];
      value := SkipAt(text, m.pos);
    }
    MembersEnd(text, pos, members, value);
    r := if value < |text| && text[value] == CLOSE_OBJECT then Parsed(Object(members), value + 1) else Failed;
  }

  /** cJSON_Parse: leading white space is passed over, and what follows the value is not looked at. */
  method Parse(text: seq<u8>) returns (r: Result<Json>)
    ensures r == Lift(text, ValueAt(Skip(text)))
  {
    hide ValueAt, Skip;
    assert text[0..] == text;
    var value := SkipAt(text, 0);
    r := ParseValue(text, value);
  }
}
