/** JSON texts by RFC 8259, with all their white space, and the proof that the parser reads each of them as the value it
    means (cJSON.c). What a text is made of is spelled out here in bytes, not in the constants of the parser. */
module JsonDoc {
  import opened Words
  import opened JsonValue
  import opened JsonChars
  import opened JsonNumber
  import JsonString

  /** A text, taken apart. The white space of an empty array or object is `blank`. */
  datatype Doc =
    | NullDoc | FalseDoc | TrueDoc
    | NumberDoc(number: Numeral)
    | StringDoc(chars: seq<Char>)
    | ArrayDoc(items: seq<Item>, blank: seq<u8>)
    | ObjectDoc(members: seq<Entry>, blank: seq<u8>)

  /** A value of an array, with the white space around it. */
  datatype Item = Item(before: seq<u8>, value: Doc, after: seq<u8>)

  /** A member of an object, with the white space in front of it, around its colon, and behind it. */
  datatype Entry = Entry(before: seq<u8>, name: seq<Char>, between: seq<u8>, gap: seq<u8>, value: Doc, after: seq<u8>)

  /** White space, and what the parser takes for it. */
  predicate Blank(w: seq<u8>) {
    forall i :: 0 <= i < |w| ==> 1 <= w[i] <= 0x20
  }

  predicate GoodDoc(d: Doc) {
    match d
    case NumberDoc(w) => GoodNumeral(w) && -0x7FFF_FFFF <= PowerOf(w.power) <= 0x7FFF_FFFF
    case StringDoc(chars) => GoodChars(chars)
    case ArrayDoc(items, blank) => Blank(blank) && GoodItems(items)
    case ObjectDoc(members, blank) => Blank(blank) && GoodEntries(members)
    case _ => true
  }

  predicate GoodItems(items: seq<Item>) {
    items != [] ==>
      && Blank(items[0].before) && GoodDoc(items[0].value) && Blank(items[0].after)
      && GoodItems(items[1..])
  }

  predicate GoodEntries(members: seq<Entry>) {
    members != [] ==>
      && Blank(members[0].before) && GoodChars(members[0].name) && Blank(members[0].between)
      && Blank(members[0].gap) && GoodDoc(members[0].value) && Blank(members[0].after)
      && GoodEntries(members[1..])
  }

  function DocText(d: Doc): seq<u8>
    requires GoodDoc(d)
    decreases d
  {
    match d
    case NullDoc => [0x6E, 0x75, 0x6C, 0x6C]
    case FalseDoc => [0x66, 0x61, 0x6C, 0x73, 0x65]
    case TrueDoc => [0x74, 0x72, 0x75, 0x65]
    case NumberDoc(w) => NumeralText(w)
    case StringDoc(chars) => [0x22] + CharsText(chars) + [0x22]
    case ArrayDoc(items, blank) => [0x5B] + if items == [] then blank + [0x5D] else ArrayTail(items)
    case ObjectDoc(members, blank) => [0x7B] + if members == [] then blank + [0x7D] else ObjectTail(members)
  }

  /** The values of an array and its closing bracket. */
  function ArrayTail(items: seq<Item>): seq<u8>
    requires GoodItems(items) && items != []
    decreases items
  {
    items[0].before + DocText(items[0].value) + items[0].after
    + if |items| == 1 then [0x5D] else [0x2C] + ArrayTail(items[1..])
  }

  function EntryText(m: Entry): seq<u8>
    requires GoodChars(m.name) && GoodDoc(m.value)
    decreases m
  {
    m.before + [0x22] + CharsText(m.name) + [0x22] + m.between + [0x3A] + m.gap + DocText(m.value) + m.after
  }

  /** The members of an object and its closing brace. */
  function ObjectTail(members: seq<Entry>): seq<u8>
    requires GoodEntries(members) && members != []
    decreases members
  {
    EntryText(members[0]) + if |members| == 1 then [0x7D] else [0x2C] + ObjectTail(members[1..])
  }

  /** What a text means. */
  function Meaning(d: Doc): Json
    requires GoodDoc(d)
    decreases d
  {
    match d
    case NullDoc => Null
    case FalseDoc => False
    case TrueDoc => True
    case NumberDoc(w) => Number(NumeralValue(w))
    case StringDoc(chars) => Str(CharsValue(chars))
    case ArrayDoc(items, _) => Array(ItemValues(items))
    case ObjectDoc(members, _) => Object(EntryValues(members))
  }

  function ItemValues(items: seq<Item>): seq<Json>
    requires GoodItems(items)
    decreases items
  {
    if items == [] then [] else [Meaning(items[0].value)] + ItemValues(items[1..])
  }

  function EntryValue(m: Entry): Member
    requires GoodChars(m.name) && GoodDoc(m.value)
    decreases m
  {
    Member(CharsValue(m.name), Meaning(m.value))
  }

  function EntryValues(members: seq<Entry>): seq<Member>
    requires GoodEntries(members)
    decreases members
  {
    if members == [] then [] else [EntryValue(members[0])] + EntryValues(members[1..])
  }

  // ---- white space ----

  lemma {:induction false} SkipBlank(w: seq<u8>, b: seq<u8>)
    requires Blank(w)
    ensures Skip(w + b) == Skip(b)
  {
    if w == [] {
      assert w + b == b;
    } else {
      assert (w + b)[1..] == w[1..] + b;
      SkipBlank(w[1..], b);
    }
  }

  lemma SkipNothing(b: seq<u8>)
    requires b != [] ==> b[0] > 32
    ensures Skip(b) == b
  {
  }

  /** White space in front of something else is skipped. */
  lemma SkipTo(w: seq<u8>, b: seq<u8>)
    requires Blank(w) && b != [] && b[0] > 32
    ensures Skip(w + b) == b
  {
    SkipBlank(w, b);
    SkipNothing(b);
  }

  lemma {:induction false} SkipTwice(b: seq<u8>)
    ensures Skip(Skip(b)) == Skip(b)
  {
    if b != [] && 1 <= b[0] <= 32 {
      SkipTwice(b[1..]);
    }
  }

  lemma ItemsBlank(b: seq<u8>)
    ensures ItemsAt(Skip(b)) == ItemsAt(b)
  {
    hide ValueAt;
    SkipTwice(b);
  }

  lemma MembersBlank(b: seq<u8>)
    ensures MembersAt(Skip(b)) == MembersAt(b)
  {
    hide ValueAt, StringOut;
    SkipTwice(b);
  }

  /** Behind white space a comma or a closing bracket continues no number. */
  lemma NoMore(w: seq<u8>, c: u8, rest: seq<u8>)
    requires Blank(w) && (c == 0x2C || c == 0x5D || c == 0x7D)
    ensures !Continues(w + ([c] + rest))
  {
    var b := w + ([c] + rest);
    assert b[0] == if w == [] then c else w[0];
  }

  // ---- one value ----

  /** A text starts with something that is neither white space nor a closing bracket. */
  lemma DocFirst(d: Doc)
    requires GoodDoc(d)
    ensures var t := DocText(d); t != [] && t[0] > 0x20 && t[0] != 0x5D && t[0] != 0x7D
  {
    match d
    case NumberDoc(w) =>
      hide PointText, PowerText;
      assert NumeralText(w)[0] == if w.negative then 0x2D else w.whole[0];
    case _ =>
  }

  lemma WordRead(word: seq<u8>, rest: seq<u8>)
    requires word == [0x6E, 0x75, 0x6C, 0x6C] || word == [0x66, 0x61, 0x6C, 0x73, 0x65] ||
             word == [0x74, 0x72, 0x75, 0x65]
    ensures ValueAt(word + rest) ==
            Out(if word[0] == 0x6E then Null else if word[0] == 0x66 then False else True, rest)
  {
    hide NumberAt, StringOut, ItemsAt, MembersAt;
    var b := word + rest;
    assert b[|word|..] == rest;
    assert b[0] == word[0] && b[1] == word[1];
    assert b[..|word|] == word;
  }

  /** The first byte decides that a text is a number. */
  lemma OpenNumber(b: seq<u8>)
    requires Starts(b, MINUS) || DigitFirst(b)
    ensures ValueAt(b) == NumberAt(b)
  {
    hide NumberAt, StringOut, ItemsAt, MembersAt;
  }

  lemma StringRead(chars: seq<Char>, rest: seq<u8>)
    requires GoodChars(chars)
    ensures StringOut([0x22] + CharsText(chars) + [0x22] + rest) == Out(CharsValue(chars), rest)
  {
    hide CharsText, CharsValue, GoodChar;
    var b := [0x22] + CharsText(chars) + [0x22] + rest;
    assert b[1..] == CharsText(chars) + [0x22] + rest;
    CharsRead(chars, rest);
  }

  lemma OpenString(b: seq<u8>)
    requires b != [] && b[0] == 0x22
    ensures ValueAt(b) == Map(StringOut(b), s => Str(s))
  {
    hide NumberAt, StringOut, ItemsAt, MembersAt;
  }

  /** The first byte decides that a text is an array, and what comes next. */
  lemma OpenArray(b: seq<u8>)
    requires b != [] && b[0] == 0x5B
    ensures var v := Skip(b[1..]);
            ValueAt(b) == if Starts(v, 0x5D) then Out(Array([]), v[1..]) else Map(ItemsAt(v), xs => Array(xs))
  {
    hide ItemsAt, Skip;
  }

  lemma OpenObject(b: seq<u8>)
    requires b != [] && b[0] == 0x7B
    ensures var v := Skip(b[1..]);
            ValueAt(b) == if Starts(v, 0x7D) then Out(Object([]), v[1..])
                else Map(MembersAt(v), ms => Object(ms))
  {
    hide MembersAt, Skip;
  }

  /** Every JSON text is read as what it means, whatever follows that cannot be taken for more of a number. */
  lemma {:induction false} DocRead(d: Doc, rest: seq<u8>)
    requires GoodDoc(d) && !Continues(rest)
    ensures ValueAt(DocText(d) + rest) == Out(Meaning(d), rest)
    decreases d
  {
    hide ValueAt, NumberAt, StringOut, CharsText, CharsValue, NumeralText, NumeralValue, Continues, GoodNumeral,
         GoodChars, ArrayTail, ObjectTail, GoodItems, GoodEntries, ItemValues, EntryValues, Blank;
    var b := DocText(d) + rest;
    match d
    case NullDoc => WordRead([0x6E, 0x75, 0x6C, 0x6C], rest);
    case FalseDoc => WordRead([0x66, 0x61, 0x6C, 0x73, 0x65], rest);
    case TrueDoc => WordRead([0x74, 0x72, 0x75, 0x65], rest);
    case NumberDoc(w) =>
      NumeralRead(w, rest);
      OpenNumber(b);
    case StringDoc(chars) =>
      StringRead(chars, rest);
      OpenString(b);
    case ArrayDoc(items, blank) => ArrayRead(items, blank, rest);
    case ObjectDoc(members, blank) => ObjectRead(members, blank, rest);
  }

  // ---- arrays ----

  lemma {:induction false} ArrayRead(items: seq<Item>, blank: seq<u8>, rest: seq<u8>)
    requires Blank(blank) && GoodItems(items)
    ensures ValueAt(DocText(ArrayDoc(items, blank)) + rest) == Out(Array(ItemValues(items)), rest)
    decreases items, 2
  {
    hide ValueAt, ItemsAt, ArrayTail, GoodItems, ItemValues, Skip, Blank;
    var b := DocText(ArrayDoc(items, blank)) + rest;
    assert b[1..] == (if items == [] then blank + [0x5D] else ArrayTail(items)) + rest;
    OpenArray(b);
    ArrayInside(items, blank, rest);
    NoValues();
  }

  lemma NoValues()
    ensures ItemValues([]) == [] && EntryValues([]) == []
  {
  }

  lemma {:induction false} ArrayInside(items: seq<Item>, blank: seq<u8>, rest: seq<u8>)
    requires Blank(blank) && GoodItems(items)
    ensures var v := Skip((if items == [] then blank + [0x5D] else ArrayTail(items)) + rest);
            if items == [] then Starts(v, 0x5D) && v[1..] == rest
            else !Starts(v, 0x5D) && ItemsAt(v) == Out(ItemValues(items), rest)
    decreases items, 1
  {
    hide ItemsAt, DocText, Meaning, GoodDoc;
    if items == [] {
      assert blank + [0x5D] + rest == blank + ([0x5D] + rest);
      SkipTo(blank, [0x5D] + rest);
    } else {
      ItemsRead(items, rest);
      ItemsBlank(ArrayTail(items) + rest);
      var behind := ItemSplit(items, rest);
      DocFirst(items[0].value);
      SkipTo(items[0].before, DocText(items[0].value) + behind);
    }
  }

  /** What stands behind the first value of an array. */
  lemma ItemSplit(items: seq<Item>, rest: seq<u8>) returns (behind: seq<u8>)
    requires GoodItems(items) && items != []
    ensures behind == items[0].after + (if |items| == 1 then [0x5D] + rest else [0x2C] + (ArrayTail(items[1..]) + rest))
    ensures ArrayTail(items) + rest == items[0].before + (DocText(items[0].value) + behind)
  {
    hide DocText, GoodDoc;
    behind := items[0].after + (if |items| == 1 then [0x5D] + rest else [0x2C] + (ArrayTail(items[1..]) + rest));
  }

  /** A value has been read, and then a comma or the closing bracket. */
  lemma ItemThen(x: Json, b: seq<u8>, behind: seq<u8>)
    requires ValueAt(Skip(b)) == Out(x, behind)
    ensures Starts(Skip(behind), 0x2C) ==> ItemsAt(b) == With([x], ItemsAt(Skip(behind)[1..]))
    ensures Starts(Skip(behind), 0x5D) ==> ItemsAt(b) == Out([x], Skip(behind)[1..])
    ensures !Starts(Skip(behind), 0x2C) && !Starts(Skip(behind), 0x5D) ==> ItemsAt(b) == NoValue
  {
    hide ValueAt, Skip;
  }

  /** The values of an array are read in order. */
  lemma {:induction false} ItemsRead(items: seq<Item>, rest: seq<u8>)
    requires GoodItems(items) && items != []
    ensures ItemsAt(ArrayTail(items) + rest) == Out(ItemValues(items), rest)
    decreases items, 0
  {
    hide DocText, Meaning, ValueAt, GoodDoc, ArrayTail, ItemsAt, Skip, Continues, Blank;
    var behind := ItemSplit(items, rest);
    var b, x, w := ArrayTail(items) + rest, items[0].value, items[0].after;
    DocFirst(x);
    SkipTo(items[0].before, DocText(x) + behind);
    if |items| == 1 {
      NoMore(w, 0x5D, rest);
      DocRead(x, behind);
      SkipTo(w, [0x5D] + rest);
      ItemThen(Meaning(x), b, behind);
      assert ([0x5D] + rest)[1..] == rest;
      assert items[1..] == [] && ItemValues(items) == [Meaning(x)];
    } else {
      var more := ArrayTail(items[1..]) + rest;
      NoMore(w, 0x2C, more);
      DocRead(x, behind);
      SkipTo(w, [0x2C] + more);
      ItemThen(Meaning(x), b, behind);
      assert ([0x2C] + more)[1..] == more;
      ItemsRead(items[1..], rest);
    }
  }

  // ---- objects ----

  lemma {:induction false} ObjectRead(members: seq<Entry>, blank: seq<u8>, rest: seq<u8>)
    requires Blank(blank) && GoodEntries(members)
    ensures ValueAt(DocText(ObjectDoc(members, blank)) + rest) == Out(Object(EntryValues(members)), rest)
    decreases members, 3
  {
    hide ValueAt, MembersAt, ObjectTail, GoodEntries, EntryValues, Skip, Blank;
    var b := DocText(ObjectDoc(members, blank)) + rest;
    assert b[1..] == (if members == [] then blank + [0x7D] else ObjectTail(members)) + rest;
    OpenObject(b);
    ObjectInside(members, blank, rest);
    NoValues();
  }

  lemma {:induction false} ObjectInside(members: seq<Entry>, blank: seq<u8>, rest: seq<u8>)
    requires Blank(blank) && GoodEntries(members)
    ensures var v := Skip((if members == [] then blank + [0x7D] else ObjectTail(members)) + rest);
            if members == [] then Starts(v, 0x7D) && v[1..] == rest
            else !Starts(v, 0x7D) && MembersAt(v) == Out(EntryValues(members), rest)
    decreases members, 2
  {
    hide MembersAt, DocText, Meaning, GoodDoc, GoodChars, CharsText, CharsValue;
    if members == [] {
      assert blank + [0x7D] + rest == blank + ([0x7D] + rest);
      SkipTo(blank, [0x7D] + rest);
    } else {
      MembersRead(members, rest);
      MembersBlank(ObjectTail(members) + rest);
      EntryFirst(members, rest);
    }
  }

  /** The parts of a member, each in front of the rest. */
  lemma EntryParts(m: Entry, rest: seq<u8>)
    requires GoodChars(m.name) && GoodDoc(m.value)
    ensures EntryText(m) + rest ==
            m.before + (([0x22] + CharsText(m.name) + [0x22]) +
                        (m.between + ([0x3A] + (m.gap + (DocText(m.value) + (m.after + rest))))))
  {
    hide GoodChar, GoodDoc, CharsText, DocText;
    var name, value := [0x22] + CharsText(m.name) + [0x22], DocText(m.value);
    SevenParts(m.before, name, m.between, [0x3A], m.gap, value, m.after, rest);
    assert EntryText(m) == m.before + name + m.between + [0x3A] + m.gap + value + m.after;
  }

  lemma SevenParts(a: seq<u8>, b: seq<u8>, c: seq<u8>, d: seq<u8>, e: seq<u8>, f: seq<u8>, g: seq<u8>, h: seq<u8>)
    ensures a + b + c + d + e + f + g + h == a + (b + (c + (d + (e + (f + (g + h))))))
  {
  }

  lemma EntryFirst(members: seq<Entry>, rest: seq<u8>)
    requires GoodEntries(members) && members != []
    ensures Starts(Skip(ObjectTail(members) + rest), 0x22)
  {
    hide GoodChar, GoodDoc, CharsText, DocText, Skip, EntryText;
    var m, close := members[0], if |members| == 1 then [0x7D] else [0x2C] + ObjectTail(members[1..]);
    assert ObjectTail(members) + rest == EntryText(m) + (close + rest);
    EntryParts(m, close + rest);
    SkipTo(m.before, ([0x22] + CharsText(m.name) + [0x22]) +
           (m.between + ([0x3A] + (m.gap + (DocText(m.value) + (m.after + (close + rest)))))));
  }

  /** A member is read, and left is the white space behind its value. */
  lemma {:induction false} EntryRead(m: Entry, rest: seq<u8>)
    requires Blank(m.before) && GoodChars(m.name) && Blank(m.between) && Blank(m.gap) && GoodDoc(m.value)
    requires !Continues(m.after + rest)
    ensures MemberAt(EntryText(m) + rest) == Out(EntryValue(m), m.after + rest)
    decreases m
  {
    hide StringOut, CharsText, CharsValue, DocText, Meaning, ValueAt, GoodDoc, GoodChar, Continues, Blank, Skip,
         EntryText;
    var value := DocText(m.value) + (m.after + rest);
    var colon := [0x3A] + (m.gap + value);
    var name := [0x22] + CharsText(m.name) + [0x22];
    EntryParts(m, rest);
    assert EntryText(m) + rest == m.before + (name + (m.between + colon));
    SkipTo(m.before, name + (m.between + colon));
    StringRead(m.name, m.between + colon);
    SkipTo(m.between, colon);
    assert colon[1..] == m.gap + value;
    DocFirst(m.value);
    SkipTo(m.gap, value);
    DocRead(m.value, m.after + rest);
  }

  /** A member has been read, and then a comma or the closing brace. */
  lemma MemberThen(x: Member, b: seq<u8>, behind: seq<u8>)
    requires MemberAt(b) == Out(x, behind)
    ensures Starts(Skip(behind), 0x2C) ==> MembersAt(b) == With([x], MembersAt(Skip(behind)[1..]))
    ensures Starts(Skip(behind), 0x7D) ==> MembersAt(b) == Out([x], Skip(behind)[1..])
    ensures !Starts(Skip(behind), 0x2C) && !Starts(Skip(behind), 0x7D) ==> MembersAt(b) == NoValue
  {
    hide MemberAt, Skip;
  }

  /** The members of an object are read in order. */
  lemma {:induction false} MembersRead(members: seq<Entry>, rest: seq<u8>)
    requires GoodEntries(members) && members != []
    ensures MembersAt(ObjectTail(members) + rest) == Out(EntryValues(members), rest)
    decreases members, 1
  {
    hide EntryText, EntryValue, MemberAt, GoodDoc, GoodChars, MembersAt, Skip, Continues, Blank;
    var m := members[0];
    if |members| == 1 {
      assert ObjectTail(members) + rest == EntryText(m) + ([0x7D] + rest);
      NoMore(m.after, 0x7D, rest);
      EntryRead(m, [0x7D] + rest);
      SkipTo(m.after, [0x7D] + rest);
      MemberThen(EntryValue(m), ObjectTail(members) + rest, m.after + ([0x7D] + rest));
      assert ([0x7D] + rest)[1..] == rest;
      assert members[1..] == [] && EntryValues(members) == [EntryValue(m)];
    } else {
      var more := ObjectTail(members[1..]) + rest;
      assert ObjectTail(members) + rest == EntryText(m) + ([0x2C] + more);
      NoMore(m.after, 0x2C, more);
      EntryRead(m, [0x2C] + more);
      SkipTo(m.after, [0x2C] + more);
      MemberThen(EntryValue(m), ObjectTail(members) + rest, m.after + ([0x2C] + more));
      assert ([0x2C] + more)[1..] == more;
      MembersRead(members[1..], rest);
    }
  }

  // ---- texts that are no value ----

  /** What starts with none of the bytes that start a value, or with one of the three words cut short, is no value. */
  lemma NotAValue(b: seq<u8>)
    requires !([0x6E, 0x75, 0x6C, 0x6C] <= b) && !([0x66, 0x61, 0x6C, 0x73, 0x65] <= b)
    requires !([0x74, 0x72, 0x75, 0x65] <= b)
    requires b != [] ==> b[0] !in {0x22, 0x2D, 0x5B, 0x7B} && !(0x30 <= b[0] <= 0x39)
    ensures ValueAt(b) == NoValue
  {
    hide NumberAt, StringOut, ItemsAt, MembersAt;
  }

  /** Where a value has to stand and none does, there is no array and no object. */
  lemma NoItem(b: seq<u8>)
    requires ValueAt(Skip(b)) == NoValue
    ensures ItemsAt(b) == NoValue
  {
    hide ValueAt;
  }

  lemma NoMember(b: seq<u8>)
    requires MemberAt(b) == NoValue
    ensures MembersAt(b) == NoValue
  {
    hide MemberAt;
  }

  /** A member that does not start with a quote, or has no colon behind its name or no value behind that, is none. */
  lemma NotAMember(b: seq<u8>)
    requires var name := StringOut(Skip(b)); var v := if name.Out? then Skip(name.rest) else [];
             !Starts(Skip(b), 0x22) || (name.Out? && (!Starts(v, 0x3A) || ValueAt(Skip(v[1..])) == NoValue))
    ensures MemberAt(b) == NoValue
  {
    hide Skip, JsonString.Body, ValueAt;
  }
}
