/** What the printer writes is JSON that means the value it was given, so that parsing gives the value back
    (cJSON.c). */
module JsonRound {
  import opened Words
  import opened JsonValue
  import opened JsonChars
  import opened JsonDoc
  import JsonNumber
  import JsonEscape
  import JsonString

  // ---- strings ----

  /** A character as it is printed: with the letter it has, by its code below 0x20, and else as it is. */
  function CharOf(c: u8): Char {
    if c == 0x22 || c == 0x5C then Short(c)
    else if c == 0x08 then Short(0x62)
    else if c == 0x0C then Short(0x66)
    else if c == 0x0A then Short(0x6E)
    else if c == 0x0D then Short(0x72)
    else if c == 0x09 then Short(0x74)
    else if c < 0x20 then Code(c, [false, false, false, false])
    else Raw(c)
  }

  function CharsOf(s: seq<u8>): (chars: seq<Char>)
    ensures |chars| == |s|
  {
    seq(|s|, i requires 0 <= i < |s| => CharOf(s[i]))
  }

  lemma CharPrinted(c: u8)
    requires c != 0
    ensures GoodChar(CharOf(c)) && !(CharOf(c).Code? && HighHalf(CharOf(c).n))
    ensures CharText(CharOf(c)) == JsonString.Printed(c) && CharValue(CharOf(c)) == [c]
  {
    if CharOf(c).Code? {
      assert c / 0x1000 == 0 && c / 0x100 % 16 == 0 && c / 0x10 % 16 == c / 16;
      assert JsonEscape.Utf8(c) == [c];
    }
  }

  lemma CharsGood(s: seq<u8>)
    requires JsonString.NoNul(s)
    ensures GoodChars(CharsOf(s))
  {
    hide GoodChar, CharOf;
    forall i | 0 <= i < |s| ensures GoodChar(CharOf(s[i])) && !(CharOf(s[i]).Code? && HighHalf(CharOf(s[i]).n)) {
      CharPrinted(s[i]);
    }
  }

  /** A string is printed as the literal that means it. */
  lemma {:induction false} CharsPrinted(s: seq<u8>)
    requires JsonString.NoNul(s)
    ensures GoodChars(CharsOf(s)) && CharsText(CharsOf(s)) == JsonString.Escaped(s) && CharsValue(CharsOf(s)) == s
  {
    hide GoodChar, CharOf, CharText, CharValue, JsonString.Printed;
    CharsGood(s);
    if s != [] {
      CharPrinted(s[0]);
      CharsPrinted(s[1..]);
      assert CharsOf(s)[1..] == CharsOf(s[1..]);
      assert s == [s[0]] + s[1..];
    }
  }

  /** The string round trip: every NUL-free string, whatever follows its closing quote. */
  lemma StringBack(s: seq<u8>, rest: seq<u8>)
    requires JsonString.NoNul(s)
    ensures JsonString.Body(JsonString.Escaped(s) + [0x22] + rest) == JsonString.Literal(s, rest)
  {
    hide GoodChars, CharsText, CharsValue, JsonString.Escaped, JsonString.Body;
    CharsPrinted(s);
    CharsRead(CharsOf(s), rest);
  }

  // ---- values ----

  function Indent(depth: nat): (w: seq<u8>)
    ensures |w| == depth + 1 && Blank(w)
  {
    [0x0A] + seq<u8>(depth, _ => 0x09)
  }

  /** The text of a value as it is printed. With `fmt`, a space stands behind every comma of an array, every member
      of an
      object on a line of its own behind one more tab than the object, and a tab behind every colon. */
  function DocOf(v: Json, depth: nat, fmt: bool): Doc
    decreases v
  {
    match v
    case Null => NullDoc
    case False => FalseDoc
    case True => TrueDoc
    case Number(d) => NumberDoc(JsonNumber.IntNumeral(d.Floor))
    case Str(s) => StringDoc(CharsOf(s))
    case Array(items) => ArrayDoc(ItemsOf(items, depth, fmt, []), [])
    case Object(members) => ObjectDoc(EntriesOf(members, depth, fmt), if fmt then Indent(depth) else [])
  }

  function ItemsOf(items: seq<Json>, depth: nat, fmt: bool, before: seq<u8>): (r: seq<Item>)
    ensures |r| == |items|
    decreases items
  {
    if items == [] then [] else
    [Item(before, DocOf(items[0], depth + 1, fmt), [])] + ItemsOf(items[1..], depth, fmt, if fmt then [0x20] else [])
  }

  function EntriesOf(members: seq<Member>, depth: nat, fmt: bool): (r: seq<Entry>)
    ensures |r| == |members|
    decreases members
  {
    if members == [] then [] else
    [EntryOf(members[0], depth, fmt, if fmt && |members| == 1 then Indent(depth) else [])]
    + EntriesOf(members[1..], depth, fmt)
  }

  function EntryOf(m: Member, depth: nat, fmt: bool, after: seq<u8>): Entry
    decreases m
  {
    Entry(if fmt then Indent(depth + 1) else [], CharsOf(m.name), [], if fmt then [0x09] else [],
          DocOf(m.value, depth + 1, fmt), after)
  }

  /** What is printed is a JSON text, in exactly this layout, and means the value. */
  lemma {:induction false} PrintedAs(v: Json, depth: nat, fmt: bool)
    requires Good(v)
    ensures GoodDoc(DocOf(v, depth, fmt))
    ensures DocText(DocOf(v, depth, fmt)) == Text(v, depth, fmt) && Meaning(DocOf(v, depth, fmt)) == v
    decreases v
  {
    hide JsonNumber.GoodNumeral, JsonNumber.NumeralText, JsonNumber.NumeralValue, IntText, JsonNumber.IntNumeral,
         GoodChars, CharsText, CharsValue, JsonString.Escaped, ItemsText, MembersText, ArrayTail, ObjectTail,
         GoodItems, GoodEntries, ItemValues, EntryValues, Blank, CharsOf, Tabs, ItemsOf, EntriesOf;
    match v
    case Null =>
    case False =>
    case True =>
    case Number(d) => JsonNumber.IntWritten(d.Floor);
    case Str(s) => CharsPrinted(s);
    case Array(items) => ArrayPrinted(items, depth, fmt);
    case Object(members) => ObjectPrinted(members, depth, fmt);
  }

  lemma {:induction false} ArrayPrinted(items: seq<Json>, depth: nat, fmt: bool)
    requires forall i :: 0 <= i < |items| ==> Good(items[i])
    ensures var d, v := DocOf(Array(items), depth, fmt), Array(items);
            GoodDoc(d) && DocText(d) == Text(v, depth, fmt) && Meaning(d) == v
    decreases items, 1
  {
    hide Good, ItemsText, GoodItems, ItemValues, ArrayTail, Blank;
    var d := ItemsOf(items, depth, fmt, []);
    NothingBlank();
    NothingInside(depth, fmt);
    if items == [] {
      assert d == [];
    } else {
      ItemsPrinted(items, depth, fmt, []);
    }
    assert DocText(DocOf(Array(items), depth, fmt)) == [0x5B] + ItemsText(items, depth, fmt) + [0x5D];
  }

  lemma {:induction false} ObjectPrinted(members: seq<Member>, depth: nat, fmt: bool)
    requires forall i :: 0 <= i < |members| ==> JsonString.NoNul(members[i].name) && Good(members[i].value)
    ensures var d, v := DocOf(Object(members), depth, fmt), Object(members);
            GoodDoc(d) && DocText(d) == Text(v, depth, fmt) && Meaning(d) == v
    decreases members, 1
  {
    hide Good, MembersText, GoodEntries, EntryValues, ObjectTail, Blank, Indent, Tabs;
    var d := EntriesOf(members, depth, fmt);
    NothingBlank();
    IndentIs(depth);
    NothingInside(depth + 1, fmt);
    if members == [] {
      assert d == [];
    } else {
      EntriesPrinted(members, depth, fmt);
    }
    assert DocText(DocOf(Object(members), depth, fmt)) ==
           [0x7B] + When(fmt, [NEWLINE]) + MembersText(members, depth + 1, fmt) + When(fmt, Tabs(depth)) + [0x7D];
  }

  lemma NothingBlank()
    ensures Blank([]) && Blank([0x20]) && Blank([0x09])
  {
  }

  lemma NothingInside(depth: nat, fmt: bool)
    ensures ItemsText([], depth, fmt) == [] && MembersText([], depth, fmt) == []
    ensures GoodItems([]) && GoodEntries([]) && ItemValues([]) == [] && EntryValues([]) == []
  {
  }

  lemma IndentIs(depth: nat)
    ensures Indent(depth) == [NEWLINE] + Tabs(depth)
  {
  }

  lemma {:induction false} ItemsPrinted(items: seq<Json>, depth: nat, fmt: bool, before: seq<u8>)
    requires items != [] && Blank(before) && forall i :: 0 <= i < |items| ==> Good(items[i])
    ensures var d := ItemsOf(items, depth, fmt, before);
            && GoodItems(d) && ItemValues(d) == items
            && ArrayTail(d) == before + ItemsText(items, depth, fmt) + [0x5D]
    decreases items, 0
  {
    hide Good, Text, DocText, Meaning, DocOf, GoodDoc, Blank, ArrayTail;
    var d, w := ItemsOf(items, depth, fmt, before), if fmt then [0x20] else [];
    NothingBlank();
    PrintedAs(items[0], depth + 1, fmt);
    assert d[1..] == ItemsOf(items[1..], depth, fmt, w);
    assert d[0] == Item(before, DocOf(items[0], depth + 1, fmt), []);
    if |items| == 1 {
      NothingInside(depth, fmt);
      assert items == [items[0]];
    } else {
      ItemsPrinted(items[1..], depth, fmt, w);
      assert items == [items[0]] + items[1..];
    }
    TailOf(d);
    var x, more := Text(items[0], depth + 1, fmt), ItemsText(items[1..], depth, fmt);
    CommaSpace(before, x, w, more, fmt);
  }

  lemma TailOf(d: seq<Item>)
    requires GoodItems(d) && d != []
    ensures ArrayTail(d) == d[0].before + DocText(d[0].value) + d[0].after +
                            if |d| == 1 then [0x5D] else [0x2C] + ArrayTail(d[1..])
  {
    hide DocText, GoodDoc;
  }

  lemma CommaSpace(before: seq<u8>, x: seq<u8>, w: seq<u8>, more: seq<u8>, fmt: bool)
    requires w == if fmt then [0x20] else []
    ensures before + x + [] + ([0x2C] + (w + more + [0x5D])) ==
            before + (x + When(true, [COMMA] + When(fmt, [SPACE])) + more) + [0x5D]
    ensures before + x + [] + [0x5D] == before + (x + When(false, [COMMA] + When(fmt, [SPACE])) + []) + [0x5D]
  {
  }

  lemma EntryPrinted(m: Member, depth: nat, fmt: bool, after: seq<u8>)
    requires JsonString.NoNul(m.name) && GoodDoc(DocOf(m.value, depth + 1, fmt)) && Blank(after)
    requires DocText(DocOf(m.value, depth + 1, fmt)) == Text(m.value, depth + 1, fmt)
    requires Meaning(DocOf(m.value, depth + 1, fmt)) == m.value
    ensures var e := EntryOf(m, depth, fmt, after);
            && Blank(e.before) && GoodChars(e.name) && Blank(e.between) && Blank(e.gap) && GoodDoc(e.value)
            && EntryText(e) == When(fmt, [NEWLINE]) + MemberText(m, depth + 1, fmt) + after && EntryValue(e) == m
  {
    hide GoodChars, CharsText, CharsValue, JsonString.Escaped, Text, DocText, Meaning, DocOf, GoodDoc, CharsOf, Tabs,
         Blank, Indent;
    NothingBlank();
    CharsPrinted(m.name);
    IndentIs(depth + 1);
  }

  lemma {:induction false} EntriesPrinted(members: seq<Member>, depth: nat, fmt: bool)
    requires members != []
    requires forall i :: 0 <= i < |members| ==> JsonString.NoNul(members[i].name) && Good(members[i].value)
    ensures var d := EntriesOf(members, depth, fmt);
            && GoodEntries(d) && EntryValues(d) == members
            && ObjectTail(d) == When(fmt, [NEWLINE]) + MembersText(members, depth + 1, fmt) + When(fmt, Tabs(depth))
                                + [0x7D]
    decreases members, 0
  {
    hide Good, Text, MemberText, EntryText, EntryValue, Meaning, DocOf, GoodDoc, Blank, GoodChars, Tabs, Indent,
         ObjectTail;
    var d, after := EntriesOf(members, depth, fmt), if fmt && |members| == 1 then Indent(depth) else [];
    NothingBlank();
    IndentIs(depth);
    PrintedAs(members[0].value, depth + 1, fmt);
    EntryPrinted(members[0], depth, fmt, after);
    assert d[1..] == EntriesOf(members[1..], depth, fmt);
    assert d[0] == EntryOf(members[0], depth, fmt, after);
    if |members| == 1 {
      NothingInside(depth + 1, fmt);
      assert members == [members[0]];
    } else {
      EntriesPrinted(members[1..], depth, fmt);
      assert members == [members[0]] + members[1..];
    }
    ObjectTailOf(d);
    CommaLine(MemberText(members[0], depth + 1, fmt), MembersText(members[1..], depth + 1, fmt), Tabs(depth), fmt);
  }

  lemma ObjectTailOf(d: seq<Entry>)
    requires GoodEntries(d) && d != []
    ensures ObjectTail(d) == EntryText(d[0]) + if |d| == 1 then [0x7D] else [0x2C] + ObjectTail(d[1..])
  {
    hide EntryText, GoodDoc, GoodChars;
  }

  lemma CommaLine(x: seq<u8>, more: seq<u8>, tabs: seq<u8>, fmt: bool)
    ensures var nl := When(fmt, [NEWLINE]);
            && nl + x + [] + ([0x2C] + (nl + more + When(fmt, tabs) + [0x7D])) ==
               nl + (x + When(true, [COMMA]) + nl + more) + When(fmt, tabs) + [0x7D]
            && nl + x + (if fmt then [NEWLINE] + tabs else []) + [0x7D] ==
               nl + (x + When(false, [COMMA]) + nl + []) + When(fmt, tabs) + [0x7D]
  {
  }

  /** The round trip, for every tree of any depth, formatted or not, and every text behind it that could not be
      taken for more of a number. */
  lemma ValueBack(v: Json, depth: nat, fmt: bool, rest: seq<u8>)
    requires Good(v) && !JsonNumber.Continues(rest)
    ensures ValueAt(Text(v, depth, fmt) + rest) == Out(v, rest)
  {
    hide Good, GoodDoc, DocText, Meaning, DocOf, Text, ValueAt, JsonNumber.Continues;
    PrintedAs(v, depth, fmt);
    DocRead(DocOf(v, depth, fmt), rest);
  }

  /** A printed value is the whole of its text. */
  lemma PrintedValueBack(v: Json, depth: nat, fmt: bool)
    requires Good(v)
    ensures ValueAt(Skip(Text(v, depth, fmt))) == Out(v, [])
  {
    hide Text, ValueAt, Good, GoodDoc, DocText, DocOf, Meaning;
    PrintedAs(v, depth, fmt);
    DocFirst(DocOf(v, depth, fmt));
    SkipNothing(Text(v, depth, fmt));
    ValueBack(v, depth, fmt, []);
    assert Text(v, depth, fmt) + [] == Text(v, depth, fmt);
  }
}
