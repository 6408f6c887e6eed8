/** The presized printer (print_value, print_number, print_array and print_object of cJSON.c). */
module JsonPrint {
  import opened Words
  import opened JsonString
  import opened JsonValue

  // ---- print_number ----

  const INT_BUFFER := 21
  const NUMBER_BUFFER := 64

  function TenTo(k: nat): nat {
    if k == 0 then 1 else 10 * TenTo(k - 1)
  }

  lemma {:induction false} DigitsLength(n: nat, k: nat)
    requires k >= 1 && n < TenTo(k)
    ensures |Digits(n)| <= k
  {
    if n >= 10 {
      DigitsLength(n / 10, k - 1);
    }
  }

  lemma SixteenDigits()
    ensures TenTo(16) == 10_000_000_000_000_000
  {
    assert TenTo(2) == 100;
    assert TenTo(4) == 10_000;
    assert TenTo(6) == 1_000_000;
    assert TenTo(8) == 100_000_000;
    assert TenTo(10) == 10_000_000_000;
    assert TenTo(12) == 1_000_000_000_000;
    assert TenTo(14) == 100_000_000_000_000;
  }

  /** print_number, for integers: the text and its NUL fit the buffer of either branch. */
  method PrintNumber(d: real) returns (text: seq<u8>)
    requires ExactInt(d)
    ensures text == IntText(d.Floor)
    ensures |text| + 1 <= if INT_MIN <= d.Floor <= INT_MAX then INT_BUFFER else NUMBER_BUFFER
  {
    var valueInt := d.Floor;
    SixteenDigits();
    DigitsLength(if valueInt < 0 then -valueInt else valueInt, 16);
    text := IntText(valueInt);
  }

  // ---- sizes ----

  /** Room counted for some entries, with `pad` bytes for each besides its text. */
  ghost function Size(entries: seq<seq<u8>>, pad: nat): nat {
    if entries == [] then 0 else Size(entries[..|entries| - 1], pad) + |entries[|entries| - 1]| + pad
  }

  lemma {:induction false} SizePrefix(entries: seq<seq<u8>>, pad: nat, i: nat)
    requires i <= |entries|
    ensures Size(entries[..i], pad) <= Size(entries, pad)
    decreases |entries| - i
  {
    if i < |entries| {
      SizePrefix(entries, pad, i + 1);
      SizeNext(entries, pad, i);
    } else {
      assert entries[..i] == entries;
    }
  }

  lemma SizeNext(entries: seq<seq<u8>>, pad: nat, i: nat)
    requires i < |entries|
    ensures Size(entries[..i + 1], pad) == Size(entries[..i], pad) + |entries[i]| + pad
  {
    assert entries[..i + 1][..i] == entries[..i];
  }

  lemma SizeMore(entries: seq<seq<u8>>, e: seq<u8>, pad: nat)
    ensures Size(entries + [e], pad) == Size(entries, pad) + |e| + pad
  {
    assert (entries + [e])[..|entries|] == entries;
  }

  /** strcpy: the bytes and a NUL behind them. */
  method CopyString(out: array<u8>, at: nat, s: seq<u8>)
    requires at + |s| < out.Length
    modifies out
    ensures out[..at + |s|] == old(out[..at]) + s
  {
    forall i | 0 <= i < |s| {
      out[at + i] := s[i];
    }
    out[at + |s|] := 0;
    assert out[..at] == old(out[..at]);
    assert out[at..at + |s|] == s;
    assert out[..at + |s|] == out[..at] + out[at..at + |s|];
  }

  // ---- print_array ----

  /** What is written so far and what is still to come make the whole text. */
  ghost predicate ArrayDone(items: seq<Json>, depth: nat, fmt: bool, i: nat, done: seq<u8>) {
    i <= |items| && [OPEN_ARRAY] + ItemsText(items, depth, fmt) == done + ItemsText(items[i..], depth, fmt)
  }

  lemma ArrayNext(items: seq<Json>, depth: nat, fmt: bool, i: nat, done: seq<u8>)
    requires i < |items| && ArrayDone(items, depth, fmt, i, done)
    ensures ArrayDone(items, depth, fmt, i + 1,
                      done + Text(items[i], depth + 1, fmt) + When(i != |items| - 1, [COMMA] + When(fmt, [SPACE])))
  {
    hide Text;
    assert items[i..][1..] == items[i + 1..];
  }

  /** print_value, as the text of a value */
  method PrintValue(v: Json, depth: nat, fmt: bool) returns (text: seq<u8>)
    requires Good(v)
    ensures text == Text(v, depth, fmt)
    decreases v
  {
    hide ItemsText, MembersText, IntText, StringText;
    match v
    case Null => text := NULL_TEXT;
    case False => text := FALSE_TEXT;
    case True => text := TRUE_TEXT;
    case Number(d) => text := PrintNumber(d);
    case Str(s) =>
      var out := PrintString(s);
      StringTextLength(s);
      text := out[..out.Length - 1];
    case Array(items) => text := PrintArray(items, depth, fmt);
    case Object(members) => text := PrintObject(members, depth, fmt);
  }

  lemma StringTextLength(s: seq<u8>)
    ensures |StringText(s)| == |Escaped(s)| + 2
  {
  }

  /** First loop of print_array: the texts of the values, and the size asked for. */
  method PrintItems(items: seq<Json>, depth: nat, fmt: bool) returns (entries: seq<seq<u8>>, len: nat)
    requires forall i :: 0 <= i < |items| ==> Good(items[i])
    ensures |entries| == |items| && forall i :: 0 <= i < |items| ==> entries[i] == Text(items[i], depth + 1, fmt)
    ensures len == 5 + Size(entries, if fmt then 3 else 2)
    decreases items, 0
  {
    hide Text, Good;
    entries, len := [], 5;
    var i := 0;
    while i < |items|
      invariant 0 <= i == |entries| <= |items| && len == 5 + Size(entries, if fmt then 3 else 2)
      invariant forall j :: 0 <= j < i ==> entries[j] == Text(items[j], depth + 1, fmt)
    {
      var ret := PrintValue(items[i], depth + 1, fmt);
      len := len + |ret| + 2 + (if fmt then 1 else 0);
      SizeMore(entries, ret, if fmt then 3 else 2);
      entries := entries + [ret];
      i := i + 1;
    }
  }

  /** print_array: the text never exceeds the size computed for it. */
  method PrintArray(items: seq<Json>, depth: nat, fmt: bool) returns (text: seq<u8>)
    requires forall i :: 0 <= i < |items| ==> Good(items[i])
    ensures text == [OPEN_ARRAY] + ItemsText(items, depth, fmt) + [CLOSE_ARRAY]
    decreases items, 1
  {
    hide Text, Good, ItemsText, Size, ArrayDone;
    var pad := if fmt then 3 else 2;
    var entries, len := PrintItems(items, depth, fmt);
    var out := new u8[len](_ => 0);
    out[0] := OPEN_ARRAY;
    var ptr, i := 1, 0;
    assert out[..1] == [OPEN_ARRAY];
    ArrayStart(items, depth, fmt);
    NoSize(entries, pad);
    while i < |items|
      invariant 0 <= i <= |items| && 1 <= ptr <= 1 + Size(entries[..i], pad) && Size(entries[..i], pad) + 5 <= len
      invariant ArrayDone(items, depth, fmt, i, out[..ptr])
    {
      SizeNext(entries, pad, i);
      SizePrefix(entries, pad, i + 1);
      ArrayNext(items, depth, fmt, i, out[..ptr]);
      ghost var done := out[..ptr];
      CopyString(out, ptr, entries[i]);
      ptr := ptr + |entries[i]|;
      if i != |items| - 1 {
        CopyString(out, ptr, [COMMA] + When(fmt, [SPACE]));
        ptr := ptr + 1 + (if fmt then 1 else 0);
      }
      assert out[..ptr] == done + entries[i] + When(i != |items| - 1, [COMMA] + When(fmt, [SPACE]));
      i := i + 1;
    }
    ArrayEnd(items, depth, fmt, out[..ptr]);
    CopyString(out, ptr, [CLOSE_ARRAY]);
    text := out[..ptr + 1];
  }

  lemma ArrayStart(items: seq<Json>, depth: nat, fmt: bool)
    ensures ArrayDone(items, depth, fmt, 0, [OPEN_ARRAY])
  {
    assert items[0..] == items;
  }

  lemma ArrayEnd(items: seq<Json>, depth: nat, fmt: bool, done: seq<u8>)
    requires ArrayDone(items, depth, fmt, |items|, done)
    ensures done == [OPEN_ARRAY] + ItemsText(items, depth, fmt)
  {
    assert items[|items|..] == [];
    assert done + [] == done;
  }

  lemma NoSize(entries: seq<seq<u8>>, pad: nat)
    ensures Size(entries[..0], pad) == 0
  {
  }

  // ---- print_object ----

  ghost predicate ObjectDone(members: seq<Member>, depth: nat, fmt: bool, i: nat, done: seq<u8>) {
    i <= |members| &&
    [OPEN_OBJECT] + When(fmt, [NEWLINE]) + MembersText(members, depth, fmt) ==
    done + MembersText(members[i..], depth, fmt)
  }

  lemma ObjectNext(members: seq<Member>, depth: nat, fmt: bool, i: nat, done: seq<u8>)
    requires i < |members| && ObjectDone(members, depth, fmt, i, done)
    ensures ObjectDone(members, depth, fmt, i + 1,
                       done + MemberText(members[i], depth, fmt) + When(i != |members| - 1, [COMMA]) +
                           When(fmt, [NEWLINE]))
  {
    hide MemberText;
    assert members[i..][1..] == members[i + 1..];
  }

  /** First loop of print_object; `pairs` has name and value of each member one behind the other. */
  method PrintMembers(members: seq<Member>, depth: nat, fmt: bool)
    returns (names: seq<seq<u8>>, entries: seq<seq<u8>>, len: nat, ghost pairs: seq<seq<u8>>)
    requires forall i :: 0 <= i < |members| ==> NoNul(members[i].name) && Good(members[i].value)
    ensures |names| == |entries| == |pairs| == |members|
    ensures forall i :: 0 <= i < |members| ==>
      names[i] == StringText(members[i].name) && entries[i] == Text(members[i].value, depth, fmt) &&
          pairs[i] == names[i] + entries[i]
    ensures len == 7 + (if fmt then depth else 0) + Size(pairs, if fmt then 4 + depth else 2)
    decreases members, 0
  {
    hide Text, Good, StringText, Escaped;
    names, entries, pairs, len := [], [], [], 7 + (if fmt then depth else 0);
    var i := 0;
    while i < |members|
      invariant 0 <= i == |names| == |entries| == |pairs| <= |members|
      invariant len == 7 + (if fmt then depth else 0) + Size(pairs, if fmt then 4 + depth else 2)
      invariant forall j :: 0 <= j < i ==>
        names[j] == StringText(members[j].name) && entries[j] == Text(members[j].value, depth, fmt) &&
            pairs[j] == names[j] + entries[j]
    {
      var out := PrintString(members[i].name);
      StringTextLength(members[i].name);
      var str := out[..out.Length - 1];
      var ret := PrintValue(members[i].value, depth, fmt);
      len := len + |ret| + |str| + 2 + (if fmt then 2 + depth else 0);
      SizeMore(pairs, str + ret, if fmt then 4 + depth else 2);
      names, entries, pairs := names + [str], entries + [ret], pairs + [str + ret];
      i := i + 1;
    }
  }

  method WriteMember(out: array<u8>, at: nat, depth: nat, fmt: bool, name: seq<u8>, entry: seq<u8>,
                     last: bool) returns (end: nat)
    requires at + (if fmt then depth else 0) + |name| + 1 + (if fmt then 1 else 0) + |entry| + 1 +
             (if fmt then 1 else 0) < out.Length
    modifies out
    ensures end == at + (if fmt then depth + 2 else 0) + |name| + 1 + |entry| + (if last then 0 else 1)
    ensures out[..end] == old(out[..at]) + (When(fmt, Tabs(depth)) + name + [COLON] + When(fmt, [TAB]) + entry)
                          + When(!last, [COMMA]) + When(fmt, [NEWLINE])
  {
    hide When, Tabs;
    WhenLength(fmt, Tabs(depth));
    WhenLength(fmt, [TAB]);
    WhenLength(!last, [COMMA]);
    WhenLength(fmt, [NEWLINE]);
    var tabs, colon := When(fmt, Tabs(depth)), [COLON] + When(fmt, [TAB]);
    var tail := When(!last, [COMMA]) + When(fmt, [NEWLINE]);
    ghost var start := out[..at];
    ghost var d1, d2 := start + tabs, start + tabs + name;
    ghost var d3, d4 := d2 + colon, d2 + colon + entry;
    CopyString(out, at, tabs);
    end := at + |tabs|;
    assert out[..end] == d1;
    CopyString(out, end, name);
    end := end + |name|;
    assert out[..end] == d2;
    CopyString(out, end, colon);
    end := end + |colon|;
    assert out[..end] == d3;
    CopyString(out, end, entry);
    end := end + |entry|;
    assert out[..end] == d4;
    CopyString(out, end, tail);
    end := end + |tail|;
    FiveParts(start, tabs, name, When(fmt, [TAB]), entry, When(!last, [COMMA]), When(fmt, [NEWLINE]));
  }

  lemma WhenLength(b: bool, s: seq<u8>)
    ensures |When(b, s)| == if b then |s| else 0
  {
  }

  lemma FiveParts(start: seq<u8>, a: seq<u8>, b: seq<u8>, c: seq<u8>, d: seq<u8>, e: seq<u8>, f: seq<u8>)
    ensures start + a + b + ([COLON] + c) + d + (e + f) == start + (a + b + [COLON] + c + d) + e + f
  {
  }

  /** print_object: the text never exceeds the size computed for it. */
  method PrintObject(members: seq<Member>, outer: nat, fmt: bool) returns (text: seq<u8>)
    requires forall i :: 0 <= i < |members| ==> NoNul(members[i].name) && Good(members[i].value)
    ensures text == [OPEN_OBJECT] + When(fmt, [NEWLINE]) + MembersText(members, outer + 1, fmt) +
            When(fmt, Tabs(outer)) + [CLOSE_OBJECT]
    decreases members, 1
  {
    hide Text, Good, MembersText, Size, ObjectDone, StringText, Tabs;
    var depth := outer + 1;
    var pad := if fmt then 4 + depth else 2;
    var names, entries, len;
    ghost var pairs;
    names, entries, len, pairs := PrintMembers(members, depth, fmt);
    var out := new u8[len](_ => 0);
    CopyString(out, 0, [OPEN_OBJECT] + When(fmt, [NEWLINE]));
    var ptr, i := 1 + (if fmt then 1 else 0), 0;
    assert out[..ptr] == [OPEN_OBJECT] + When(fmt, [NEWLINE]);
    ObjectStart(members, depth, fmt);
    NoSize(pairs, pad);
    while i < |members|
      invariant 0 <= i <= |members| && 1 <= ptr <= 2 + Size(pairs[..i], pad)
      invariant Size(pairs[..i], pad) + 7 + (if fmt then depth else 0) <= len
      invariant ObjectDone(members, depth, fmt, i, out[..ptr])
    {
      SizeNext(pairs, pad, i);
      SizePrefix(pairs, pad, i + 1);
      ObjectNext(members, depth, fmt, i, out[..ptr]);
      ptr := WriteMember(out, ptr, depth, fmt, names[i], entries[i], i == |members| - 1);
      i := i + 1;
    }
    ObjectEnd(members, depth, fmt, out[..ptr]);
    CopyString(out, ptr, When(fmt, Tabs(outer)) + [CLOSE_OBJECT]);
    text := out[..ptr + (if fmt then outer else 0) + 1];
  }

  lemma ObjectStart(members: seq<Member>, depth: nat, fmt: bool)
    ensures ObjectDone(members, depth, fmt, 0, [OPEN_OBJECT] + When(fmt, [NEWLINE]))
  {
    assert members[0..] == members;
  }

  lemma ObjectEnd(members: seq<Member>, depth: nat, fmt: bool, done: seq<u8>)
    requires ObjectDone(members, depth, fmt, |members|, done)
    ensures done == [OPEN_OBJECT] + When(fmt, [NEWLINE]) + MembersText(members, depth, fmt)
  {
    assert members[|members|..] == [];
    assert done + [] == done;
  }
}
