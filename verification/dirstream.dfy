/** On-disk form of a directory (get_entry_size, get_dir_contents and read_dir_sector of dbfat.c). */
module DirStream {
  import opened Words
  import opened Layout
  import opened Entries

  const ATTR_READ_ONLY := 0x01
  const ATTR_DIRECTORY := 0x10
  const ATTR_LONG_NAME := 0x0F
  const LAST_LONG_ENTRY := 0x40

  const MAX_NAME := 255
  /** Longest name for which a window of the directory fits the scratch buffer. */
  const MAX_WINDOW_NAME := 208
  const SCRATCH := 2 * BYTES_PER_SECTOR

  predicate GoodName(name: Name) {
    1 <= |name| <= MAX_NAME && forall i :: 0 <= i < |name| ==> name[i] != 0
  }

  /** First bytes that a directory reader takes as a name, not as a mark. */
  predicate GoodShortName(short: seq<u8>) {
    |short| == 11 && short[0] != 0x00 && short[0] != 0x2E && short[0] != 0xE5
  }

  function LongEntries(chars: nat): nat {
    CeilDiv(chars, LONG_NAME_CHARS)
  }

  /** get_entry_size */
  function EntrySize(m: EntryMetaData): nat {
    (LongEntries(|m.name|) + 1) * DIR_ENTRY_SIZE
  }

  /** The short name checksum of section 7 of the FAT specification. */
  function Checksum(short: seq<u8>): u8 {
    if short == [] then 0 else RotateAdd(Checksum(short[..|short| - 1]), short[|short| - 1])
  }

  function RotateAdd(sum: u8, b: u8): u8 {
    ((if sum % 2 == 1 then 0x80 else 0) + sum / 2 + b) % 0x100
  }

  /** name_checksum */
  method NameChecksum(short: seq<u8>) returns (sum: u8)
    requires |short| == 11
    ensures sum == Checksum(short)
  {
    sum := 0;
    var nameLen := 11;
    while nameLen > 0
      invariant 0 <= nameLen <= 11 && sum == Checksum(short[..11 - nameLen])
    {
      assert short[..12 - nameLen][..11 - nameLen] == short[..11 - nameLen];
      sum := RotateAdd(sum, short[11 - nameLen]);
      nameLen := nameLen - 1;
    }
    assert short[..11] == short;
  }

  // ---- short names ----

  const PATH_DOT := 0x2E
  const PATH_SPACE := 0x20
  const PATH_UNDERSCORE := 0x5F
  const PATH_TILDA := 0x7E

  function ToUpper(c: u8): u8 {
    if 0x61 <= c <= 0x7A then c - 0x20 else c
  }

  /** One unit of a name in a short name. */
  function ShortChar(unit: u16): u8 {
    if unit <= 0x7F then ToUpper(unit) else PATH_UNDERSCORE
  }

  /** At most `room` characters of a name from unit `i` on, up to the next dot and without spaces. */
  function Compact(name: Name, i: nat, room: nat): (b: seq<u8>)
    requires GoodName(name) && i <= |name|
    ensures |b| <= room
    ensures forall k :: 0 <= k < |b| ==> b[k] !in {0x00, PATH_DOT, PATH_SPACE, 0xE5} && !(0x61 <= b[k] <= 0x7A)
    decreases |name| - i
  {
    if room == 0 || i == |name| || name[i] == PATH_DOT then [] else
    if name[i] == PATH_SPACE then Compact(name, i + 1, room) else
    [ShortChar(name[i])] + Compact(name, i + 1, room - 1)
  }

  /** Where the leading dots of a name end. */
  function AfterDots(name: Name, i: nat): (j: nat)
    requires i <= |name|
    ensures i <= j <= |name|
    decreases |name| - i
  {
    if i < |name| && name[i] == PATH_DOT then AfterDots(name, i + 1) else i
  }

  function Spaces(n: nat): (b: seq<u8>)
    ensures |b| == n
  {
    seq<u8>(n, _ => PATH_SPACE)
  }

  /** The first eight bytes of a short name, from the unit behind the leading dots. */
  function BaseOf(name: Name, i: nat): (b: seq<u8>)
    requires GoodName(name) && i <= |name|
    ensures |b| == 8
  {
    var base := Compact(name, i, 6);
    base + [PATH_TILDA, 0x31] + Spaces(6 - |base|)
  }

  /** The short name made from a long one: up to six characters, "~1", spaces. No part of the name ever becomes
      the extension. */
  function ShortNameOf(name: Name): (b: seq<u8>)
    requires GoodName(name)
    ensures GoodShortName(b)
    ensures b[8..] == Spaces(3) && forall k :: 0 <= k < 11 ==> b[k] != PATH_DOT && !(0x61 <= b[k] <= 0x7A)
  {
    BaseOf(name, AfterDots(name, 0)) + Spaces(3)
  }

  // ---- what a short name is ----

  /** What a short name keeps of a unit: an ASCII character in upper case, an underscore for anything else. */
  predicate KeptAs(b: u8, unit: u16) {
    b == if unit > 0x7F then 0x5F else if 0x61 <= unit <= 0x7A then unit - 0x20 else unit
  }

  /** `p` lists the positions from `i` up to `d` that are not spaces, or the first `room` of them. */
  ghost predicate Chosen(name: Name, i: nat, d: nat, room: nat, p: seq<nat>) {
    && d <= |name| && |p| <= room
    && (forall k :: 0 <= k < |p| ==> i <= p[k] < d && name[p[k]] != 0x20)
    && (forall k, l :: 0 <= k < l < |p| ==> p[k] < p[l])
    && (forall x :: i <= x < d && name[x] != 0x20 ==> x in p || (|p| == room && forall k :: 0 <= k < room ==> p[k] < x))
  }

  lemma NoneChosen(name: Name, i: nat, room: nat)
    requires i <= |name|
    ensures Chosen(name, i, i, room, [])
  {
  }

  lemma ChosenSkip(name: Name, i: nat, d: nat, room: nat, p: seq<nat>)
    requires i < |name| && (name[i] == 0x20 || room == 0) && Chosen(name, i + 1, d, room, p)
    ensures Chosen(name, i, d, room, p)
  {
  }

  lemma ChosenTake(name: Name, i: nat, d: nat, room: nat, q: seq<nat>)
    requires i < |name| && i < d && name[i] != 0x20 && room > 0 && Chosen(name, i + 1, d, room - 1, q)
    ensures Chosen(name, i, d, room, [i] + q)
  {
    forall x | i <= x < d && name[x] != 0x20
      ensures x in [i] + q || (|[i] + q| == room && forall k :: 0 <= k < room ==> ([i] + q)[k] < x)
    {
      if x != i && x in q {
        assert x in [i] + q;
      }
    }
  }

  lemma CompactOne(name: Name, i: nat, room: nat)
    requires GoodName(name) && i < |name| && name[i] != 0x2E && name[i] != 0x20 && room > 0
    ensures Compact(name, i, room) == [ShortChar(name[i])] + Compact(name, i + 1, room - 1)
  {
    hide GoodName, ShortChar;
  }

  lemma CompactSkip(name: Name, i: nat, room: nat)
    requires GoodName(name) && i < |name| && name[i] != 0x2E && (name[i] == 0x20 || room == 0)
    ensures Compact(name, i, room) == Compact(name, i + 1, room)
  {
    hide GoodName, ShortChar;
  }

  /** Character by character `b` is what is kept of the units at `p`. */
  ghost predicate AllKept(name: Name, b: seq<u8>, p: seq<nat>) {
    |b| == |p| && forall k :: 0 <= k < |p| ==> p[k] < |name| && KeptAs(b[k], name[p[k]])
  }

  lemma KeptTake(name: Name, b: seq<u8>, p: seq<nat>, c: u8, i: nat)
    requires AllKept(name, b, p) && i < |name| && KeptAs(c, name[i])
    ensures AllKept(name, [c] + b, [i] + p)
  {
    hide KeptAs;
  }

  lemma NoneKept(name: Name)
    ensures AllKept(name, [], [])
  {
  }

  /** Where the next dot is, or the end of the name. */
  lemma {:induction false} NextDot(name: Name, i: nat) returns (d: nat)
    requires i <= |name|
    ensures i <= d <= |name| && (d < |name| ==> name[d] == 0x2E) && forall x :: i <= x < d ==> name[x] != 0x2E
    decreases |name| - i
  {
    if i == |name| || name[i] == 0x2E {
      d := i;
    } else {
      d := NextDot(name, i + 1);
    }
  }

  lemma {:induction false} CompactReads(name: Name, i: nat, d: nat, room: nat) returns (p: seq<nat>)
    requires GoodName(name) && i <= d <= |name| && (d < |name| ==> name[d] == 0x2E)
    requires forall x :: i <= x < d ==> name[x] != 0x2E
    ensures Chosen(name, i, d, room, p) && AllKept(name, Compact(name, i, room), p)
    decreases d - i
  {
    hide KeptAs, GoodName, Chosen, ShortChar, AllKept, Compact;
    if i == d {
      p := [];
      NoneChosen(name, i, room);
      CompactStops(name, i, room);
      NoneKept(name);
    } else if name[i] == 0x20 || room == 0 {
      p := CompactReads(name, i + 1, d, room);
      CompactSkip(name, i, room);
      ChosenSkip(name, i, d, room, p);
    } else {
      var q := CompactReads(name, i + 1, d, room - 1);
      p := [i] + q;
      CompactOne(name, i, room);
      ChosenTake(name, i, d, room, q);
      KeptAsIs(name[i]);
      KeptTake(name, Compact(name, i + 1, room - 1), q, ShortChar(name[i]), i);
    }
  }

  lemma CompactStops(name: Name, i: nat, room: nat)
    requires GoodName(name) && i <= |name| && (i == |name| || name[i] == 0x2E)
    ensures Compact(name, i, room) == []
  {
    hide GoodName;
  }

  lemma KeptAsIs(unit: u16)
    ensures KeptAs(ShortChar(unit), unit)
  {
  }

  lemma {:induction false} DotsEnd(name: Name, i: nat)
    requires i <= |name|
    ensures var j := AfterDots(name, i);
            (forall x :: i <= x < j ==> name[x] == 0x2E) && (j < |name| ==> name[j] != 0x2E)
    decreases |name| - i
  {
    if i < |name| && name[i] == PATH_DOT {
      DotsEnd(name, i + 1);
    }
  }

  /** A short name holds, behind the leading dots and up to the next one, the first six units that are not spaces, each
      as one character; then come "~1" and spaces. */
  lemma ShortNameReads(name: Name) returns (j: nat, d: nat, p: seq<nat>)
    requires GoodName(name)
    ensures j <= d <= |name| && (forall x :: 0 <= x < j ==> name[x] == 0x2E) && (j < |name| ==> name[j] != 0x2E)
    ensures (forall x :: j <= x < d ==> name[x] != 0x2E) && (d < |name| ==> name[d] == 0x2E)
    ensures Chosen(name, j, d, 6, p)
    ensures var b := ShortNameOf(name);
            && AllKept(name, b[..|p|], p)
            && b[|p|] == 0x7E && b[|p| + 1] == 0x31 && forall k :: |p| + 2 <= k < 11 ==> b[k] == 0x20
  {
    hide KeptAs, Chosen, GoodName, Compact;
    j := AfterDots(name, 0);
    DotsEnd(name, 0);
    d := NextDot(name, j);
    p := CompactReads(name, j, d, 6);
    assert ShortNameOf(name)[..|p|] == Compact(name, j, 6);
  }

  /** The metadata of an entry below the root: its short name is the one made from its name. */
  predicate GoodMeta(m: EntryMetaData) {
    && GoodName(m.name) && m.shortName == ShortNameOf(m.name)
    && m.nameChecksum == Checksum(m.shortName)
  }

  /** _short_name_helper: copies up to the next dot, without spaces, as upper-case ASCII. */
  method ShortNameHelper(name: Name, short: array<u8>, shortIndex: nat, longIndex: nat, maxShort: nat)
    returns (si: nat, li: nat)
    requires GoodName(name) && longIndex <= |name| && shortIndex <= maxShort <= short.Length
    modifies short
    ensures var b := Compact(name, longIndex, maxShort - shortIndex);
            si == shortIndex + |b| && short[..] == Overwrite(old(short[..]), shortIndex, b)
    ensures longIndex < |name| && name[longIndex] == PATH_DOT ==> li == longIndex
  {
    hide GoodName, Overwrite, ShortChar;
    ghost var was := short[..];
    ghost var done: seq<u8> := [];
    si, li := shortIndex, longIndex;
    OverwriteNothing(was, shortIndex, done);
    assert done[..0] == done;
    while si < maxShort && li < |name|
      invariant si == shortIndex + |done| && si <= maxShort && longIndex <= li <= |name|
      invariant longIndex < |name| && name[longIndex] == PATH_DOT ==> li == longIndex
      invariant done + Compact(name, li, maxShort - si) == Compact(name, longIndex, maxShort - shortIndex)
      invariant short[..] == Overwrite(was, shortIndex, done)
      decreases |name| - li
    {
      if name[li] == PATH_DOT {
        break;
      }
      if name[li] == PATH_SPACE {
        li := li + 1;
        continue;
      }
      OverwriteOne(was, shortIndex, done, ShortChar(name[li]));
      assert done + Compact(name, li, maxShort - si) ==
             done + [ShortChar(name[li])] + Compact(name, li + 1, maxShort - si - 1);
      short[si] := ShortChar(name[li]);
      done := done + [ShortChar(name[li])];
      si := si + 1;
      li := li + 1;
    }
    assert done + Compact(name, li, maxShort - si) == done;
  }

  /** Fills a buffer with spaces from `at` up to `end`. */
  method PadTo(buf: array<u8>, at: nat, end: nat)
    requires at <= end <= buf.Length
    modifies buf
    ensures buf[..] == Overwrite(old(buf[..]), at, Spaces(end - at))
  {
    hide Overwrite;
    ghost var was := buf[..];
    var i := at;
    OverwriteNothing(was, at, Spaces(0));
    assert Spaces(0)[..0] == Spaces(0);
    while i < end
      invariant at <= i <= end && buf[..] == Overwrite(was, at, Spaces(i - at))
    {
      OverwriteOne(was, at, Spaces(i - at), PATH_SPACE);
      assert Spaces(i - at) + [PATH_SPACE] == Spaces(i + 1 - at);
      buf[i] := PATH_SPACE;
      i := i + 1;
    }
  }

  /** The unit at `i` as C reads it; the unit behind the name is whatever is there. */
  function UnitAt(name: Name, i: nat, overread: u16): u16 {
    if i < |name| then name[i] else overread
  }

  lemma EightWritten(was: seq<u8>, base: seq<u8>)
    requires |was| == 11 && |base| <= 6
    ensures var s1 := Overwrite(was, 0, base)[|base| := PATH_TILDA][|base| + 1 := 0x31];
            Overwrite(s1, |base| + 2, Spaces(6 - |base|))[..8] == base + [PATH_TILDA, 0x31] + Spaces(6 - |base|)
  {
  }

  /** set_short_name, the part in front of the extension. */
  method FillBase(name: Name, buf: array<u8>, longIndexStart: nat)
    requires GoodName(name) && longIndexStart <= |name| && buf.Length == 11
    modifies buf
    ensures buf[..8] == BaseOf(name, longIndexStart)
  {
    hide GoodName, Compact, Overwrite;
    ghost var was, base := buf[..], Compact(name, longIndexStart, 6);
    var shortIndex, longIndex := ShortNameHelper(name, buf, 0, longIndexStart, 6);
    buf[shortIndex] := PATH_TILDA;
    shortIndex := shortIndex + 1;
    buf[shortIndex] := 0x31;
    shortIndex := shortIndex + 1;
    EightWritten(was, base);
    PadTo(buf, shortIndex, 8);
  }

  lemma FrontStays(was: seq<u8>, at: nat, bytes: seq<u8>)
    requires 8 <= at && at + |bytes| <= |was|
    ensures Overwrite(was, at, bytes)[..8] == was[..8]
    ensures at == 8 && |was| == 11 && |bytes| == 3 ==> Overwrite(was, at, bytes) == was[..8] + bytes
    ensures bytes == [] ==> Overwrite(was, at, bytes) == was
  {
  }

  /** set_short_name. The unit is read before the index is compared with the length, so one behind a name of dots
      alone is read; the extension copy starts at its own dot, so it stops at once and stays blank. */
  method SetShortName(name: Name, overread: u16) returns (short: seq<u8>)
    requires GoodName(name)
    ensures short == ShortNameOf(name)
  {
    hide GoodName, BaseOf, Compact, Overwrite;
    var buf := new u8[11](_ => 0);
    var longIndex := 0;
    while UnitAt(name, longIndex, overread) == PATH_DOT && longIndex < |name|
      invariant longIndex <= |name| && AfterDots(name, longIndex) == AfterDots(name, 0)
    {
      longIndex := longIndex + 1;
    }
    var longIndexStart := longIndex;
    FillBase(name, buf, longIndexStart);
    var shortIndex := 8;
    ghost var front := BaseOf(name, longIndexStart);
    longIndex := |name|;
    while longIndex > longIndexStart
      invariant longIndexStart <= longIndex <= |name| && shortIndex == 8 && buf[..8] == front
    {
      longIndex := longIndex - 1;
      if name[longIndex] == PATH_DOT {
        CompactStops(name, longIndex, 3);
        FrontStays(buf[..], 8, []);
        shortIndex, longIndex := ShortNameHelper(name, buf, shortIndex, longIndex, 11);
        break;
      }
    }
    FrontStays(buf[..], 8, Spaces(3));
    PadTo(buf, shortIndex, 11);
    short := buf[..];
  }

  /** Unit `i` of a name as stored: one NUL ends it, 0xFFFF pads its last entry. */
  function StoredUnit(name: Name, i: nat): u16 {
    if i < |name| then name[i] else if i == |name| then 0x0000 else 0xFFFF
  }

  function Chunk(name: Name, k: nat): (c: seq<u16>)
    ensures |c| == LONG_NAME_CHARS
  {
    seq<u16>(LONG_NAME_CHARS, j requires 0 <= j => StoredUnit(name, k * LONG_NAME_CHARS + j))
  }

  function UnitBytes(units: seq<u16>): (b: seq<u8>)
    ensures |b| == 2 * |units|
  {
    if units == [] then [] else Bytes16(units[0]) + UnitBytes(units[1..])
  }

  function LongEntry(ord: u8, units: seq<u16>, sum: u8): (b: seq<u8>)
    requires |units| == LONG_NAME_CHARS
    ensures |b| == DIR_ENTRY_SIZE
  {
    [ord] + UnitBytes(units[..5]) + [ATTR_LONG_NAME, 0x00, sum] + UnitBytes(units[5..11]) + [0x00, 0x00] +
        UnitBytes(units[11..])
  }

  function ShortEntry(short: seq<u8>, attr: u8, cluster: u32, time: u16, date: u16, size: u32): (b: seq<u8>)
    requires |short| == 11
    ensures |b| == DIR_ENTRY_SIZE
  {
    short + [attr, 0, 0, 0, 0, 0, 0, 0, 0] + Bytes16(cluster / 0x1_0000) + Bytes16(time) + Bytes16(date)
    + Bytes16(cluster % 0x1_0000) + Bytes32(size)
  }

  /** The long entries `ord`, ..., 1 of a name; only entry `last` carries the end mark. */
  function LongRun(m: EntryMetaData, ord: nat, last: nat): (b: seq<u8>)
    requires ord <= last <= 20
    ensures |b| == ord * DIR_ENTRY_SIZE
  {
    if ord == 0 then [] else
    LongEntryAt(m, ord, last) + LongRun(m, ord - 1, last)
  }

  function ShortEntryOf(m: EntryMetaData, cluster: u32): (b: seq<u8>)
    requires |m.shortName| == 11
    ensures |b| == DIR_ENTRY_SIZE
  {
    ShortEntry(m.shortName, if m.isDir then ATTR_READ_ONLY + ATTR_DIRECTORY else ATTR_READ_ONLY, cluster,
               m.wrtTime, m.wrtDate, if m.isDir then 0 else m.size)
  }

  /** All the bytes an entry puts in its parent directory. */
  function EntryBytes(m: EntryMetaData, cluster: u32): (b: seq<u8>)
    requires GoodMeta(m)
    ensures |b| == EntrySize(m)
  {
    var n := LongEntries(|m.name|);
    LongRun(m, n, n) + ShortEntryOf(m, cluster)
  }

  // ---- get_dir_contents ----

  /** memcpy into a byte buffer; `at + |bytes|` must stay inside it. */
  method CopyInto(buf: array<u8>, at: nat, bytes: seq<u8>)
    requires at + |bytes| <= buf.Length
    modifies buf
    ensures buf[..] == Overwrite(old(buf[..]), at, bytes)
  {
    forall i | 0 <= i < |bytes| {
      buf[at + i] := bytes[i];
    }
  }

  function Overwrite(s: seq<u8>, at: nat, bytes: seq<u8>): (r: seq<u8>)
    requires at + |bytes| <= |s|
    ensures |r| == |s|
  {
    s[..at] + bytes + s[at + |bytes|..]
  }

  lemma OverwriteNothing(s: seq<u8>, at: nat, full: seq<u8>)
    requires at <= |s|
    ensures Overwrite(s, at, full[..0]) == s
  {
  }

  lemma OverwriteOne(s: seq<u8>, at: nat, bytes: seq<u8>, b: u8)
    requires at + |bytes| < |s|
    ensures Overwrite(s, at, bytes)[at + |bytes| := b] == Overwrite(s, at, bytes + [b])
  {
  }

  lemma OverwriteNext(s: seq<u8>, at: nat, full: seq<u8>, k: nat, n: nat)
    requires at + k + n <= |s| && k + n <= |full|
    ensures Overwrite(Overwrite(s, at, full[..k]), at + k, full[k..k + n]) == Overwrite(s, at, full[..k + n])
  {
  }

  function LongEntryAt(m: EntryMetaData, ord: nat, last: nat): (b: seq<u8>)
    requires 1 <= ord <= last <= 20
    ensures |b| == DIR_ENTRY_SIZE
  {
    LongEntry(if ord == last then LAST_LONG_ENTRY + ord else ord, Chunk(m.name, ord - 1), m.nameChecksum)
  }

  lemma BehindFirst(first: seq<u8>, rest: seq<u8>, k: nat)
    requires |first| == DIR_ENTRY_SIZE <= k <= |rest|
    ensures (first + rest)[k..k + DIR_ENTRY_SIZE] == rest[k - DIR_ENTRY_SIZE..k]
  {
  }

  lemma InFront(a: seq<u8>, b: seq<u8>, i: nat, j: nat)
    requires i <= j <= |a|
    ensures (a + b)[i..j] == a[i..j] && a[0..|a|] == a
  {
  }

  lemma Behind(a: seq<u8>, b: seq<u8>)
    ensures (a + b)[|a|..|a| + |b|] == b
  {
  }

  lemma {:induction false} LongRunPiece(m: EntryMetaData, from: nat, ord: nat, last: nat)
    requires 1 <= ord <= from <= last <= 20
    ensures var k := (from - ord) * DIR_ENTRY_SIZE;
            LongRun(m, from, last)[k..k + DIR_ENTRY_SIZE] == LongEntryAt(m, ord, last)
  {
    hide LongEntryAt;
    if ord < from {
      LongRunPiece(m, from - 1, ord, last);
      var k := (from - ord) * DIR_ENTRY_SIZE;
      BehindFirst(LongEntryAt(m, from, last), LongRun(m, from - 1, last), k);
    } else {
      InFront(LongEntryAt(m, from, last), LongRun(m, from - 1, last), 0, DIR_ENTRY_SIZE);
    }
  }

  /** The 32-byte pieces of an entry: its long entries from the last ordinal down, then the short one. */
  lemma EntryPieces(m: EntryMetaData, cluster: u32, ord: nat)
    requires GoodMeta(m) && ord <= LongEntries(|m.name|)
    ensures var n := LongEntries(|m.name|); var k := (n - ord) * DIR_ENTRY_SIZE;
            EntryBytes(m, cluster)[k..k + DIR_ENTRY_SIZE] ==
            if ord == 0 then ShortEntryOf(m, cluster) else LongEntryAt(m, ord, n)
  {
    hide LongEntryAt, LongRun, ShortEntryOf;
    var n := LongEntries(|m.name|);
    var k := (n - ord) * DIR_ENTRY_SIZE;
    if ord > 0 {
      LongRunPiece(m, n, ord, n);
      InFront(LongRun(m, n, n), ShortEntryOf(m, cluster), k, k + DIR_ENTRY_SIZE);
    } else {
      Behind(LongRun(m, n, n), ShortEntryOf(m, cluster));
    }
  }

  /** The last chunk of a name, with its terminator and padding. */
  method LastUnits(name: Name, longEntries: nat, nameOffset: int) returns (wll: array<u16>)
    requires GoodName(name) && longEntries == LongEntries(|name|)
    requires nameOffset == (longEntries - 1) * LONG_NAME_CHARS
    ensures fresh(wll) && wll.Length == LONG_NAME_CHARS
    ensures wll[..] == Chunk(name, longEntries - 1)
  {
    wll := new u16[LONG_NAME_CHARS](_ => 0xFFFF);
    var i := nameOffset;
    while i < |name|
      invariant nameOffset <= i <= |name|
      invariant forall j :: 0 <= j < LONG_NAME_CHARS ==>
        wll[j] == if nameOffset + j < i then name[nameOffset + j] else 0xFFFF
    {
      wll[i - nameOffset] := name[i];
      i := i + 1;
    }
    if |name| - nameOffset < LONG_NAME_CHARS {
      wll[|name| - nameOffset] := 0x0000;
    }
    forall j | 0 <= j < LONG_NAME_CHARS ensures wll[j] == Chunk(name, longEntries - 1)[j] {
      assert Chunk(name, longEntries - 1)[j] == StoredUnit(name, nameOffset + j);
    }
  }

  lemma InnerChunk(name: Name, k: nat)
    requires (k + 1) * LONG_NAME_CHARS <= |name|
    ensures Chunk(name, k) == name[k * LONG_NAME_CHARS..k * LONG_NAME_CHARS + LONG_NAME_CHARS]
  {
    forall j | 0 <= j < LONG_NAME_CHARS ensures Chunk(name, k)[j] == name[k * LONG_NAME_CHARS + j] {
      assert Chunk(name, k)[j] == StoredUnit(name, k * LONG_NAME_CHARS + j);
    }
  }

  /** Steps the name offset, a uint8_t, back by one entry and fetches 13 units from there. After the last
      entry the offset has wrapped to 243; `overread` is whatever memory holds beyond the name. */
  method FetchUnits(wll: array<u16>, name: Name, nameOffset: u8, overread: seq<u16>, ghost ord: nat) returns (off: u8)
    requires wll.Length == |overread| == LONG_NAME_CHARS
    requires 1 <= ord <= LongEntries(|name|) && nameOffset == (ord - 1) * LONG_NAME_CHARS
    modifies wll
    ensures ord > 1 ==> off == (ord - 2) * LONG_NAME_CHARS && wll[..] == Chunk(name, ord - 2)
  {
    off := (nameOffset - LONG_NAME_CHARS) % 0x100;
    forall j | 0 <= j < LONG_NAME_CHARS {
      wll[j] := if off + j < |name| then name[off + j] else overread[j];
    }
    if ord > 1 {
      InnerChunk(name, ord - 2);
    }
  }

  /** Appends the next piece of `full` to what `buf` already holds of it. */
  method Emit(buf: array<u8>, at: nat, bytes: seq<u8>, ghost buf0: seq<u8>, ghost full: seq<u8>, k: nat)
    requires k + |bytes| <= |full| && at + k + |bytes| <= buf.Length == |buf0|
    requires bytes == full[k..k + |bytes|]
    requires buf[..] == Overwrite(buf0, at, full[..k])
    modifies buf
    ensures buf[..] == Overwrite(buf0, at, full[..k + |bytes|])
  {
    OverwriteNext(buf0, at, full, k, |bytes|);
    CopyInto(buf, at + k, bytes);
  }

  lemma NameFacts(m: EntryMetaData)
    requires GoodMeta(m)
    ensures GoodName(m.name) && |m.shortName| == 11 && 1 <= LongEntries(|m.name|) <= 20
  {
  }

  /** get_dir_contents: the bytes of one child at `buf[at..]`. */
  method GetDirContents(m: EntryMetaData, cluster: u32, buf: array<u8>, at: nat, overread: seq<u16>)
    returns (size: u32)
    requires GoodMeta(m) && |overread| == LONG_NAME_CHARS
    requires at + EntrySize(m) <= buf.Length
    modifies buf
    ensures size == EntrySize(m)
    ensures buf[..] == Overwrite(old(buf[..]), at, EntryBytes(m, cluster))
  {
    hide LongEntry, LongRun, ShortEntryOf, GoodMeta, Checksum, Overwrite, GoodName;
    NameFacts(m);
    ghost var buf0, full := buf[..], EntryBytes(m, cluster);
    var longEntries: nat := LongEntries(|m.name|);
    var nameOffset := (longEntries - 1) * LONG_NAME_CHARS;
    var wll := LastUnits(m.name, longEntries, nameOffset);
    var mask := LAST_LONG_ENTRY;
    var bufOffset := 0;
    var ord := longEntries;
    OverwriteNothing(buf0, at, full);
    while ord > 0
      invariant 0 <= ord <= longEntries && bufOffset == (longEntries - ord) * DIR_ENTRY_SIZE
      invariant ord > 0 ==> nameOffset == (ord - 1) * LONG_NAME_CHARS && wll[..] == Chunk(m.name, ord - 1)
      invariant mask == if ord == longEntries then LAST_LONG_ENTRY else 0
      invariant buf[..] == Overwrite(buf0, at, full[..bufOffset])
    {
      var longEntry := LongEntry(mask + ord, wll[..], m.nameChecksum);
      mask := 0x00;
      EntryPieces(m, cluster, ord);
      Emit(buf, at, longEntry, buf0, full, bufOffset);
      bufOffset := bufOffset + DIR_ENTRY_SIZE;
      nameOffset := FetchUnits(wll, m.name, nameOffset, overread, ord);
      ord := ord - 1;
    }
    EntryPieces(m, cluster, 0);
    Emit(buf, at, ShortEntryOf(m, cluster), buf0, full, bufOffset);
    bufOffset := bufOffset + DIR_ENTRY_SIZE;
    assert full[..bufOffset] == full;
    size := bufOffset;
  }
}
