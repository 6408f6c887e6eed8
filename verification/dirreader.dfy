/** An independent reader of directories, after sections 6 and 7 of the FAT specification, and the
    proof that it gets back every child that the directory code serialises. */
module DirReader {
  import opened Words
  import opened Layout
  import opened Entries
  import opened DirStream
  import opened DirSector

  /** What an entry of 32 bytes says, with the long name in front of it. */
  datatype Record = Record(name: Name, short: seq<u8>, attr: u8, time: u16, date: u16, cluster: u32, size: u32)

  predicate IsDir(r: Record) { r.attr / 0x10 % 2 == 1 }

  /** Long entries seen so far: the ordinal expected next (0: none left), their checksum, the units. */
  datatype Run = NoRun | Run(next: nat, sum: u8, units: seq<u16>)

  function UnitPos(j: nat): nat {
    if j < 5 then 1 + 2 * j else if j < 11 then 14 + 2 * (j - 5) else 28 + 2 * (j - 11)
  }

  function EntryUnits(e: seq<u8>): (u: seq<u16>)
    requires |e| == 32
  {
    seq<u16>(13, j requires 0 <= j < 13 => Word16(e[UnitPos(j)..UnitPos(j) + 2]))
  }

  /** A name ends at its first NUL, or where its entries end. */
  function CutName(units: seq<u16>): Name {
    if units == [] || units[0] == 0 then [] else [units[0]] + CutName(units[1..])
  }

  /** Behind the NUL there is padding. */
  predicate WellPadded(units: seq<u16>) {
    forall i :: |CutName(units)| < i < |units| ==> units[i] == 0xFFFF
  }

  /** The checksum of a short name: rotate right, add the next byte. */
  function ShortSum(short: seq<u8>, i: nat, sum: u8): u8
    requires i <= |short|
    decreases |short| - i
  {
    if i == |short| then sum else ShortSum(short, i + 1, (sum % 2 * 0x80 + sum / 2 + short[i]) % 0x100)
  }

  function TakeLong(run: Run, e: seq<u8>): Run
    requires |e| == 32
  {
    if e[12] != 0 || e[26] != 0 || e[27] != 0 then NoRun
    else if e[0] >= 0x40 then
      if 1 <= e[0] - 0x40 <= 20 then Run(e[0] - 0x40 - 1, e[13], EntryUnits(e)) else NoRun
    else if run.Run? && run.next == e[0] && run.next >= 1 && run.sum == e[13] then
      Run(run.next - 1, run.sum, EntryUnits(e) + run.units)
    else NoRun
  }

  function ShortUnits(short: seq<u8>): Name {
    seq<u16>(|short|, i requires 0 <= i < |short| => short[i])
  }

  function TakeShort(run: Run, e: seq<u8>): Record
    requires |e| == 32
  {
    var named := run.Run? && run.next == 0 && run.sum == ShortSum(e[..11], 0, 0) && WellPadded(run.units);
    Record(if named then CutName(run.units) else ShortUnits(e[..11]), e[..11], e[11], Word16(e[22..24]),
           Word16(e[24..26]), (Word16(e[20..22]) as int) * 0x1_0000 + (Word16(e[26..28]) as int), Word32(e[28..32]))
  }

  /** The records of a directory given its bytes. */
  function ParseDir(b: seq<u8>, run: Run): seq<Record>
    decreases |b|
  {
    if |b| < 32 || b[0] == 0x00 then []
    else
      var e, rest := b[..32], b[32..];
      if e[0] == 0xE5 then ParseDir(rest, NoRun)
      else if e[11] == 0x0F then ParseDir(rest, TakeLong(run, e))
      else if e[0] == 0x2E then ParseDir(rest, NoRun)
      else [TakeShort(run, e)] + ParseDir(rest, NoRun)
  }

  /** The short name of a dot entry. */
  function DotName(second: u8): seq<u8> {
    [0x2E, second, 0x20, 0x20, 0x20, 0x20, 0x20, 0x20, 0x20, 0x20, 0x20]
  }

  /** A directory other than the root starts with two entries that lead to itself and to the one above it. */
  predicate DotsLead(b: seq<u8>, own: Record, above: u32) {
    && |b| >= 64
    && TakeShort(NoRun, b[..32]) ==
       Record(ShortUnits(DotName(0x20)), DotName(0x20), 0x10, own.time, own.date, own.cluster, 0)
    && TakeShort(NoRun, b[32..64]) ==
       Record(ShortUnits(DotName(0x2E)), DotName(0x2E), 0x10, own.time, own.date, above, 0)
  }

  // ---- one entry read back ----

  lemma {:induction false} UnitBytesAt(units: seq<u16>, i: nat)
    requires i < |units|
    ensures UnitBytes(units)[2 * i..2 * i + 2] == Bytes16(units[i])
  {
    if i > 0 {
      UnitBytesAt(units[1..], i - 1);
      assert UnitBytes(units)[2 * i..2 * i + 2] == UnitBytes(units[1..])[2 * (i - 1)..2 * (i - 1) + 2];
    }
  }

  lemma PartAt(x: seq<u8>, y: seq<u8>, z: seq<u8>, k: nat)
    requires k + 2 <= |y|
    ensures (x + y + z)[|x| + k..|x| + k + 2] == y[k..k + 2]
  {
  }

  lemma LongEntryUnit(ord: u8, units: seq<u16>, sum: u8, j: nat)
    requires |units| == LONG_NAME_CHARS && j < LONG_NAME_CHARS
    ensures LongEntry(ord, units, sum)[UnitPos(j)..UnitPos(j) + 2] == Bytes16(units[j])
  {
    hide UnitBytes, Bytes16;
    var a, b, c := UnitBytes(units[..5]), UnitBytes(units[5..11]), UnitBytes(units[11..]);
    var mid := [ATTR_LONG_NAME, 0x00, sum];
    if j < 5 {
      UnitBytesAt(units[..5], j);
      PartAt([ord], a, mid + b + [0x00, 0x00] + c, 2 * j);
      assert LongEntry(ord, units, sum) == [ord] + a + (mid + b + [0x00, 0x00] + c);
    } else if j < 11 {
      UnitBytesAt(units[5..11], j - 5);
      PartAt([ord] + a + mid, b, [0x00, 0x00] + c, 2 * (j - 5));
      assert LongEntry(ord, units, sum) == ([ord] + a + mid) + b + ([0x00, 0x00] + c);
    } else {
      UnitBytesAt(units[11..], j - 11);
      PartAt([ord] + a + mid + b + [0x00, 0x00], c, [], 2 * (j - 11));
      assert LongEntry(ord, units, sum) == ([ord] + a + mid + b + [0x00, 0x00]) + c + [];
    }
  }

  lemma LongEntryIs(ord: u8, units: seq<u16>, sum: u8)
    requires |units| == LONG_NAME_CHARS
    ensures LongEntry(ord, units, sum) ==
            (([ord] + UnitBytes(units[..5])) + [ATTR_LONG_NAME, 0x00, sum] + UnitBytes(units[5..11])) + [0x00, 0x00]
            + UnitBytes(units[11..])
  {
  }

  lemma LongEntryMarks(ord: u8, units: seq<u16>, sum: u8)
    requires |units| == LONG_NAME_CHARS
    ensures var e := LongEntry(ord, units, sum);
            e[0] == ord && e[11] == 0x0F && e[12] == 0 && e[13] == sum && e[26] == 0 && e[27] == 0
  {
    var a, b, c := UnitBytes(units[..5]), UnitBytes(units[5..11]), UnitBytes(units[11..]);
    var mid, front := [ATTR_LONG_NAME, 0x00, sum], [ord] + a;
    hide LongEntry;
    var e := LongEntry(ord, units, sum);
    LongEntryIs(ord, units, sum);
    assert |front| == 11 && |front + mid + b| == 26;
    assert e[11] == (front + mid + b)[11] == mid[0];
    assert e[12] == (front + mid + b)[12] == mid[1];
    assert e[13] == (front + mid + b)[13] == mid[2];
  }

  lemma LongEntryRead(ord: u8, units: seq<u16>, sum: u8)
    requires |units| == LONG_NAME_CHARS
    ensures var e := LongEntry(ord, units, sum);
            && e[0] == ord && e[11] == 0x0F && e[12] == 0 && e[13] == sum && e[26] == 0 && e[27] == 0
            && EntryUnits(e) == units
  {
    hide LongEntry;
    LongEntryMarks(ord, units, sum);
    var e := LongEntry(ord, units, sum);
    forall j | 0 <= j < LONG_NAME_CHARS ensures EntryUnits(e)[j] == units[j] {
      LongEntryUnit(ord, units, sum, j);
      Word16OfBytes(units[j]);
    }
    assert EntryUnits(e) == units;
  }

  lemma LastFour(x: seq<u8>, y: seq<u8>)
    requires |x| == 28 && |y| == 4
    ensures (x + y)[28..32] == y
  {
  }

  lemma ShortEntryParts(short: seq<u8>, attr: u8, cluster: u32, time: u16, date: u16, size: u32)
    requires |short| == 11
    ensures var e := ShortEntry(short, attr, cluster, time, date, size);
            && e[..11] == short && e[11] == attr && e[12..20] == [0, 0, 0, 0, 0, 0, 0, 0]
            && e[20..22] == Bytes16(cluster / 0x1_0000) && e[22..24] == Bytes16(time) && e[24..26] == Bytes16(date)
            && e[26..28] == Bytes16(cluster % 0x1_0000) && e[28..32] == Bytes32(size)
  {
    hide Bytes16, Bytes32;
    var e := ShortEntry(short, attr, cluster, time, date, size);
    LastFour(e[..28], Bytes32(size));
    assert e == e[..28] + Bytes32(size);
  }

  lemma ShortEntryRead(short: seq<u8>, attr: u8, cluster: u32, time: u16, date: u16, size: u32)
    requires |short| == 11
    ensures var e := ShortEntry(short, attr, cluster, time, date, size);
            && e[..11] == short && e[0] == short[0] && e[11] == attr && e[12..20] == [0, 0, 0, 0, 0, 0, 0, 0]
            && (Word16(e[20..22]) as int) * 0x1_0000 + (Word16(e[26..28]) as int) == cluster
            && Word16(e[22..24]) == time && Word16(e[24..26]) == date && Word32(e[28..32]) == size
  {
    hide ShortEntry, Bytes16, Bytes32, Word16, Word32;
    ShortEntryParts(short, attr, cluster, time, date, size);
    assert short[0] == ShortEntry(short, attr, cluster, time, date, size)[..11][0];
    Word16OfBytes(time);
    Word16OfBytes(date);
    Word16OfBytes(cluster / 0x1_0000);
    Word16OfBytes(cluster % 0x1_0000);
    Word32OfBytes(size);
  }

  // ---- a name read back ----

  /** The units of chunks ord .. last - 1. */
  function ChunksFrom(name: Name, ord: nat, last: nat): (u: seq<u16>)
    requires ord <= last
    ensures |u| == (last - ord) * LONG_NAME_CHARS
    decreases last - ord
  {
    if ord == last then [] else Chunk(name, ord) + ChunksFrom(name, ord + 1, last)
  }

  lemma {:induction false} ChunksFromUnit(name: Name, ord: nat, last: nat, i: nat)
    requires ord <= last && i < (last - ord) * LONG_NAME_CHARS
    ensures ChunksFrom(name, ord, last)[i] == StoredUnit(name, ord * LONG_NAME_CHARS + i)
    decreases last - ord
  {
    if i < LONG_NAME_CHARS {
      assert ChunksFrom(name, ord, last)[i] == Chunk(name, ord)[i];
    } else {
      ChunksFromUnit(name, ord + 1, last, i - LONG_NAME_CHARS);
    }
  }

  lemma {:induction false} CutNameStops(units: seq<u16>, n: nat)
    requires n <= |units| && (forall i :: 0 <= i < n ==> units[i] != 0) && (n < |units| ==> units[n] == 0)
    ensures CutName(units) == units[..n]
  {
    if n > 0 {
      CutNameStops(units[1..], n - 1);
      assert units[..n] == [units[0]] + units[1..][..n - 1];
    }
  }

  /** Reassembling all the chunks of a name, up to its terminator, gives the name; the rest is padding. */
  lemma NameRead(name: Name)
    requires GoodName(name)
    ensures var units := ChunksFrom(name, 0, LongEntries(|name|)); CutName(units) == name && WellPadded(units)
  {
    var units := ChunksFrom(name, 0, LongEntries(|name|));
    forall i: nat | i < |units| ensures units[i] == StoredUnit(name, i) {
      ChunksFromUnit(name, 0, LongEntries(|name|), i);
    }
    CutNameStops(units, |name|);
  }

  // ---- a directory read back ----

  lemma ParseStep(e: seq<u8>, rest: seq<u8>, run: Run)
    requires |e| == DIR_ENTRY_SIZE && e[0] != 0x00 && e[0] != 0xE5
    ensures e[11] == 0x0F ==> ParseDir(e + rest, run) == ParseDir(rest, TakeLong(run, e))
    ensures e[11] != 0x0F && e[0] == 0x2E ==> ParseDir(e + rest, run) == ParseDir(rest, NoRun)
    ensures e[11] != 0x0F && e[0] != 0x2E ==>
            ParseDir(e + rest, run) == [TakeShort(run, e)] + ParseDir(rest, NoRun)
  {
    var b := e + rest;
    assert b[..DIR_ENTRY_SIZE] == e && b[DIR_ENTRY_SIZE..] == rest;
  }

  ghost function RunAt(m: EntryMetaData, ord: nat, last: nat): Run
    requires ord <= last
  {
    if ord == last then NoRun else Run(ord, m.nameChecksum, ChunksFrom(m.name, ord, last))
  }

  lemma LongTaken(m: EntryMetaData, ord: nat, last: nat)
    requires 1 <= ord <= last <= 20
    ensures var e := LongEntryAt(m, ord, last);
            e[0] != 0x00 && e[0] != 0xE5 && e[11] == 0x0F &&
                TakeLong(RunAt(m, ord, last), e) == RunAt(m, ord - 1, last)
  {
    hide LongEntry, EntryUnits, Chunk;
    LongEntryRead(if ord == last then LAST_LONG_ENTRY + ord else ord, Chunk(m.name, ord - 1), m.nameChecksum);
    assert ord == last ==> ChunksFrom(m.name, ord - 1, last) == Chunk(m.name, ord - 1) + [];
  }

  lemma {:induction false} LongRunRead(m: EntryMetaData, ord: nat, last: nat, rest: seq<u8>)
    requires ord <= last <= 20
    ensures ParseDir(LongRun(m, ord, last) + rest, RunAt(m, ord, last)) == ParseDir(rest, RunAt(m, 0, last))
  {
    hide ParseDir, LongEntryAt, RunAt;
    if ord == 0 {
      assert LongRun(m, ord, last) + rest == rest;
    } else {
      var e := LongEntryAt(m, ord, last);
      var tail := LongRun(m, ord - 1, last) + rest;
      assert LongRun(m, ord, last) + rest == e + tail;
      LongTaken(m, ord, last);
      ParseStep(e, tail, RunAt(m, ord, last));
      LongRunRead(m, ord - 1, last, rest);
    }
  }

  /** What a reader has to find of an entry: read-only, and a directory or not. */
  function RecordFor(m: EntryMetaData, cluster: u32): Record {
    Record(m.name, m.shortName, if m.isDir then 0x11 else 0x01, m.wrtTime, m.wrtDate, cluster,
           if m.isDir then 0 else m.size)
  }

  lemma {:induction false} SumAgrees(short: seq<u8>, i: nat)
    requires i <= |short|
    ensures ShortSum(short, i, Checksum(short[..i])) == Checksum(short)
    decreases |short| - i
  {
    if i == |short| {
      assert short[..i] == short;
    } else {
      assert short[..i + 1][..i] == short[..i];
      SumAgrees(short, i + 1);
    }
  }

  lemma ShortTaken(m: EntryMetaData, cluster: u32)
    requires GoodMeta(m)
    ensures var e := ShortEntryOf(m, cluster);
            && e[0] != 0x00 && e[0] != 0xE5 && e[0] != 0x2E && e[11] != 0x0F
            && TakeShort(RunAt(m, 0, LongEntries(|m.name|)), e) == RecordFor(m, cluster)
  {
    hide ShortEntry, Checksum, Word16, Word32, ShortNameOf, WellPadded, ShortSum;
    ShortEntryRead(m.shortName, if m.isDir then ATTR_READ_ONLY + ATTR_DIRECTORY else ATTR_READ_ONLY, cluster,
                   m.wrtTime, m.wrtDate, if m.isDir then 0 else m.size);
    SumAgrees(m.shortName, 0);
    assert m.shortName[..0] == [];
    EmptySum();
    NameRead(m.name);
  }

  lemma EmptySum()
    ensures Checksum([]) == 0
  {
  }

  /** The bytes of an entry, piece by piece, by sections 6 and 7 of the FAT specification. */
  lemma PieceBytes(m: EntryMetaData, cluster: u32, ord: nat)
    requires GoodMeta(m) && ord <= LongEntries(|m.name|)
    ensures var n := LongEntries(|m.name|); var k := (n - ord) * 32; var e := EntryBytes(m, cluster)[k..k + 32];
            && (ord == 0 ==>
                  && e[..11] == m.shortName && e[11] == (if m.isDir then 0x11 else 0x01)
                  && e[12..20] == [0, 0, 0, 0, 0, 0, 0, 0]
                  && (Word16(e[20..22]) as int) * 0x1_0000 + (Word16(e[26..28]) as int) == cluster
                  && Word16(e[22..24]) == m.wrtTime && Word16(e[24..26]) == m.wrtDate
                  && Word32(e[28..32]) == if m.isDir then 0 else m.size)
            && (ord > 0 ==>
                  && e[0] == (if ord == n then 0x40 + ord else ord) && e[11] == 0x0F && e[12] == 0
                  && e[13] == ShortSum(m.shortName, 0, 0) && e[26] == 0 && e[27] == 0
                  && forall j :: 0 <= j < 13 ==>
                       var i := (ord - 1) * 13 + j;
                       EntryUnits(e)[j] ==
                       if i < |m.name| then m.name[i] else if i == |m.name| then 0 else 0xFFFF)
  {
    hide LongEntry, EntryUnits, Chunk, ShortEntry, Checksum, ShortSum, Word16, Word32, EntryBytes, GoodName,
         ShortNameOf;
    var n := LongEntries(|m.name|);
    EntryPieces(m, cluster, ord);
    AtMostTwenty(m);
    if ord == 0 {
      ShortEntryRead(m.shortName, if m.isDir then ATTR_READ_ONLY + ATTR_DIRECTORY else ATTR_READ_ONLY, cluster,
                     m.wrtTime, m.wrtDate, if m.isDir then 0 else m.size);
    } else {
      LongEntryRead(if ord == n then LAST_LONG_ENTRY + ord else ord, Chunk(m.name, ord - 1), m.nameChecksum);
      SumAgrees(m.shortName, 0);
      assert m.shortName[..0] == [];
      EmptySum();
      ChunkUnits(m.name, ord - 1);
    }
  }

  lemma AtMostTwenty(m: EntryMetaData)
    requires GoodMeta(m)
    ensures LongEntries(|m.name|) <= 20
  {
    hide ShortNameOf, Checksum;
  }

  lemma ChunkUnits(name: Name, k: nat)
    ensures forall j :: 0 <= j < 13 ==>
              var i := k * 13 + j;
              Chunk(name, k)[j] == if i < |name| then name[i] else if i == |name| then 0 else 0xFFFF
  {
  }

  /** The entries of one child parse back to its record, whatever follows. */
  lemma EntryRead(m: EntryMetaData, cluster: u32, rest: seq<u8>)
    requires GoodMeta(m)
    ensures ParseDir(EntryBytes(m, cluster) + rest, NoRun) == [RecordFor(m, cluster)] + ParseDir(rest, NoRun)
  {
    hide ParseDir, LongRun, ShortEntryOf, TakeShort, RecordFor;
    var n := LongEntries(|m.name|);
    var e := ShortEntryOf(m, cluster);
    assert EntryBytes(m, cluster) + rest == LongRun(m, n, n) + (e + rest);
    LongRunRead(m, n, n, e + rest);
    ShortTaken(m, cluster);
    ParseStep(e, rest, RunAt(m, 0, n));
  }

  /** The parts of some children parse back to their records, in order. */
  lemma {:induction false} PartsRead(records: seq<Record>, metas: seq<EntryMetaData>, clusters: seq<u32>,
                                     parts: seq<seq<u8>>, rest: seq<u8>)
    requires |records| == |metas| == |clusters| == |parts|
    requires forall i :: 0 <= i < |metas| ==> GoodMeta(metas[i]) && parts[i] == EntryBytes(metas[i], clusters[i])
    requires forall i :: 0 <= i < |metas| ==> records[i] == RecordFor(metas[i], clusters[i])
    ensures ParseDir(Concat(parts) + rest, NoRun) == records + ParseDir(rest, NoRun)
  {
    hide ParseDir, EntryBytes, GoodMeta, RecordFor;
    if parts == [] {
      assert Concat(parts) + rest == rest;
    } else {
      var tail := Concat(parts[1..]) + rest;
      assert Concat(parts) + rest == EntryBytes(metas[0], clusters[0]) + tail;
      EntryRead(metas[0], clusters[0], tail);
      PartsRead(records[1..], metas[1..], clusters[1..], parts[1..], rest);
    }
  }

  /** The dot entries are no records, and lead to the directory itself and to the one above it. */
  lemma DotsRead(m: EntryMetaData, cluster: u32, parentCluster: u32, rest: seq<u8>)
    ensures ParseDir(DotBytes(m, cluster, parentCluster) + rest, NoRun) == ParseDir(rest, NoRun)
    ensures DotsLead(DotBytes(m, cluster, parentCluster) + rest, RecordFor(m, cluster), parentCluster)
  {
    hide ParseDir, ShortEntry, Word16, Word32;
    var d1 := ShortEntry(DOT, ATTR_DIRECTORY, cluster, m.wrtTime, m.wrtDate, 0);
    var d2 := ShortEntry(DOTDOT, ATTR_DIRECTORY, parentCluster, m.wrtTime, m.wrtDate, 0);
    ShortEntryRead(DOT, ATTR_DIRECTORY, cluster, m.wrtTime, m.wrtDate, 0);
    ShortEntryRead(DOTDOT, ATTR_DIRECTORY, parentCluster, m.wrtTime, m.wrtDate, 0);
    assert d1 + d2 + rest == d1 + (d2 + rest);
    assert (d1 + (d2 + rest))[..32] == d1 && (d1 + (d2 + rest))[32..64] == d2;
    assert DOT == DotName(0x20) && DOTDOT == DotName(0x2E);
    ParseStep(d1, d2 + rest, NoRun);
    ParseStep(d2, rest, NoRun);
  }

  /** A directory stream, padded with any number of zeros, parses back to the records of its children. */
  lemma DirRead(records: seq<Record>, metas: seq<EntryMetaData>, clusters: seq<u32>, parts: seq<seq<u8>>,
                dots: seq<u8>, m: EntryMetaData, cluster: u32, parentCluster: u32, padding: nat)
    requires |records| == |metas| == |clusters| == |parts|
    requires forall i :: 0 <= i < |metas| ==> GoodMeta(metas[i]) && parts[i] == EntryBytes(metas[i], clusters[i])
    requires forall i :: 0 <= i < |metas| ==> records[i] == RecordFor(metas[i], clusters[i])
    requires dots == [] || dots == DotBytes(m, cluster, parentCluster)
    ensures ParseDir(DirBytes(dots, parts) + Zeros(padding), NoRun) == records
    ensures dots != [] ==> DotsLead(DirBytes(dots, parts) + Zeros(padding), RecordFor(m, cluster), parentCluster)
  {
    hide EntryBytes, GoodMeta, RecordFor, DotBytes, DotsLead;
    var tail := Concat(parts) + Zeros(padding);
    assert DirBytes(dots, parts) + Zeros(padding) == dots + tail;
    PartsRead(records, metas, clusters, parts, Zeros(padding));
    if dots == [] {
      assert dots + tail == tail;
    } else {
      DotsRead(m, cluster, parentCluster, tail);
    }
  }

  // ---- a directory cut short ----

  /** Long entries without the short entry behind them are no record. */
  lemma {:induction false} CutLongRun(m: EntryMetaData, ord: nat, last: nat, short: seq<u8>, b: seq<u8>, run: Run)
    requires ord <= last <= 20 && b <= LongRun(m, ord, last) + short && |b| < (ord + 1) * DIR_ENTRY_SIZE
    ensures ParseDir(b, run) == []
  {
    hide LongEntryAt, TakeLong;
    if |b| >= DIR_ENTRY_SIZE {
      var e, rest := LongEntryAt(m, ord, last), b[DIR_ENTRY_SIZE..];
      FrontOf(e, LongRun(m, ord - 1, last) + short, b);
      assert LongRun(m, ord, last) + short == e + (LongRun(m, ord - 1, last) + short);
      LongTaken(m, ord, last);
      ParseStep(e, rest, run);
      CutLongRun(m, ord - 1, last, short, rest, TakeLong(run, e));
    }
  }

  lemma FrontOf(a: seq<u8>, c: seq<u8>, b: seq<u8>)
    requires b <= a + c && |b| >= |a|
    ensures b == a + b[|a|..] && b[|a|..] <= c
  {
    assert b == (a + c)[..|b|];
  }

  lemma CutEntry(m: EntryMetaData, cluster: u32, b: seq<u8>)
    requires GoodMeta(m) && b <= EntryBytes(m, cluster) && |b| < EntrySize(m)
    ensures ParseDir(b, NoRun) == []
  {
    hide ParseDir, LongRun, ShortEntryOf;
    var n := LongEntries(|m.name|);
    CutLongRun(m, n, n, ShortEntryOf(m, cluster), b, NoRun);
  }

  /** A proper prefix of the children's bytes has fewer records than there are children. */
  lemma {:induction false} CutParts(metas: seq<EntryMetaData>, clusters: seq<u32>, parts: seq<seq<u8>>, b: seq<u8>)
    requires |metas| == |clusters| == |parts| && b < Concat(parts)
    requires forall i :: 0 <= i < |metas| ==> GoodMeta(metas[i]) && parts[i] == EntryBytes(metas[i], clusters[i])
    ensures |ParseDir(b, NoRun)| < |parts|
  {
    hide ParseDir, EntryBytes, GoodMeta, RecordFor;
    var e := EntryBytes(metas[0], clusters[0]);
    assert Concat(parts) == e + Concat(parts[1..]);
    if |b| < |e| {
      assert b <= e by { InsideFirst(e, Concat(parts[1..]), b); }
      CutEntry(metas[0], clusters[0], b);
    } else {
      FrontOf(e, Concat(parts[1..]), b);
      EntryRead(metas[0], clusters[0], b[|e|..]);
      CutParts(metas[1..], clusters[1..], parts[1..], b[|e|..]);
    }
  }

  lemma InsideFirst(a: seq<u8>, c: seq<u8>, b: seq<u8>)
    requires b <= a + c && |b| <= |a|
    ensures b <= a
  {
  }

  /** A directory stream that is cut short loses a record at least. */
  lemma DirCut(metas: seq<EntryMetaData>, clusters: seq<u32>, parts: seq<seq<u8>>, dots: seq<u8>, m: EntryMetaData,
               cluster: u32, parentCluster: u32, b: seq<u8>)
    requires |metas| == |clusters| == |parts|
    requires forall i :: 0 <= i < |metas| ==> GoodMeta(metas[i]) && parts[i] == EntryBytes(metas[i], clusters[i])
    requires dots == [] || dots == DotBytes(m, cluster, parentCluster)
    requires b < DirBytes(dots, parts) && |dots| <= |b|
    ensures |ParseDir(b, NoRun)| < |parts|
  {
    hide EntryBytes, GoodMeta, DotBytes, ParseDir;
    var rest := b[|dots|..];
    FrontOf(dots, Concat(parts), b);
    if dots != [] {
      DotsRead(m, cluster, parentCluster, rest);
    }
    CutParts(metas, clusters, parts, rest);
  }
}
