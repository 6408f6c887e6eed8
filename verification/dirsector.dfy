/** One sector of a directory, computed from the in-memory children (read_dir_sector of dbfat.c). */
module DirSector {
  import opened Words
  import opened Layout
  import opened Entries
  import opened DirStream

  const DOT: seq<u8> := [0x2E, 0x20, 0x20, 0x20, 0x20, 0x20, 0x20, 0x20, 0x20, 0x20, 0x20]
  const DOTDOT: seq<u8> := [0x2E, 0x2E, 0x20, 0x20, 0x20, 0x20, 0x20, 0x20, 0x20, 0x20, 0x20]

  ghost function Concat(parts: seq<seq<u8>>): seq<u8> {
    if parts == [] then [] else parts[0] + Concat(parts[1..])
  }

  /** Dot entries of a directory other than the root. */
  function DotBytes(m: EntryMetaData, cluster: u32, parentCluster: u32): (b: seq<u8>)
    ensures |b| == 2 * DIR_ENTRY_SIZE
  {
    ShortEntry(DOT, ATTR_DIRECTORY, cluster, m.wrtTime, m.wrtDate, 0)
    + ShortEntry(DOTDOT, ATTR_DIRECTORY, parentCluster, m.wrtTime, m.wrtDate, 0)
  }

  /** The simple form of a directory: its dot entries (none in the root), then every child serialised. */
  ghost function DirBytes(dots: seq<u8>, parts: seq<seq<u8>>): seq<u8> {
    dots + Concat(parts)
  }

  /** Bytes [off, off + 512) of a stream followed by zeros for ever. */
  ghost function Window(s: seq<u8>, off: nat): (w: seq<u8>)
    ensures |w| == BYTES_PER_SECTOR
  {
    seq<u8>(BYTES_PER_SECTOR, i requires 0 <= i => if off + i < |s| then s[off + i] else 0)
  }

  lemma {:induction false} ConcatSplit(parts: seq<seq<u8>>, i: nat)
    requires i <= |parts|
    ensures Concat(parts) == Concat(parts[..i]) + Concat(parts[i..])
  {
    if i > 0 {
      ConcatSplit(parts[1..], i - 1);
      assert parts[..i][1..] == parts[1..][..i - 1] && parts[i..] == parts[1..][i - 1..];
    } else {
      assert parts[0..] == parts;
    }
  }

  lemma ConcatPiece(parts: seq<seq<u8>>, i: nat)
    requires i < |parts|
    ensures Concat(parts[..i + 1]) == Concat(parts[..i]) + parts[i]
    ensures Concat(parts) == Concat(parts[..i]) + parts[i] + Concat(parts[i + 1..])
  {
    ConcatSplit(parts[..i + 1], i);
    assert parts[..i + 1][..i] == parts[..i] && parts[..i + 1][i..] == [parts[i]];
    assert Concat([parts[i]]) == parts[i] + [];
    ConcatSplit(parts, i + 1);
  }

  /** Byte at which part `i` starts. */
  ghost function StartOf(dots: seq<u8>, parts: seq<seq<u8>>, i: nat): nat
    requires i <= |parts|
  {
    |dots| + |Concat(parts[..i])|
  }

  lemma {:induction false} StartGrows(dots: seq<u8>, parts: seq<seq<u8>>, i: nat, j: nat)
    requires i <= j <= |parts|
    ensures StartOf(dots, parts, i) <= StartOf(dots, parts, j)
    decreases j
  {
    if i < j {
      StartGrows(dots, parts, i, j - 1);
      ConcatPiece(parts, j - 1);
    }
  }

  /** Part `i` starts in the sector at `offset`, and written there it ends behind the scratch buffer. */
  ghost predicate OverrunAt(dots: seq<u8>, parts: seq<seq<u8>>, offset: nat, i: nat) {
    && i < |parts| && offset <= StartOf(dots, parts, i) < offset + BYTES_PER_SECTOR
    && StartOf(dots, parts, i) - offset + |parts[i]| > SCRATCH
  }

  /** Computing the sector at `offset` writes past the scratch buffer. */
  ghost predicate Overruns(dots: seq<u8>, parts: seq<seq<u8>>, offset: nat) {
    exists i: nat :: OverrunAt(dots, parts, offset, i)
  }

  /** The first `i` parts start before the sector. */
  ghost predicate AllBefore(dots: seq<u8>, parts: seq<seq<u8>>, offset: nat, i: nat) {
    i <= |parts| && forall j: nat :: j < i ==> StartOf(dots, parts, j) < offset
  }

  /** None of the first `i` parts is one that overruns. */
  ghost predicate FitSoFar(dots: seq<u8>, parts: seq<seq<u8>>, offset: nat, i: nat) {
    i <= |parts| && forall j: nat :: j < i ==> !OverrunAt(dots, parts, offset, j)
  }

  /** `p` is where part `i` starts, or lies past the last part. */
  ghost predicate AtChild(dots: seq<u8>, parts: seq<seq<u8>>, i: nat, p: nat) {
    i <= |parts| && if i < |parts| then p == StartOf(dots, parts, i) else p >= |DirBytes(dots, parts)|
  }

  lemma MiddlePiece(a: seq<u8>, b: seq<u8>, c: seq<u8>, d: seq<u8>)
    ensures (a + (b + c + d))[|a| + |b|..|a| + |b| + |c|] == c
  {
  }

  lemma AtNextChild(dots: seq<u8>, parts: seq<seq<u8>>, i: nat, p: nat)
    requires i < |parts| && AtChild(dots, parts, i, p)
    ensures var p' := p + |parts[i]|;
            && p' <= |DirBytes(dots, parts)| && AtChild(dots, parts, i + 1, p')
            && DirBytes(dots, parts)[p..p'] == parts[i]
  {
    ConcatPiece(parts, i);
    MiddlePiece(dots, Concat(parts[..i]), parts[i], Concat(parts[i + 1..]));
    assert i + 1 == |parts| ==> parts[..i + 1] == parts;
  }

  // ---- the linked children ----

  /** `parts` is what the linked children serialise to. */
  ghost predicate Readable(kids: seq<DirEntry>, parts: seq<seq<u8>>)
    reads kids
  {
    && |parts| == |kids|
    && (forall i :: 0 <= i < |kids| ==> kids[i].next == At(kids, i + 1))
    && (forall i :: 0 <= i < |kids| ==> GoodMeta(kids[i].metadata))
    && (forall i :: 0 <= i < |kids| ==> parts[i] == EntryBytes(kids[i].metadata, kids[i].firstCluster))
  }

  lemma SameCount(kids: seq<DirEntry>, parts: seq<seq<u8>>)
    requires Readable(kids, parts)
    ensures |parts| == |kids|
  {
    hide EntryBytes, GoodMeta;
  }

  lemma LinkedChild(kids: seq<DirEntry>, parts: seq<seq<u8>>, i: nat)
    requires Readable(kids, parts) && i < |kids|
    ensures i < |parts| && kids[i].next == At(kids, i + 1) && GoodMeta(kids[i].metadata)
    ensures parts[i] == EntryBytes(kids[i].metadata, kids[i].firstCluster)
    ensures |parts[i]| == EntrySize(kids[i].metadata)
  {
    hide EntryBytes, GoodMeta, EntrySize;
  }

  lemma FirstChild(dots: seq<u8>, parts: seq<seq<u8>>)
    ensures |dots| <= |DirBytes(dots, parts)| && DirBytes(dots, parts)[0..|dots|] == dots
    ensures AtChild(dots, parts, 0, |dots|)
  {
    assert parts[..0] == [];
  }

  lemma NoneBefore(dots: seq<u8>, parts: seq<seq<u8>>, offset: nat)
    ensures AllBefore(dots, parts, offset, 0)
  {
  }

  lemma AllBeforeNext(dots: seq<u8>, parts: seq<seq<u8>>, offset: nat, i: nat, p: nat)
    requires AllBefore(dots, parts, offset, i) && i < |parts| && AtChild(dots, parts, i, p) && p < offset
    ensures AllBefore(dots, parts, offset, i + 1)
  {
    hide StartOf, DirBytes;
  }

  lemma FitsNext(dots: seq<u8>, parts: seq<seq<u8>>, offset: nat, i: nat, p: nat)
    requires FitSoFar(dots, parts, offset, i) && i < |parts| && AtChild(dots, parts, i, p)
    requires offset <= p < offset + BYTES_PER_SECTOR
    ensures p - offset + |parts[i]| <= SCRATCH ==> FitSoFar(dots, parts, offset, i + 1)
    ensures p - offset + |parts[i]| > SCRATCH ==> Overruns(dots, parts, offset)
  {
    hide StartOf, DirBytes;
    if p - offset + |parts[i]| > SCRATCH {
      assert OverrunAt(dots, parts, offset, i);
    }
  }

  /** First loop of read_dir_sector: the child that holds or follows byte `offset`. */
  method SeekChild(first: DirEntry?, offset: u32, start: u32, ghost dots: seq<u8>, ghost kids: seq<DirEntry>,
                   ghost parts: seq<seq<u8>>)
    returns (child: DirEntry?, childOffset: u32, ghost i: nat)
    requires first == At(kids, 0) && Readable(kids, parts) && |dots| == start
    requires |DirBytes(dots, parts)| < TWO_32
    ensures child == At(kids, i) && AtChild(dots, parts, i, childOffset)
    ensures AllBefore(dots, parts, offset, i)
    ensures childOffset > offset ==> i == 0 && childOffset == start
    ensures child != null && childOffset < offset ==> childOffset + EntrySize(child.metadata) > offset
  {
    hide EntryBytes, GoodMeta, StartOf, AllBefore;
    childOffset, child, i := start, first, 0;
    FirstChild(dots, parts);
    NoneBefore(dots, parts, offset);
    while child != null && childOffset < offset
      invariant i <= |kids| && child == At(kids, i) && AtChild(dots, parts, i, childOffset)
      invariant AllBefore(dots, parts, offset, i)
      invariant childOffset > offset ==> i == 0 && childOffset == start
      decreases |kids| - i
    {
      AtNextChild(dots, parts, i, childOffset);
      var newChildOffset := childOffset + EntrySize(child.metadata);
      if newChildOffset > offset {
        break;
      }
      AllBeforeNext(dots, parts, offset, i, childOffset);
      childOffset := newChildOffset;
      child := child.next;
      i := i + 1;
    }
  }

  /** Contents of the scratch buffer: `n` bytes of the stream from `off`, then zeros. */
  ghost predicate Filled(t: seq<u8>, s: seq<u8>, off: nat, n: nat) {
    && |t| == SCRATCH && n <= SCRATCH && (n > 0 ==> off + n <= |s|)
    && (forall i :: 0 <= i < n ==> t[i] == s[off + i])
    && (forall i :: n <= i < SCRATCH ==> t[i] == 0)
  }

  lemma NoneFilled(t: seq<u8>, s: seq<u8>, off: nat)
    requires t == Zeros(SCRATCH)
    ensures Filled(t, s, off, 0)
  {
  }

  lemma FilledMore(t: seq<u8>, s: seq<u8>, off: nat, n: nat, b: seq<u8>)
    requires Filled(t, s, off, n) && n + |b| <= SCRATCH && off + n + |b| <= |s|
    requires s[off + n..off + n + |b|] == b
    ensures Filled(Overwrite(t, n, b), s, off, n + |b|)
  {
    var t' := Overwrite(t, n, b);
    forall i | 0 <= i < n + |b| ensures t'[i] == s[off + i] {
      if i >= n {
        assert t'[i] == b[i - n] == s[off + n..off + n + |b|][i - n];
      }
    }
  }

  lemma FilledWindow(t: seq<u8>, s: seq<u8>, off: nat, n: nat)
    requires Filled(t, s, off, n) && (n >= BYTES_PER_SECTOR || off + n >= |s|)
    ensures t[..BYTES_PER_SECTOR] == Window(s, off)
  {
  }

  /** No entry takes more than 672 bytes. */
  lemma EntryRoom(m: EntryMetaData)
    requires GoodMeta(m)
    ensures 64 <= EntrySize(m) <= 672
  {
  }

  /** One child written whole behind the bytes already there. */
  method EmitChild(tmp: array<u8>, m: EntryMetaData, cluster: u32, bufOffset: u32, overread: seq<u16>,
                   ghost s: seq<u8>, ghost off: nat)
    returns (entrySize: u32)
    requires GoodMeta(m) && |overread| == LONG_NAME_CHARS
    requires tmp.Length == SCRATCH && bufOffset + EntrySize(m) <= SCRATCH
    requires Filled(tmp[..], s, off, bufOffset)
    requires off + bufOffset + EntrySize(m) <= |s|
    requires s[off + bufOffset..off + bufOffset + EntrySize(m)] == EntryBytes(m, cluster)
    modifies tmp
    ensures entrySize == EntrySize(m)
    ensures Filled(tmp[..], s, off, bufOffset + entrySize)
  {
    hide EntryBytes, GoodMeta, Filled;
    ghost var entry := EntryBytes(m, cluster);
    assert |entry| == EntrySize(m);
    FilledMore(tmp[..], s, off, bufOffset, entry);
    entrySize := GetDirContents(m, cluster, tmp, bufOffset, overread);
  }

  lemma TailFilled(t: seq<u8>, s: seq<u8>, off: nat, entry: seq<u8>, delta: nat)
    requires Filled(t, s, off, 0)
    requires 0 < delta < |entry| <= SCRATCH && delta <= off && off - delta + |entry| <= |s|
    requires s[off - delta..off - delta + |entry|] == entry
    ensures var t1 := Overwrite(t, 0, entry);
            var t2 := Overwrite(t1, 0, t1[delta..|entry|]);
            Filled(Overwrite(t2, |entry| - delta, Zeros(delta)), s, off, |entry| - delta)
  {
    var t1 := Overwrite(t, 0, entry);
    var t2 := Overwrite(t1, 0, t1[delta..|entry|]);
    var t3 := Overwrite(t2, |entry| - delta, Zeros(delta));
    assert t1[delta..|entry|] == entry[delta..];
    forall i | 0 <= i < |entry| - delta ensures t3[i] == s[off + i] {
      assert entry[delta + i] == s[off - delta..off - delta + |entry|][delta + i];
    }
    forall i | |entry| - delta <= i < SCRATCH ensures t3[i] == 0 {
      if i >= |entry| {
        assert t3[i] == t2[i] == t1[i] == t[i];
      }
    }
  }

  /** The child that straddles the start of the sector: written whole, then moved to the front. */
  method EmitTail(tmp: array<u8>, m: EntryMetaData, cluster: u32, delta: u32, overread: seq<u16>,
                  ghost s: seq<u8>, ghost off: nat)
    returns (bufOffset: u32)
    requires GoodMeta(m) && |overread| == LONG_NAME_CHARS
    requires tmp.Length == SCRATCH && Filled(tmp[..], s, off, 0)
    requires 0 < delta < EntrySize(m) && delta <= off && off - delta + EntrySize(m) <= |s|
    requires s[off - delta..off - delta + EntrySize(m)] == EntryBytes(m, cluster)
    modifies tmp
    ensures bufOffset == EntrySize(m) - delta
    ensures Filled(tmp[..], s, off, bufOffset)
  {
    hide EntryBytes, GoodMeta;
    EntryRoom(m);
    TailFilled(tmp[..], s, off, EntryBytes(m, cluster), delta);
    var entrySize := GetDirContents(m, cluster, tmp, 0, overread);
    CopyInto(tmp, 0, tmp[delta..entrySize]);
    bufOffset := entrySize - delta;
    CopyInto(tmp, bufOffset, Zeros(delta));
  }

  /** As above, with the position of the next child. */
  method EmitStraddling(tmp: array<u8>, m: EntryMetaData, cluster: u32, childOffset: u32, offset: u32,
                        overread: seq<u16>, ghost dots: seq<u8>, ghost parts: seq<seq<u8>>, ghost i: nat)
    returns (bufOffset: u32)
    requires GoodMeta(m) && |overread| == LONG_NAME_CHARS
    requires i < |parts| && parts[i] == EntryBytes(m, cluster) && AtChild(dots, parts, i, childOffset)
    requires childOffset < offset < childOffset + EntrySize(m)
    requires tmp.Length == SCRATCH && Filled(tmp[..], DirBytes(dots, parts), offset, 0)
    modifies tmp
    ensures Filled(tmp[..], DirBytes(dots, parts), offset, bufOffset)
    ensures AtChild(dots, parts, i + 1, offset + bufOffset)
  {
    hide EntryBytes, GoodMeta, Concat;
    AtNextChild(dots, parts, i, childOffset);
    bufOffset := EmitTail(tmp, m, cluster, offset - childOffset, overread, DirBytes(dots, parts), offset);
  }

  /** Nothing from part `i` on starts in the sector. */
  lemma RestBehind(dots: seq<u8>, parts: seq<seq<u8>>, offset: nat, i: nat, p: nat)
    requires FitSoFar(dots, parts, offset, i) && AtChild(dots, parts, i, p)
    requires i == |parts| || p >= offset + BYTES_PER_SECTOR
    ensures !Overruns(dots, parts, offset)
  {
    hide StartOf, DirBytes;
    forall j: nat | i <= j < |parts| ensures !OverrunAt(dots, parts, offset, j) {
      StartGrows(dots, parts, i, j);
    }
  }

  lemma BeforeFits(dots: seq<u8>, parts: seq<seq<u8>>, offset: nat, i: nat)
    requires AllBefore(dots, parts, offset, i)
    ensures FitSoFar(dots, parts, offset, i)
  {
    hide StartOf;
  }

  lemma AtTheEnd(dots: seq<u8>, parts: seq<seq<u8>>, i: nat, p: nat)
    requires AtChild(dots, parts, i, p)
    ensures i <= |parts| && (i == |parts| ==> p >= |DirBytes(dots, parts)|)
  {
    hide DirBytes;
  }

  /** Last loop of read_dir_sector: whole children until the sector is full. `overrun` stands for a child that
      leaves the scratch buffer, which the C code does not look out for. */
  method FillWindow(tmp: array<u8>, first: DirEntry?, bufOffset0: u32, offset: u32, overread: seq<u16>,
                    ghost dots: seq<u8>, ghost kids: seq<DirEntry>, ghost parts: seq<seq<u8>>, ghost i0: nat)
    returns (overrun: bool)
    requires Readable(kids, parts) && |overread| == LONG_NAME_CHARS
    requires first == At(kids, i0) && AtChild(dots, parts, i0, offset + bufOffset0)
    requires AllBefore(dots, parts, offset, i0)
    requires tmp.Length == SCRATCH && Filled(tmp[..], DirBytes(dots, parts), offset, bufOffset0)
    modifies tmp
    ensures overrun <==> Overruns(dots, parts, offset)
    ensures !overrun ==> tmp[..BYTES_PER_SECTOR] == Window(DirBytes(dots, parts), offset)
  {
    hide EntryBytes, GoodMeta, Concat, StartOf, DirBytes, Filled, Window, FitSoFar, Overruns, AllBefore, AtChild,
         Readable, EntrySize;
    ghost var s := DirBytes(dots, parts);
    ghost var i: nat := i0;
    var child := first;
    var bufOffset: int := bufOffset0;
    SameCount(kids, parts);
    BeforeFits(dots, parts, offset, i0);
    AtTheEnd(dots, parts, i0, offset + bufOffset0);
    ghost var p := offset + bufOffset0;
    while child != null && bufOffset < BYTES_PER_SECTOR
      invariant Readable(kids, parts)
      invariant i <= |kids| && child == At(kids, i) && bufOffset >= 0 && p == offset + bufOffset
      invariant Filled(tmp[..], s, offset, bufOffset)
      invariant AtChild(dots, parts, i, p)
      invariant FitSoFar(dots, parts, offset, i)
      decreases |kids| - i
    {
      LinkedChild(kids, parts, i);
      AtNextChild(dots, parts, i, p);
      FitsNext(dots, parts, offset, i, p);
      if bufOffset + EntrySize(child.metadata) > tmp.Length {
        return true;
      }
      var entrySize := EmitChild(tmp, child.metadata, child.firstCluster, bufOffset, overread, s, offset);
      bufOffset, p := bufOffset + entrySize, p + |parts[i]|;
      child := child.next;
      i := i + 1;
    }
    RestBehind(dots, parts, offset, i, p);
    AtTheEnd(dots, parts, i, p);
    FilledWindow(tmp[..], s, offset, bufOffset);
    overrun := false;
  }

  function DotsOf(dir: DirEntry, root: DirEntry): (b: seq<u8>)
    requires dir != root ==> dir.parent != null
    reads dir, dir.parent
    ensures |b| == if dir == root then 0 else 2 * DIR_ENTRY_SIZE
  {
    if dir == root then [] else
    DotBytes(dir.metadata, dir.firstCluster, if dir.parent == root then 0 else dir.parent.firstCluster)
  }

  /** What read_dir_sector writes before its last loop: the dot entries, or the end of a straddling child. */
  method PlaceFirst(tmp: array<u8>, isRoot: bool, dots: seq<u8>, child: DirEntry?, childOffset: u32, offset: u32,
                    overread: seq<u16>, ghost kids: seq<DirEntry>, ghost parts: seq<seq<u8>>, ghost i: nat)
    returns (child': DirEntry?, bufOffset: u32, ghost i': nat)
    requires |overread| == LONG_NAME_CHARS && |dots| == if isRoot then 0 else 2 * DIR_ENTRY_SIZE
    requires Readable(kids, parts)
    requires tmp.Length == SCRATCH && Filled(tmp[..], DirBytes(dots, parts), offset, 0)
    requires child == At(kids, i) && AtChild(dots, parts, i, childOffset) && AllBefore(dots, parts, offset, i)
    requires childOffset > offset ==> i == 0 && childOffset == |dots|
    requires child != null && childOffset < offset ==> childOffset + EntrySize(child.metadata) > offset
    requires offset < |dots| ==> offset == 0
    modifies tmp
    ensures child' == At(kids, i') && AtChild(dots, parts, i', offset + bufOffset)
    ensures AllBefore(dots, parts, offset, i')
    ensures Filled(tmp[..], DirBytes(dots, parts), offset, bufOffset)
  {
    hide EntryBytes, GoodMeta, Concat, DirBytes, Filled, EntrySize, StartOf;
    child', bufOffset, i' := child, 0, i;
    if offset == 0 && !isRoot {
      FirstChild(dots, parts);
      assert DirBytes(dots, parts)[0 + 0..0 + 0 + |dots|] == dots;
      FilledMore(tmp[..], DirBytes(dots, parts), 0, 0, dots);
      CopyInto(tmp, 0, dots);
      bufOffset := 2 * DIR_ENTRY_SIZE;
    } else if child != null && childOffset < offset {
      bufOffset := EmitStraddling(tmp, child.metadata, child.firstCluster, childOffset, offset, overread, dots,
                                  parts, i);
      child' := child.next;
      i' := i + 1;
    }
  }

  /** read_dir_sector: it writes past its scratch buffer exactly when some child starts in the sector and ends more
      than 1024 bytes behind the start of the sector; otherwise the windowed form gives the same bytes as the
      whole stream. */
  method ReadDirSector(dir: DirEntry, root: DirEntry, offset: u32, overread: seq<u16>,
                       ghost kids: seq<DirEntry>, ghost parts: seq<seq<u8>>)
    returns (overrun: bool, sector: seq<u8>)
    requires offset % BYTES_PER_SECTOR == 0 && |overread| == LONG_NAME_CHARS
    requires dir != root ==> dir.parent != null
    requires dir.child == At(kids, 0) && Readable(kids, parts)
    requires |DirBytes(DotsOf(dir, root), parts)| < TWO_32
    ensures overrun <==> Overruns(DotsOf(dir, root), parts, offset)
    ensures !overrun ==> sector == Window(DirBytes(DotsOf(dir, root), parts), offset)
  {
    hide EntryBytes, GoodMeta, Concat, DirBytes, DotsOf, Window, StartOf, Overruns, Filled, AtChild, AllBefore;
    var dots := DotsOf(dir, root);
    var tmp := new u8[SCRATCH](_ => 0);
    assert tmp[..] == Zeros(SCRATCH);
    NoneFilled(tmp[..], DirBytes(dots, parts), offset);
    var start := if dir == root then 0 else 2 * DIR_ENTRY_SIZE;
    var child, childOffset, bufOffset;
    ghost var i;
    child, childOffset, i := SeekChild(dir.child, offset, start, dots, kids, parts);
    child, bufOffset, i := PlaceFirst(tmp, dir == root, dots, child, childOffset, offset, overread, kids, parts, i);
    overrun := FillWindow(tmp, child, bufOffset, offset, overread, dots, kids, parts, i);
    sector := tmp[..BYTES_PER_SECTOR];
  }
}
