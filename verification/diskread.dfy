/** Assembling a byte range from the sectors of the disk (read_data of dbfat.c). */
module DiskRead {
  import opened Words
  import opened Layout
  import opened FsImage
  import opened Mount
  import FsState
  import Entries
  import FileTree
  import Disk
  import Scratch

  /** Trapped: an assertion fails, a copy leaves the sector or the caller's buffer, or a directory sector leaves
      its scratch buffer. */
  datatype Outcome = Done | Failed | Trapped

  /** Byte `b` of the image. */
  function ByteOf(image: Image, b: nat): u8 {
    var s := image(b / BYTES_PER_SECTOR);
    if s.Some? then s.value[b % BYTES_PER_SECTOR] else 0
  }

  /** A tree and its cluster table as values. */
  datatype View = View(st: FsState.State, fat: seq<int>, owners: seq<Entries.DirEntry?>) {
    ghost predicate Good() { Sound(st, fat, owners) }
  }

  /** The disk as a call finds it that takes and drops the lock for every sector: sector `first + k` is read from the
      `k`-th view. */
  ghost function Seen(views: seq<View>, first: nat, src: Source): Image {
    (n: nat) =>
      if first <= n < first + |views| && views[n - first].Good() then
        var v := views[n - first];
        ImageOf(v.st, v.fat, v.owners, src)(n)
      else None
  }

  /** The sectors in which the scratch buffer is overrun. */
  ghost function TrapsOf(views: seq<View>, first: nat): iset<nat> {
    iset n: nat | Overrun(views, first, n)
  }

  ghost predicate Overrun(views: seq<View>, first: nat, n: nat) {
    && first <= n < first + |views| && views[n - first].Good()
    && Scratch.SectorOverruns(views[n - first].st, views[n - first].fat, views[n - first].owners, n)
  }

  /** When nothing changes during the call that is the disk of the one tree. */
  lemma SameView(views: seq<View>, first: nat, src: Source, v: View, n: nat)
    requires v.Good() && (forall k :: 0 <= k < |views| ==> views[k] == v) && first <= n < first + |views|
    ensures Seen(views, first, src)(n) == ImageOf(v.st, v.fat, v.owners, src)(n)
    ensures n in TrapsOf(views, first) <==> Scratch.SectorOverruns(v.st, v.fat, v.owners, n)
  {
    hide Sound, ImageOf, Scratch.SectorOverruns;
    assert views[n - first] == v;
  }

  predicate InRange(offset: nat, size: nat, k: nat) {
    size > 0 && offset / BYTES_PER_SECTOR <= k && k * BYTES_PER_SECTOR < offset + size
  }

  /** The sectors that a call can come to, wherever its range ends. */
  predicate LookedAt(offset: nat, size: nat, k: nat) {
    offset / BYTES_PER_SECTOR <= k <= offset / BYTES_PER_SECTOR + size / BYTES_PER_SECTOR + 2
  }

  ghost predicate Sane(image: Image, traps: iset<nat>, k: nat) {
    image(k).Some? && k !in traps
  }

  /** Every sector of the range can be read. */
  ghost predicate RangeReadable(image: Image, traps: iset<nat>, offset: nat, size: nat) {
    forall k: nat :: InRange(offset, size, k) ==> Sane(image, traps, k)
  }

  /** The first sector of the range that cannot be read. */
  ghost predicate FirstBad(image: Image, traps: iset<nat>, offset: nat, size: nat, k: nat) {
    && InRange(offset, size, k) && !Sane(image, traps, k)
    && forall j: nat :: InRange(offset, size, j) && j < k ==> Sane(image, traps, j)
  }

  /** The ranges that read_data is right about. */
  predicate Served(offset: u32, size: u32) {
    offset % BYTES_PER_SECTOR == 0 || size == 0 || size == BYTES_PER_SECTOR
  }

  /** What read_data comes to. A served range is delivered whole when every sector of it can be read, and ends at
      the first one that cannot; any other range is never delivered, and traps when the sectors looked at can be
      read. */
  ghost predicate Outcomes(image: Image, traps: iset<nat>, offset: u32, size: u32, o: Outcome, buf: seq<u8>) {
    && (Served(offset, size) ==>
          && (o.Done? <==> RangeReadable(image, traps, offset, size))
          && (o.Done? ==> Copied(image, offset, buf, size))
          && forall k: nat :: FirstBad(image, traps, offset, size, k) ==> o == if k in traps then Trapped else Failed)
    && (!Served(offset, size) ==>
          !o.Done? && ((forall k: nat :: LookedAt(offset, size, k) ==> Sane(image, traps, k)) ==> o.Trapped?))
  }

  ghost predicate Copied(image: Image, offset: nat, buf: seq<u8>, n: nat) {
    n <= |buf| && forall i :: 0 <= i < n ==> buf[i] == ByteOf(image, offset + i)
  }

  /** Loop state: sectors done, the index in the next one, the bytes delivered. */
  predicate Position(offset: u32, size: u32, sector: u32, index: u32, done: u32) {
    var s0, x := offset / BYTES_PER_SECTOR, offset % BYTES_PER_SECTOR;
    if x == 0 then Aligned(s0, size, sector, index, done) else Unaligned(s0, x, size, sector, index, done)
  }

  predicate Aligned(s0: nat, size: u32, sector: u32, index: u32, done: u32) {
    && index == 0 && sector >= s0
    && done == if (sector - s0) * BYTES_PER_SECTOR < size then (sector - s0) * BYTES_PER_SECTOR else size
  }

  predicate Unaligned(s0: nat, x: nat, size: u32, sector: u32, index: u32, done: u32) {
    || (sector == s0 && index == x && done == 0)
    || (size == BYTES_PER_SECTOR && index == 0 && sector == s0 + 2 && done == size)
    || (size == BYTES_PER_SECTOR && index == 0 && sector == s0 + 1 && done == size - x)
    || (x < size < BYTES_PER_SECTOR && index == 0 && sector == s0 + 1 && done == size - x)
    || (x < size < BYTES_PER_SECTOR && index == 0 && sector == s0 + 2 && done == 2 * size - BYTES_PER_SECTOR &&
        x + size > BYTES_PER_SECTOR)
  }

  function EndIndex(offset: u32, size: u32, sector: u32, index: u32): u32 {
    Sub32(Add32(offset, size), Add32(Mul32(sector, BYTES_PER_SECTOR), index))
  }

  function PieceSize(end: u32, index: u32): u32
    requires end > index
  {
    if end - index < BYTES_PER_SECTOR then end - index else BYTES_PER_SECTOR
  }

  lemma EndIs(offset: u32, size: u32, sector: u32, index: u32)
    requires offset + size < TWO_32 && sector <= 0x80_0001 && index < BYTES_PER_SECTOR
    requires sector * BYTES_PER_SECTOR + index < offset + size + TWO_32
    ensures var d := offset + size - (sector * BYTES_PER_SECTOR + index);
            -TWO_32 < d < TWO_32 && EndIndex(offset, size, sector, index) == if d >= 0 then d else d + TWO_32
  {
    var at := sector * BYTES_PER_SECTOR;
    assert Mul32(sector, BYTES_PER_SECTOR) == if at < TWO_32 then at else at - TWO_32;
    var m := at + index;
    assert Add32(Mul32(sector, BYTES_PER_SECTOR), index) == if m < TWO_32 then m else m - TWO_32;
  }

  /** The piece stays inside the sector and the buffer. */
  predicate Fits(offset: u32, size: u32, sector: u32, index: u32, done: u32) {
    var end := EndIndex(offset, size, sector, index);
    end > index && index + PieceSize(end, index) <= BYTES_PER_SECTOR && done + PieceSize(end, index) <= size
  }

  lemma PositionBound(offset: u32, size: u32, sector: u32, index: u32, done: u32)
    requires offset + size < TWO_32 && Position(offset, size, sector, index, done) && done < size
    ensures sector <= 0x80_0001 && index < BYTES_PER_SECTOR && LookedAt(offset, size, sector)
  {
    var s0, q := offset / BYTES_PER_SECTOR, size / BYTES_PER_SECTOR;
    assert size < BYTES_PER_SECTOR * (q + 1);
    assert sector <= s0 + q + 2;
  }

  lemma AlignedMoves(s0: nat, offset: u32, size: u32, sector: u32, index: u32, done: u32)
    requires offset == s0 * BYTES_PER_SECTOR && offset + size < TWO_32 && sector <= 0x80_0001
    requires Aligned(s0, size, sector, index, done) && done < size
    ensures Fits(offset, size, sector, index, done) && sector * BYTES_PER_SECTOR + index == offset + done
    ensures var n := PieceSize(EndIndex(offset, size, sector, index), index);
            n > 0 && Aligned(s0, size, sector + 1, 0, done + n)
  {
    hide EndIndex;
    EndIs(offset, size, sector, index);
  }

  lemma UnalignedMoves(s0: nat, x: nat, offset: u32, size: u32, sector: u32, index: u32, done: u32)
    requires offset == s0 * BYTES_PER_SECTOR + x && 0 < x < BYTES_PER_SECTOR && offset + size < TWO_32
    requires sector <= 0x80_0001
    requires Unaligned(s0, x, size, sector, index, done) && done < size
    ensures Fits(offset, size, sector, index, done) ==>
              var n := PieceSize(EndIndex(offset, size, sector, index), index);
              n > 0 && Unaligned(s0, x, size, sector + 1, 0, done + n)
    ensures size == BYTES_PER_SECTOR ==>
              Fits(offset, size, sector, index, done) && sector * BYTES_PER_SECTOR + index == offset + done
  {
    hide EndIndex;
    EndIs(offset, size, sector, index);
  }

  /** A piece that stays inside the sector and the buffer moves the position on; when the range is one that
      is served every piece does, and it is the next piece of the range. */
  lemma PieceMoves(offset: u32, size: u32, sector: u32, index: u32, done: u32)
    requires offset + size < TWO_32 && Position(offset, size, sector, index, done) && done < size
    ensures sector <= 0x80_0001
    ensures Fits(offset, size, sector, index, done) ==>
              var n := PieceSize(EndIndex(offset, size, sector, index), index);
              n > 0 && Position(offset, size, sector + 1, 0, done + n)
    ensures Served(offset, size) ==>
              Fits(offset, size, sector, index, done) && sector * BYTES_PER_SECTOR + index == offset + done
  {
    hide EndIndex, Aligned, Unaligned, Fits;
    PositionBound(offset, size, sector, index, done);
    var s0, x := offset / BYTES_PER_SECTOR, offset % BYTES_PER_SECTOR;
    if x == 0 {
      AlignedMoves(s0, offset, size, sector, index, done);
    } else {
      UnalignedMoves(s0, x, offset, size, sector, index, done);
    }
  }

  lemma PositionEnds(offset: u32, size: u32, sector: u32, index: u32, done: u32)
    requires Position(offset, size, sector, index, done) && done >= size
    ensures Served(offset, size) && done == size
    ensures size > 0 ==> sector * BYTES_PER_SECTOR >= offset + size
  {
  }

  lemma FitsIs(offset: u32, size: u32, sector: u32, index: u32, done: u32)
    ensures var end := Sub32(Add32(offset, size), Add32(Mul32(sector, BYTES_PER_SECTOR), index));
            && end == EndIndex(offset, size, sector, index)
            && (Fits(offset, size, sector, index, done) <==>
                  && end > index && index + PieceSize(end, index) <= BYTES_PER_SECTOR
                  && done + PieceSize(end, index) <= size)
  {
    hide Add32, Sub32, Mul32;
  }

  /** Every sector of the range before sector `n` can be read. */
  ghost predicate SaneSoFar(image: Image, traps: iset<nat>, offset: nat, size: nat, n: nat) {
    forall k: nat :: InRange(offset, size, k) && k < n ==> Sane(image, traps, k)
  }

  lemma NextInRange(offset: u32, size: u32, sector: u32, index: u32, done: u32)
    requires done < size && index < BYTES_PER_SECTOR && sector * BYTES_PER_SECTOR + index == offset + done
    ensures InRange(offset, size, sector)
  {
  }

  lemma OnlyFirstBad(image: Image, traps: iset<nat>, offset: u32, size: u32, sector: nat)
    requires SaneSoFar(image, traps, offset, size, sector)
    requires InRange(offset, size, sector) && !Sane(image, traps, sector)
    ensures !RangeReadable(image, traps, offset, size)
    ensures forall k: nat :: FirstBad(image, traps, offset, size, k) <==> k == sector
  {
    hide InRange, Sane;
    assert FirstBad(image, traps, offset, size, sector);
  }

  lemma AllRead(image: Image, traps: iset<nat>, offset: u32, size: u32, sector: nat)
    requires size > 0 ==> sector * BYTES_PER_SECTOR >= offset + size
    requires SaneSoFar(image, traps, offset, size, sector)
    ensures RangeReadable(image, traps, offset, size)
  {
    hide Sane;
    forall k: nat | InRange(offset, size, k) ensures Sane(image, traps, k) {
      assert k < sector;
    }
  }

  lemma OneMoreSane(image: Image, traps: iset<nat>, offset: u32, size: u32, sector: nat)
    requires SaneSoFar(image, traps, offset, size, sector) && Sane(image, traps, sector)
    ensures SaneSoFar(image, traps, offset, size, sector + 1)
  {
    hide Sane, InRange;
  }

  lemma ByteInSector(image: Image, sector: nat, j: nat)
    requires j < BYTES_PER_SECTOR && image(sector).Some?
    ensures ByteOf(image, sector * BYTES_PER_SECTOR + j) == image(sector).value[j]
  {
    var b := sector * BYTES_PER_SECTOR + j;
    assert b / BYTES_PER_SECTOR == sector && b % BYTES_PER_SECTOR == j;
  }

  /** memcpy of one piece of a sector. */
  method CopyPiece(buf: array<u8>, at: nat, bytes: Sector, index: nat, n: nat, ghost image: Image, ghost sector: nat,
                   ghost offset: nat)
    requires at + n <= buf.Length && index + n <= BYTES_PER_SECTOR && image(sector) == Some(bytes)
    modifies buf
    ensures sector * BYTES_PER_SECTOR + index == offset + at && Copied(image, offset, old(buf[..]), at) ==>
            Copied(image, offset, buf[..], at + n)
  {
    forall i | 0 <= i < n {
      buf[at + i] := bytes[index + i];
    }
    if sector * BYTES_PER_SECTOR + index == offset + at && Copied(image, offset, old(buf[..]), at) {
      forall i | 0 <= i < at + n ensures buf[i] == ByteOf(image, offset + i) {
        if i < at {
          assert buf[i] == old(buf[..])[i];
        } else {
          ByteInSector(image, sector, index + (i - at));
        }
      }
    }
  }

  /** read_data into a buffer of `size` bytes. `trees[k]` is the tree as the call finds it when it takes the lock for
      the `k`-th sector; they are all the same one when nothing changes in between. */
  method ReadData(trees: seq<FileTree.Dbfat>, offset: u32, size: u32, src: Source, overread: seq<u16>,
                  buf: array<u8>, ghost views: seq<View>)
    returns (o: Outcome)
    requires |overread| == LONG_NAME_CHARS && buf.Length == size && offset + size < TWO_32
    requires |trees| == |views| == size / BYTES_PER_SECTOR + 3
    requires forall k :: 0 <= k < |trees| ==> trees[k].Valid() && views[k].Good()
    requires forall k :: 0 <= k < |trees| ==>
               views[k] == View(trees[k].st, trees[k].table.fat[..], trees[k].table.dirEntries[..])
    modifies buf
    ensures var s0 := offset / BYTES_PER_SECTOR;
            Outcomes(Seen(views, s0, src), TrapsOf(views, s0), offset, size, o, buf[..])
  {
    hide Sound, FileTree.Dbfat.Valid, Scratch.SectorOverruns, ImageSector, Served, Position, Fits, EndIndex, Copied,
         SaneSoFar, FirstBad, RangeReadable, InRange, Outcomes, Sane, Seen, TrapsOf, PieceSize, Sub32, Add32, Mul32;
    ghost var image := Seen(views, offset / BYTES_PER_SECTOR, src);
    ghost var traps := TrapsOf(views, offset / BYTES_PER_SECTOR);
    var sector: u32 := offset / BYTES_PER_SECTOR;
    var sectorIndex: u32 := offset % BYTES_PER_SECTOR;
    var bufOffset: u32 := 0;
    PositionStart(image, traps, offset, size);
    NoneCopied(image, offset, buf[..]);
    while bufOffset < size
      invariant Position(offset, size, sector, sectorIndex, bufOffset)
      invariant Served(offset, size) ==> Copied(image, offset, buf[..], bufOffset)
      invariant SaneSoFar(image, traps, offset, size, sector)
      decreases size - bufOffset
    {
      PieceMoves(offset, size, sector, sectorIndex, bufOffset);
      var sectorEndIndex := Sub32(Add32(offset, size), Add32(Mul32(sector, BYTES_PER_SECTOR), sectorIndex));
      FitsIs(offset, size, sector, sectorIndex, bufOffset);
      if sectorEndIndex <= sectorIndex {
        TrapOutcome(image, traps, offset, size, buf[..]);
        return Trapped;
      }
      var readSize := PieceSize(sectorEndIndex, sectorIndex);
      PositionBound(offset, size, sector, sectorIndex, bufOffset);
      ghost var k := sector - offset / BYTES_PER_SECTOR;
      var overrun, r := SectorNow(trees[sector - offset / BYTES_PER_SECTOR], sector, src, overread, views, k);
      if overrun || r.None? {
        if Served(offset, size) {
          NextInRange(offset, size, sector, sectorIndex, bufOffset);
        }
        o := if overrun then Trapped else Failed;
        BadOutcome(image, traps, offset, size, sector, o, buf[..]);
        return;
      }
      if sectorIndex + readSize > BYTES_PER_SECTOR || bufOffset + readSize > size {
        TrapOutcome(image, traps, offset, size, buf[..]);
        return Trapped;
      }
      CopyPiece(buf, bufOffset, r.value, sectorIndex, readSize, image, sector, offset);
      SaneNow(image, traps, sector);
      OneMoreSane(image, traps, offset, size, sector);
      sectorIndex := 0;
      sector := sector + 1;
      bufOffset := bufOffset + readSize;
    }
    PositionEnds(offset, size, sector, sectorIndex, bufOffset);
    AllRead(image, traps, offset, size, sector);
    DoneOutcome(image, traps, offset, size, buf[..]);
    o := Done;
  }

  /** One sector under the lock. */
  method SectorNow(fs: FileTree.Dbfat, sector: u32, src: Source, overread: seq<u16>, ghost views: seq<View>,
                   ghost k: nat)
    returns (overrun: bool, r: Option<Sector>)
    requires fs.Valid() && sector < TOTAL_SECTORS && |overread| == LONG_NAME_CHARS
    requires k < |views| && k <= sector && views[k].Good()
    requires views[k] == View(fs.st, fs.table.fat[..], fs.table.dirEntries[..])
    ensures overrun <==> sector in TrapsOf(views, sector - k)
    ensures !overrun ==> r == Seen(views, sector - k, src)(sector)
  {
    hide Sound, FileTree.Dbfat.Valid, Scratch.SectorOverruns, ImageSector;
    overrun, r := Disk.ReadSector(fs, sector, src, overread);
  }

  lemma SaneNow(image: Image, traps: iset<nat>, k: nat)
    ensures Sane(image, traps, k) <==> image(k).Some? && k !in traps
  {
  }

  lemma DoneOutcome(image: Image, traps: iset<nat>, offset: u32, size: u32, buf: seq<u8>)
    requires Served(offset, size) && RangeReadable(image, traps, offset, size) && Copied(image, offset, buf, size)
    ensures Outcomes(image, traps, offset, size, Done, buf)
  {
    hide InRange, Sane, Served, Copied;
  }

  lemma TrapOutcome(image: Image, traps: iset<nat>, offset: u32, size: u32, buf: seq<u8>)
    requires !Served(offset, size)
    ensures Outcomes(image, traps, offset, size, Trapped, buf)
  {
  }

  lemma BadOutcome(image: Image, traps: iset<nat>, offset: u32, size: u32, sector: u32, o: Outcome, buf: seq<u8>)
    requires SaneSoFar(image, traps, offset, size, sector) && LookedAt(offset, size, sector)
    requires image(sector).None? || sector in traps
    requires Served(offset, size) ==> InRange(offset, size, sector)
    requires o == if sector in traps then Trapped else Failed
    ensures Outcomes(image, traps, offset, size, o, buf)
  {
    hide InRange, Sane, Served, Copied, RangeReadable, FirstBad, SaneSoFar;
    SaneNow(image, traps, sector);
    if Served(offset, size) {
      OnlyFirstBad(image, traps, offset, size, sector);
    }
  }

  lemma PositionStart(image: Image, traps: iset<nat>, offset: u32, size: u32)
    ensures Position(offset, size, offset / BYTES_PER_SECTOR, offset % BYTES_PER_SECTOR, 0)
    ensures SaneSoFar(image, traps, offset, size, offset / BYTES_PER_SECTOR)
  {
  }

  lemma NoneCopied(image: Image, offset: nat, buf: seq<u8>)
    ensures Copied(image, offset, buf, 0)
  {
  }
}
