/** When read_dir_sector leaves its scratch buffer of two sectors (dbfat.c), in terms of the tree. */
module Scratch {
  import opened Words
  import opened Layout
  import opened Entries
  import opened DirStream
  import opened FsState
  import opened FsRoom
  import opened FsImage
  import DirSector

  /** Byte of directory `d` at which its `i`-th child starts. */
  ghost function StartIn(s: State, d: DirEntry, i: nat): nat
    requires DirKnown(s, d) && i <= |s.kids[d]|
  {
    Base(s, d) + Room(s.metas, s.kids[d][..i])
  }

  /** The `i`-th child starts in some sector and ends more than 1024 bytes behind the start of that sector. */
  ghost predicate KidOverruns(s: State, d: DirEntry, i: nat) {
    && DirKnown(s, d) && i < |s.kids[d]|
    && StartIn(s, d, i) % BYTES_PER_SECTOR + EntrySize(s.metas[s.kids[d][i]]) > SCRATCH
  }

  ghost predicate StartsThere(s: State, d: DirEntry, i: nat, offset: nat) {
    DirKnown(s, d) && i < |s.kids[d]| && StartIn(s, d, i) / BYTES_PER_SECTOR == offset / BYTES_PER_SECTOR
  }

  /** Some child that starts in the sector at `offset` overruns. */
  ghost predicate DirOverruns(s: State, d: DirEntry, offset: nat) {
    exists i: nat :: KidOverruns(s, d, i) && StartsThere(s, d, i, offset)
  }

  /** Reading the sector leaves the scratch buffer. */
  ghost predicate SectorOverruns(s: State, fat: seq<int>, owners: seq<DirEntry?>, sector: nat)
    requires Sound(s, fat, owners)
  {
    && sector >= DATA_START && Located(fat, owners, s.chains, sector).Some?
    && var Place(e, offset) := Located(fat, owners, s.chains, sector).value;
       e in s.metas && s.metas[e].isDir && DirOverruns(s, e, offset)
  }

  /** What read_sector delivers: the sector of the image, or nothing where the buffer is overrun. */
  ghost function Delivered(s: State, fat: seq<int>, owners: seq<DirEntry?>, sector: nat, src: Source): Option<Sector>
    requires Sound(s, fat, owners) && sector < TOTAL_SECTORS
  {
    if SectorOverruns(s, fat, owners, sector) then None else ImageSector(s, fat, owners, sector, src)
  }

  /** No child of `d` overruns. */
  ghost predicate NoOverrun(s: State, d: DirEntry) {
    forall i: nat :: !KidOverruns(s, d, i)
  }

  /** No child of any directory overruns. */
  ghost predicate AllFit(s: State) {
    forall d :: d in s.metas && s.metas[d].isDir ==> NoOverrun(s, d)
  }

  lemma StartsAgree(s: State, d: DirEntry, i: nat)
    requires KidsGood(s, d) && ParentGood(s, d) && i <= |s.kids[d]|
    ensures DirSector.StartOf(DotsAt(s, d), PartsOf(s, d), i) == StartIn(s, d, i)
  {
    hide EntryBytes, EntrySize, GoodMeta, Base, DotsAt, Room;
    ConcatRoom(s.metas, s.kids[d][..i], PartsOf(s, d)[..i]);
  }

  lemma SameSector(offset: nat, p: nat)
    requires offset % BYTES_PER_SECTOR == 0
    ensures p / BYTES_PER_SECTOR == offset / BYTES_PER_SECTOR <==> offset <= p < offset + BYTES_PER_SECTOR
    ensures offset <= p < offset + BYTES_PER_SECTOR ==> p - offset == p % BYTES_PER_SECTOR
  {
  }

  lemma OverrunsAgree(s: State, d: DirEntry, offset: nat, i: nat)
    requires KidsGood(s, d) && ParentGood(s, d) && offset % BYTES_PER_SECTOR == 0
    ensures DirSector.OverrunAt(DotsAt(s, d), PartsOf(s, d), offset, i) <==>
            KidOverruns(s, d, i) && StartsThere(s, d, i, offset)
  {
    hide EntryBytes, EntrySize, GoodMeta, DotsAt, DirSector.StartOf, StartIn;
    if i < |s.kids[d]| {
      StartsAgree(s, d, i);
      SameSector(offset, StartIn(s, d, i));
    }
  }

  /** What overruns in the streams overruns in the tree. */
  lemma OverrunsAre(s: State, d: DirEntry, offset: nat)
    requires KidsGood(s, d) && ParentGood(s, d) && offset % BYTES_PER_SECTOR == 0
    ensures DirSector.Overruns(DotsAt(s, d), PartsOf(s, d), offset) <==> DirOverruns(s, d, offset)
  {
    hide KidOverruns, DirSector.OverrunAt, KidsGood, ParentGood, StartsThere;
    forall i: nat
      ensures DirSector.OverrunAt(DotsAt(s, d), PartsOf(s, d), offset, i) <==>
              KidOverruns(s, d, i) && StartsThere(s, d, i, offset)
    {
      OverrunsAgree(s, d, offset, i);
    }
  }

  /** A child starts inside the stream of its directory. */
  lemma StartInside(s: State, d: DirEntry, i: nat)
    requires KidsGood(s, d) && ParentGood(s, d) && i < |s.kids[d]|
    ensures StartIn(s, d, i) < |StreamOf(s, d)|
  {
    hide EntryBytes, GoodMeta, Base, DotsAt, StartIn;
    StartsAgree(s, d, i);
    DirSector.ConcatPiece(PartsOf(s, d), i);
    assert |PartsOf(s, d)[i]| == EntrySize(s.metas[s.kids[d][i]]);
  }

  // ---- which names are safe ----

  lemma Multiples(p: nat)
    requires p % DIR_ENTRY_SIZE == 0
    ensures p % BYTES_PER_SECTOR <= BYTES_PER_SECTOR - DIR_ENTRY_SIZE && p % BYTES_PER_SECTOR % DIR_ENTRY_SIZE == 0
  {
  }

  lemma SizeMultiple(m: EntryMetaData)
    ensures EntrySize(m) % DIR_ENTRY_SIZE == 0
  {
    hide LongEntries;
  }

  lemma SumMultiple(a: nat, b: nat)
    requires a % DIR_ENTRY_SIZE == 0 && b % DIR_ENTRY_SIZE == 0
    ensures (a + b) % DIR_ENTRY_SIZE == 0
  {
  }

  lemma {:induction false} RoomMultiple(metas: map<DirEntry, EntryMetaData>, ks: seq<DirEntry>)
    requires forall k :: k in ks ==> k in metas
    ensures Room(metas, ks) % DIR_ENTRY_SIZE == 0
  {
    hide EntrySize;
    if ks != [] {
      RoomMultiple(metas, ks[1..]);
      SizeMultiple(metas[ks[0]]);
      SumMultiple(EntrySize(metas[ks[0]]), Room(metas, ks[1..]));
    }
  }

  lemma {:induction false} RoomSnoc(metas: map<DirEntry, EntryMetaData>, ks: seq<DirEntry>, k: DirEntry)
    requires k in metas && forall x :: x in ks ==> x in metas
    ensures Room(metas, ks + [k]) == Room(metas, ks) + EntrySize(metas[k])
  {
    hide EntrySize;
    if ks != [] {
      RoomSnoc(metas, ks[1..], k);
      assert (ks + [k])[1..] == ks[1..] + [k];
    }
  }

  lemma StartNext(s: State, d: DirEntry, i: nat)
    requires DirKnown(s, d) && i < |s.kids[d]|
    ensures StartIn(s, d, 0) == Base(s, d)
    ensures StartIn(s, d, i + 1) == StartIn(s, d, i) + EntrySize(s.metas[s.kids[d][i]])
  {
    hide EntrySize, Base;
    var ks := s.kids[d];
    assert ks[..i + 1] == ks[..i] + [ks[i]];
    RoomSnoc(s.metas, ks[..i], ks[i]);
  }

  lemma StartMultiple(s: State, d: DirEntry, i: nat)
    requires DirKnown(s, d) && i <= |s.kids[d]|
    ensures StartIn(s, d, i) % DIR_ENTRY_SIZE == 0
  {
    hide Room;
    RoomMultiple(s.metas, s.kids[d][..i]);
  }

  /** The longest name that an entry started at byte `p` of a sector may have. */
  function LongestFrom(p: nat): int {
    LONG_NAME_CHARS * ((SCRATCH - p) / DIR_ENTRY_SIZE - 1)
  }

  lemma NameBound(chars: nat, p: nat)
    requires p < BYTES_PER_SECTOR && p % DIR_ENTRY_SIZE == 0
    ensures p + (LongEntries(chars) + 1) * DIR_ENTRY_SIZE > SCRATCH <==> chars > LongestFrom(p)
    ensures LongestFrom(p) >= MAX_WINDOW_NAME && (p <= 352 ==> LongestFrom(p) >= MAX_NAME)
  {
    var q := p / DIR_ENTRY_SIZE;
    assert p == DIR_ENTRY_SIZE * q && (SCRATCH - p) / DIR_ENTRY_SIZE == 32 - q;
  }

  /** The exact bound on a name depends on where in its sector the entry starts: 208 characters at byte 480, any
      name up to byte 352. */
  lemma LongestName(s: State, d: DirEntry, i: nat)
    requires DirKnown(s, d) && i < |s.kids[d]|
    ensures var p := StartIn(s, d, i) % BYTES_PER_SECTOR;
            && (KidOverruns(s, d, i) <==> |s.metas[s.kids[d][i]].name| > LongestFrom(p))
            && 208 <= LongestFrom(p) && (p <= 352 ==> 255 <= LongestFrom(p))
    ensures SCRATCH == 1024 && MAX_WINDOW_NAME == 208 && MAX_NAME == 255
  {
    hide StartIn, LongestFrom;
    StartMultiple(s, d, i);
    Multiples(StartIn(s, d, i));
    NameBound(|s.metas[s.kids[d][i]].name|, StartIn(s, d, i) % BYTES_PER_SECTOR);
  }

  ghost predicate ShortNames(s: State, d: DirEntry) {
    DirKnown(s, d) && forall k :: k in s.kids[d] ==> |s.metas[k].name| <= MAX_WINDOW_NAME
  }

  /** Names of up to 208 characters are always safe. */
  lemma ShortNamesFit(s: State, d: DirEntry, offset: nat)
    requires ShortNames(s, d)
    ensures !DirOverruns(s, d, offset)
  {
    hide KidOverruns;
    forall i: nat ensures !KidOverruns(s, d, i) {
      ShortKid(s, d, i);
    }
  }

  /** Every name in the tree has at most 208 characters. */
  ghost predicate ShortTree(s: State) {
    forall e :: e in s.metas && e != s.root ==> |s.metas[e].name| <= MAX_WINDOW_NAME
  }

  /** So a tree of such names is safe everywhere. */
  lemma ShortTreeFits(s: State)
    requires Tree(s) && ShortTree(s)
    ensures AllFit(s)
  {
    hide Up, Unique, KidOverruns;
    forall d | d in s.metas && s.metas[d].isDir ensures NoOverrun(s, d) {
      assert DownAt(s, d);
      forall i: nat ensures !KidOverruns(s, d, i) {
        ShortKid(s, d, i);
      }
    }
  }

  lemma ShortKid(s: State, d: DirEntry, i: nat)
    requires ShortNames(s, d)
    ensures !KidOverruns(s, d, i)
  {
    hide KidOverruns, StartIn, LongestFrom;
    if i < |s.kids[d]| {
      LongestName(s, d, i);
    } else {
      OutOfList(s, d, i);
    }
  }

  lemma OutOfList(s: State, d: DirEntry, i: nat)
    requires DirKnown(s, d) && i >= |s.kids[d]|
    ensures !KidOverruns(s, d, i)
  {
  }

  ghost predicate NameLengths(s: State, d: DirEntry, lengths: seq<nat>) {
    && DirKnown(s, d) && |s.kids[d]| == |lengths|
    && forall i :: 0 <= i < |lengths| ==> |s.metas[s.kids[d][i]].name| == lengths[i]
  }

  /** A root that cannot be read: 96 and six times 64 bytes, and then a name of 209 characters, whose 576 bytes
      start at byte 480. */
  lemma LongNameOverruns(s: State)
    requires NameLengths(s, s.root, [14, 1, 1, 1, 1, 1, 1, 209])
    ensures StartIn(s, s.root, 7) == 480 && DirOverruns(s, s.root, 0)
  {
    hide StartIn;
    StartNext(s, s.root, 0);
    for i := 0 to 7
      invariant StartIn(s, s.root, i) == if i == 0 then 0 else 32 + 64 * i
    {
      StartNext(s, s.root, i);
    }
    assert KidOverruns(s, s.root, 7) && StartsThere(s, s.root, 7, 0);
  }

  /** The same names in another order: with the long one in front even 255 characters are read. */
  lemma LongNameFits(s: State)
    requires NameLengths(s, s.root, [255, 14, 1, 1, 1, 1, 1, 1])
    ensures !DirOverruns(s, s.root, 0)
  {
    hide KidOverruns, StartIn, LongestFrom;
    StartNext(s, s.root, 0);
    forall i: nat ensures !KidOverruns(s, s.root, i) {
      if i < 8 {
        LongestName(s, s.root, i);
      } else {
        OutOfList(s, s.root, i);
      }
    }
  }
}
