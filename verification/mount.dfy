/** An independent FAT32 reader that sees only the sectors of an image, after sections 4, 6 and 7 of the FAT
    specification, and the proof that it reads back the tree in memory. */
module Mount {
  import opened Words
  import opened Layout
  import opened Entries
  import opened Cluster
  import opened DirSector
  import opened DirReader
  import opened FsState
  import opened FsRoom
  import opened FsCover
  import opened FsImage
  import opened Scratch
  import BootSector
  import DirStream
  import FsPath
  import FsRemove
  import FsInsert
  import FsBounds

  type Image = nat -> Option<Sector>

  /** A file system as its user sees it. */
  datatype Node =
    | FileNode(size: u32, contents: seq<Option<Sector>>)
    | DirNode(entries: seq<Named>)
    | Unreadable
  datatype Named = Named(name: Name, short: seq<u8>, attr: u8, time: u16, date: u16, node: Node)

  // ---- the reader ----

  const END_OF_CHAIN := 0x0FFF_FFF8

  /** The shape of a volume. */
  datatype Volume = Volume(sectorsPerCluster: nat, reserved: nat, fats: nat, fatSectors: nat, total: nat,
                           rootCluster: u32)

  /** The boot sector is one of FAT32, with sectors of 512 bytes. */
  predicate Fat32(b: Sector) {
    && b[510] == 0x55 && b[511] == 0xAA && Word16(b[11..13]) == 512 && b[13] > 0 && b[16] > 0
    && Word16(b[17..19]) == 0 && Word16(b[19..21]) == 0 && Word16(b[22..24]) == 0
  }

  function VolumeOf(b: Sector): Volume {
    Volume(b[13], Word16(b[14..16]), b[16], Word32(b[36..40]), Word32(b[32..36]), Word32(b[44..48]))
  }

  function FirstData(v: Volume): nat {
    v.reserved + v.fats * v.fatSectors
  }

  function ClusterCount(v: Volume): nat
    requires v.sectorsPerCluster > 0
  {
    if v.total < FirstData(v) then 0 else (v.total - FirstData(v)) / v.sectorsPerCluster
  }

  /** A FAT entry is 28 bits wide; the first copy of the FAT is used. */
  function FatEntry(image: Image, v: Volume, c: nat): int {
    var s := image(v.reserved + c / 128);
    if s.None? then END_OF_CHAIN else Word32(s.value[c % 128 * 4..c % 128 * 4 + 4]) % 0x1000_0000
  }

  function Follow(image: Image, v: Volume, c: nat, fuel: nat): (cs: seq<int>)
    ensures |cs| >= 1 && forall i :: 0 <= i < |cs| ==> cs[i] >= 0
    decreases fuel
  {
    var n := FatEntry(image, v, c);
    if n >= END_OF_CHAIN || n < 2 || fuel == 0 then [c] else [c] + Follow(image, v, n, fuel - 1)
  }

  lemma DivBelow(k: nat, n: nat, m: nat)
    requires n > 0 && k < n * m
    ensures k / n < m
  {
    var q := k / n;
    Grows(m, q, n);
    assert n * q <= k;
  }

  lemma Grows(m: nat, q: nat, n: nat)
    ensures m <= q ==> n * m <= n * q
  {
  }

  /** Sector `k` of a chain. */
  function ChainSector(v: Volume, cs: seq<int>, k: nat): int
    requires v.sectorsPerCluster > 0 && k < v.sectorsPerCluster * |cs|
  {
    DivBelow(k, v.sectorsPerCluster, |cs|);
    FirstData(v) + (cs[k / v.sectorsPerCluster] - 2) * v.sectorsPerCluster + k % v.sectorsPerCluster
  }

  /** The first `n` sectors of a chain, or all of them if there are fewer. */
  function ReadRun(image: Image, v: Volume, cs: seq<int>, n: nat): (r: seq<Option<Sector>>)
    requires v.sectorsPerCluster > 0
  {
    var all := v.sectorsPerCluster * |cs|;
    seq<Option<Sector>>(if n < all then n else all, k requires 0 <= k < all =>
      var at := ChainSector(v, cs, k); if at >= 0 then image(at) else None)
  }

  /** The bytes of some sectors, one after the other. */
  function Flat(sectors: seq<Option<Sector>>): seq<u8> {
    if sectors == [] then [] else (if sectors[0].Some? then sectors[0].value else []) + Flat(sectors[1..])
  }

  predicate AllRead(sectors: seq<Option<Sector>>) {
    forall k :: 0 <= k < |sectors| ==> sectors[k].Some?
  }

  /** The bytes of a directory, unless one of its sectors cannot be read. */
  function DirData(image: Image, v: Volume, cluster: nat): Option<seq<u8>>
    requires v.sectorsPerCluster > 0
  {
    var cs := Follow(image, v, cluster, ClusterCount(v));
    var sectors := ReadRun(image, v, cs, v.sectorsPerCluster * |cs|);
    if AllRead(sectors) then Some(Flat(sectors)) else None
  }

  function FileData(image: Image, v: Volume, cluster: nat, size: u32): seq<Option<Sector>>
    requires v.sectorsPerCluster > 0
  {
    ReadRun(image, v, Follow(image, v, cluster, ClusterCount(v)), CeilDiv(size, 512))
  }

  /** The file or directory of a record. `above` is the cluster that the second entry of a directory has to name, none
      for the root, which has no such entries. */
  function ReadNode(image: Image, v: Volume, r: Record, above: Option<u32>, fuel: nat): Node
    requires v.sectorsPerCluster > 0
    decreases fuel, 1, 0
  {
    if !IsDir(r) then FileNode(r.size, FileData(image, v, r.cluster, r.size))
    else if fuel == 0 then DirNode([])
    else
      var data := DirData(image, v, r.cluster);
      if data.None? || (above.Some? && !DotsLead(data.value, r, above.value)) then Unreadable
      else
        var up := if above.None? then 0 else r.cluster;
        DirNode(ReadNodes(image, v, ParseDir(data.value, NoRun), up, fuel - 1))
  }

  function ReadNodes(image: Image, v: Volume, rs: seq<Record>, above: u32, fuel: nat): seq<Named>
    requires v.sectorsPerCluster > 0
    decreases fuel, 2, |rs|
  {
    if rs == [] then [] else
    [Named(rs[0].name, rs[0].short, rs[0].attr, rs[0].time, rs[0].date,
           ReadNode(image, v, rs[0], Some(above), fuel))]
    + ReadNodes(image, v, rs[1..], above, fuel)
  }

  /** The whole file system, from the boot sector on. */
  function MountImage(image: Image): Node {
    if image(0).None? || !Fat32(image(0).value) then Unreadable else
    var v := VolumeOf(image(0).value);
    ReadNode(image, v, Record([], [], 0x10, 0, 0, v.rootCluster, 0), None, ClusterCount(v))
  }

  // ---- the tree in memory, as its user should see it ----

  ghost function FileContents(s: State, e: DirEntry, src: Source): seq<Option<Sector>>
    requires e in s.paths && e in s.metas
  {
    var size := s.metas[e].size;
    seq<Option<Sector>>(CeilDiv(size, BYTES_PER_SECTOR), k requires 0 <= k < CeilDiv(size, BYTES_PER_SECTOR) =>
      src.fetch(FsPath.Join(s.paths[e]), s.metas[e].rev, k * BYTES_PER_SECTOR, size))
  }

  ghost function NodeOf(s: State, e: DirEntry, src: Source): Node
    requires Tree(s) && e in s.paths
    decreases UnderSet(s, e), 1, 0
  {
    if s.metas[e].isDir then DirNode(NodesOf(s, e, s.kids[e], src))
        else FileNode(s.metas[e].size, FileContents(s, e, src))
  }

  ghost function NodesOf(s: State, d: DirEntry, ks: seq<DirEntry>, src: Source): seq<Named>
    requires Tree(s) && d in s.paths && forall k :: k in ks ==> k in s.kids[d]
    decreases UnderSet(s, d), 0, |ks|
  {
    if ks == [] then [] else
    KidOf(s, d, ks[0]);
    var m := s.metas[ks[0]];
    [Named(m.name, m.shortName, if m.isDir then 0x11 else 0x01, m.wrtTime, m.wrtDate, NodeOf(s, ks[0], src))]
    + NodesOf(s, d, ks[1..], src)
  }

  lemma KidOf(s: State, d: DirEntry, k: DirEntry)
    requires Tree(s) && d in s.paths && k in s.kids[d]
    ensures k in s.parents && s.parents[k] == d && k in s.paths && UnderSet(s, k) < UnderSet(s, d)
    ensures DirStream.GoodMeta(s.metas[k])
  {
    hide Unique, DirStream.GoodMeta, UnderSet;
    assert DownAt(s, d);
    assert UpAt(s, k);
    FsInsert.DeeperChild(s, d, k);
  }

  // ---- the volume read back ----

  const VOLUME := Volume(64, 32, 2, 261633, 0x1000_0000, 2)

  lemma VolumeNumbersAgree()
    ensures VOLUME.sectorsPerCluster == SECTORS_PER_CLUSTER && VOLUME.reserved == RESERVED_SECTORS
    ensures VOLUME.rootCluster == ROOT_CLUSTER && FirstData(VOLUME) == DATA_START && VOLUME.total == TOTAL_SECTORS
    ensures ClusterCount(VOLUME) == N_CLUSTERS
  {
    VolumeNumbers();
    assert VOLUME.fats * VOLUME.fatSectors == 523266;
    SameQuotient(VOLUME.total - FirstData(VOLUME), VOLUME.sectorsPerCluster, 64);
  }

  lemma SameQuotient(a: int, n: int, m: int)
    requires n == m > 0
    ensures a / n == a / m && a % n == a % m
  {
  }

  /** The boot sector says what the volume is like. */
  lemma BootRead()
    ensures Fat32(BootSector.Boot()) && VolumeOf(BootSector.Boot()) == VOLUME
  {
    hide BootSector.Boot;
    BootSector.BootFields();
  }

  lemma BootDelivered(s: State, fat: seq<int>, owners: seq<DirEntry?>, src: Source)
    requires Sound(s, fat, owners)
    ensures ImageOf(s, fat, owners, src)(0) == Some(BootSector.Boot())
  {
    hide BootSector.Boot, Sound;
    VolumeNumbers();
  }

  // ---- chains read back ----

  /** The disk as read_sector delivers it. */
  ghost function ImageOf(s: State, fat: seq<int>, owners: seq<DirEntry?>, src: Source): Image
    requires Sound(s, fat, owners)
  {
    (n: nat) => if n < TOTAL_SECTORS then Delivered(s, fat, owners, n, src) else None
  }

  lemma FirstCopy(k: nat)
    requires k < FAT_SECTORS
    ensures RESERVED_SECTORS <= RESERVED_SECTORS + k < DATA_START < TOTAL_SECTORS
    ensures (RESERVED_SECTORS + k - RESERVED_SECTORS) % FAT_SECTORS == k
  {
  }

  lemma FatRead(s: State, fat: seq<int>, owners: seq<DirEntry?>, src: Source, c: nat)
    requires Sound(s, fat, owners) && c < FAT_LENGTH
    ensures FatEntry(ImageOf(s, fat, owners, src), VOLUME, c) == fat[c] % 0x1000_0000
  {
    hide Tree, Ownership, FatSector;
    FatCellRead(fat, c);
    FirstCopy(c / 128);
  }

  /** Following the FAT from any cluster of a chain gives the rest of the chain. */
  lemma {:induction false} ChainRead(s: State, fat: seq<int>, owners: seq<DirEntry?>, src: Source, cs: seq<int>,
                                     i: nat, fuel: nat)
    requires Sound(s, fat, owners) && IsChain(fat, cs) && i < |cs| <= fuel + i + 1
    ensures cs[i] >= 0 && Follow(ImageOf(s, fat, owners, src), VOLUME, cs[i], fuel) == cs[i..]
    decreases |cs| - i
  {
    hide Tree, Ownership, FatEntry, ImageOf, Distinct;
    assert InHeap(cs[i]);
    FatRead(s, fat, owners, src, cs[i]);
    if i + 1 < |cs| {
      assert InHeap(cs[i + 1]);
      ChainRead(s, fat, owners, src, cs, i + 1, fuel - 1);
      assert cs[i..] == [cs[i]] + cs[i + 1..];
    } else {
      assert cs[i..] == [cs[i]];
    }
  }

  lemma ChainFound(s: State, fat: seq<int>, owners: seq<DirEntry?>, src: Source, e: DirEntry)
    requires Sound(s, fat, owners) && e in s.chains
    ensures s.chains[e] != [] && s.chains[e][0] >= 0
    ensures Follow(ImageOf(s, fat, owners, src), VOLUME, s.chains[e][0], N_CLUSTERS) == s.chains[e]
  {
    hide Tree, ImageOf, Follow;
    assert IsChain(fat, s.chains[e]);
    ChainRead(s, fat, owners, src, s.chains[e], 0, N_CLUSTERS);
    assert s.chains[e][0..] == s.chains[e];
  }

  /** Sector `k` of a chain. */
  function SectorAt(cs: seq<int>, k: nat): int
    requires k < SECTORS_PER_CLUSTER * |cs|
  {
    DATA_START + (cs[k / SECTORS_PER_CLUSTER] - 2) * SECTORS_PER_CLUSTER + k % SECTORS_PER_CLUSTER
  }

  lemma SectorAtIs(cs: seq<int>, k: nat)
    requires k < SECTORS_PER_CLUSTER * |cs|
    ensures VOLUME.sectorsPerCluster == SECTORS_PER_CLUSTER && ChainSector(VOLUME, cs, k) == SectorAt(cs, k)
  {
    VolumeNumbersAgree();
    SameQuotient(k, VOLUME.sectorsPerCluster, SECTORS_PER_CLUSTER);
  }

  /** What is read of a chain, sector by sector. */
  lemma RunRead(image: Image, cs: seq<int>, n: nat)
    ensures VOLUME.sectorsPerCluster == SECTORS_PER_CLUSTER
    ensures var r := ReadRun(image, VOLUME, cs, n); var all := SECTORS_PER_CLUSTER * |cs|;
            && |r| == (if n < all then n else all)
            && forall k: nat :: k < |r| && SectorAt(cs, k) >= 0 ==> r[k] == image(SectorAt(cs, k))
  {
    hide ChainSector, SectorAt;
    var r := ReadRun(image, VOLUME, cs, n);
    forall k: nat | k < |r| && SectorAt(cs, k) >= 0 ensures r[k] == image(SectorAt(cs, k)) {
      SectorAtIs(cs, k);
    }
  }

  lemma SameSector(cs: seq<int>, k: nat)
    requires k < SECTORS_PER_CLUSTER * |cs|
    ensures k * BYTES_PER_SECTOR < |cs| * BYTES_PER_CLUSTER && k * BYTES_PER_SECTOR % BYTES_PER_SECTOR == 0
    ensures SectorAt(cs, k) == SectorOf(cs, k * BYTES_PER_SECTOR)
  {
    OffsetParts(k / SECTORS_PER_CLUSTER, k % SECTORS_PER_CLUSTER);
    assert k / SECTORS_PER_CLUSTER * BYTES_PER_CLUSTER + k % SECTORS_PER_CLUSTER * BYTES_PER_SECTOR ==
           k * BYTES_PER_SECTOR;
  }

  /** Sector `k` of the chain of an entry holds bytes 512 k of the entry, if it is delivered at all. */
  lemma EntrySector(s: State, fat: seq<int>, owners: seq<DirEntry?>, src: Source, e: DirEntry, k: nat)
    requires Sound(s, fat, owners) && e in s.chains && k < SECTORS_PER_CLUSTER * |s.chains[e]|
    ensures e in s.metas && e in s.paths && KidsGood(s, e) && ParentGood(s, e) && k * BYTES_PER_SECTOR < TWO_32
    ensures SectorAt(s.chains[e], k) >= 0
    ensures ImageOf(s, fat, owners, src)(SectorAt(s.chains[e], k)) ==
            if !s.metas[e].isDir then FileSector(s, e, k * BYTES_PER_SECTOR, src)
            else if DirOverruns(s, e, k * BYTES_PER_SECTOR) then None
            else Some(Window(StreamOf(s, e), k * BYTES_PER_SECTOR))
  {
    hide DirOverruns, Up, Down, Unique, Located, SectorOf, StreamOf, FileSector, SectorAt, KidsGood, ParentGood;
    StreamDefined(s, fat, owners, e);
    SameSector(s.chains[e], k);
    AddressBack(fat, owners, s.chains, e, k * BYTES_PER_SECTOR);
    AddressForth(fat, owners, s.chains, SectorOf(s.chains[e], k * BYTES_PER_SECTOR));
  }

  // ---- the bytes of a directory ----

  /** Bytes [base, base + n) of a stream followed by zeros for ever. */
  ghost function Spread(st: seq<u8>, base: nat, n: nat): (b: seq<u8>)
    ensures |b| == n
  {
    seq<u8>(n, i requires 0 <= i => if base + i < |st| then st[base + i] else 0)
  }

  /** `sectors` are the windows of the stream from `base` on. */
  ghost predicate Windows(sectors: seq<Option<Sector>>, st: seq<u8>, base: nat) {
    sectors != [] ==> sectors[0] == Some(Window(st, base)) && Windows(sectors[1..], st, base + BYTES_PER_SECTOR)
  }

  lemma {:induction false} WindowsFrom(sectors: seq<Option<Sector>>, st: seq<u8>, j: nat)
    requires j <= |sectors| && forall k :: j <= k < |sectors| ==> sectors[k] == Some(Window(st, k * BYTES_PER_SECTOR))
    ensures Windows(sectors[j..], st, j * BYTES_PER_SECTOR)
    decreases |sectors| - j
  {
    hide Window;
    if j < |sectors| {
      WindowsFrom(sectors, st, j + 1);
      assert sectors[j..][1..] == sectors[j + 1..];
    }
  }

  lemma {:induction false} FlatWindows(sectors: seq<Option<Sector>>, st: seq<u8>, base: nat)
    requires Windows(sectors, st, base)
    ensures Flat(sectors) == Spread(st, base, BYTES_PER_SECTOR * |sectors|)
  {
    if sectors != [] {
      FlatWindows(sectors[1..], st, base + BYTES_PER_SECTOR);
    }
  }

  lemma FlatStream(sectors: seq<Option<Sector>>, st: seq<u8>)
    requires forall k :: 0 <= k < |sectors| ==> sectors[k] == Some(Window(st, k * BYTES_PER_SECTOR))
    requires |st| <= BYTES_PER_SECTOR * |sectors|
    ensures Flat(sectors) == st + Zeros(BYTES_PER_SECTOR * |sectors| - |st|)
  {
    hide Window, Flat, Windows, Spread;
    WindowsFrom(sectors, st, 0);
    assert sectors[0..] == sectors;
    FlatWindows(sectors, st, 0);
    Padded(st, BYTES_PER_SECTOR * |sectors|);
  }

  lemma FlatCut(sectors: seq<Option<Sector>>, st: seq<u8>)
    requires forall k :: 0 <= k < |sectors| ==> sectors[k] == Some(Window(st, k * BYTES_PER_SECTOR))
    requires BYTES_PER_SECTOR * |sectors| <= |st|
    ensures Flat(sectors) == st[..BYTES_PER_SECTOR * |sectors|]
  {
    hide Window, Flat, Windows;
    WindowsFrom(sectors, st, 0);
    assert sectors[0..] == sectors;
    FlatWindows(sectors, st, 0);
  }

  lemma Padded(st: seq<u8>, n: nat)
    requires |st| <= n
    ensures Spread(st, 0, n) == st + Zeros(n - |st|)
  {
  }

  /** The entry is delivered whole: its chain is long enough, and in a directory no child overruns. */
  ghost predicate Whole(s: State, e: DirEntry) {
    CoveredAt(s, e) && (s.metas[e].isDir ==> NoOverrun(s, e))
  }

  /** In a directory whose chain is long enough, a child that overruns spoils a sector. */
  lemma SpoiltSector(s: State, d: DirEntry, i: nat) returns (k: nat)
    requires KidsGood(s, d) && ParentGood(s, d) && s.metas[d].isDir && CoveredAt(s, d) && KidOverruns(s, d, i)
    ensures k < SECTORS_PER_CLUSTER * |s.chains[d]| && DirOverruns(s, d, k * BYTES_PER_SECTOR)
  {
    hide StreamOf, StartIn, KidsGood, ParentGood, FsRoom.Room, FsRoom.Base;
    KidInList(s, d, i);
    StartInside(s, d, i);
    StreamLength(s, d);
    DirCovered(s, d);
    k := StartIn(s, d, i) / BYTES_PER_SECTOR;
    assert StartsThere(s, d, i, k * BYTES_PER_SECTOR);
  }

  lemma KidInList(s: State, d: DirEntry, i: nat)
    requires KidOverruns(s, d, i)
    ensures DirKnown(s, d) && i < |s.kids[d]|
  {
  }

  /** A directory read cluster by cluster is its stream, padded with zeros, when it is delivered whole; otherwise a
      sector is missing, or it is cut off where its chain ends. */
  lemma DirDataRead(s: State, fat: seq<int>, owners: seq<DirEntry?>, src: Source, d: DirEntry)
    requires Sound(s, fat, owners) && d in s.metas && d in s.chains && s.metas[d].isDir
    requires KidsGood(s, d) && ParentGood(s, d)
    ensures s.chains[d] != [] && s.chains[d][0] >= 0
    ensures var data := DirData(ImageOf(s, fat, owners, src), VOLUME, s.chains[d][0]);
            && (Whole(s, d) ==> data.Some? && exists padding: nat :: data.value == StreamOf(s, d) + Zeros(padding))
            && (!Whole(s, d) && data.Some? ==> data.value < StreamOf(s, d) && |data.value| >= BYTES_PER_CLUSTER)
  {
    hide Sound, ImageOf, StreamOf, Flat, Window, Follow, KidsGood, ParentGood, Room, SectorAt, Base, DirOverruns,
         KidOverruns, CoveredAt, ReadRun, ClusterCount;
    var image, cs := ImageOf(s, fat, owners, src), s.chains[d];
    ChainFound(s, fat, owners, src, d);
    VolumeNumbersAgree();
    var n := SECTORS_PER_CLUSTER * |cs|;
    RunRead(image, cs, n);
    var sectors := ReadRun(image, VOLUME, cs, n);
    assert |sectors| == n;
    forall k | 0 <= k < n
      ensures sectors[k] ==
              if DirOverruns(s, d, k * BYTES_PER_SECTOR) then None
              else Some(Window(StreamOf(s, d), k * BYTES_PER_SECTOR))
    {
      EntrySector(s, fat, owners, src, d, k);
    }
    StreamLength(s, d);
    DirCovered(s, d);
    if Whole(s, d) {
      NoneSpoilt(s, d);
      FlatStream(sectors, StreamOf(s, d));
    } else if CoveredAt(s, d) {
      var i: nat :| KidOverruns(s, d, i);
      var k := SpoiltSector(s, d, i);
      assert sectors[k].None?;
    } else if AllRead(sectors) {
      FlatCut(sectors, StreamOf(s, d));
    }
  }

  lemma NoneSpoilt(s: State, d: DirEntry)
    requires NoOverrun(s, d)
    ensures forall offset: nat :: !DirOverruns(s, d, offset)
  {
    hide KidOverruns, StartsThere;
  }

  lemma DirCovered(s: State, d: DirEntry)
    requires KidsGood(s, d) && s.metas[d].isDir
    ensures CoveredAt(s, d) <==> Base(s, d) + Room(s.metas, s.kids[d]) <= |s.chains[d]| * BYTES_PER_CLUSTER
  {
    hide DirStream.GoodMeta, Room, Base;
  }

  // ---- the contents of a file ----

  /** A file read along its chain has its sectors in order, all of them exactly when the chain is long enough. */
  lemma FileDataRead(s: State, fat: seq<int>, owners: seq<DirEntry?>, src: Source, e: DirEntry)
    requires Sound(s, fat, owners) && e in s.metas && e in s.chains && e in s.paths && !s.metas[e].isDir
    requires DirKnown(s, e)
    ensures s.chains[e] != [] && s.chains[e][0] >= 0
    ensures FileData(ImageOf(s, fat, owners, src), VOLUME, s.chains[e][0], s.metas[e].size) ==
            FileContents(s, e, src) <==>
            CoveredAt(s, e)
  {
    hide Sound, ImageOf, Follow, Room, SectorAt, FsPath.Join, KidsGood, ParentGood, StreamOf, ReadRun, ClusterCount;
    var image, cs, size := ImageOf(s, fat, owners, src), s.chains[e], s.metas[e].size;
    ChainFound(s, fat, owners, src, e);
    VolumeNumbersAgree();
    var n := CeilDiv(size, BYTES_PER_SECTOR);
    RunRead(image, cs, n);
    assert CoveredAt(s, e) <==> n <= SECTORS_PER_CLUSTER * |cs|;
    if CoveredAt(s, e) {
      assert |ReadRun(image, VOLUME, cs, n)| == n;
      forall k | 0 <= k < n ensures ReadRun(image, VOLUME, cs, n)[k] == FileContents(s, e, src)[k] {
        EntrySector(s, fat, owners, src, e, k);
      }
    } else {
      assert |ReadRun(image, VOLUME, cs, n)| < n == |FileContents(s, e, src)|;
    }
  }

  // ---- the tree read back ----

  ghost function RecordOf(s: State, e: DirEntry): Record
    requires e in s.metas && e in s.chains && s.chains[e] != [] && 0 <= s.chains[e][0] < TWO_32
  {
    RecordFor(s.metas[e], s.chains[e][0])
  }

  ghost function RecordsOf(s: State, d: DirEntry): (rs: seq<Record>)
    requires KidsGood(s, d)
    ensures |rs| == |s.kids[d]|
  {
    seq(|s.kids[d]|, i requires 0 <= i < |s.kids[d]| => RecordOf(s, s.kids[d][i]))
  }

  /** The cluster that the second entry of a directory names: the one above it, 0 for the root. */
  ghost function Above(s: State, d: DirEntry): Option<u32>
    requires ParentGood(s, d)
  {
    if d == s.root then None
    else if s.parents[d] == s.root then Some(0)
    else Some(s.chains[s.parents[d]][0])
  }

  /** The records of a directory are those of its children, in order, and its dot entries lead to itself and to the
      directory above it. */
  lemma RecordsRead(s: State, d: DirEntry, padding: nat)
    requires KidsGood(s, d) && ParentGood(s, d)
    ensures ParseDir(StreamOf(s, d) + Zeros(padding), NoRun) == RecordsOf(s, d)
    ensures d != s.root ==> DotsLead(StreamOf(s, d) + Zeros(padding), RecordOf(s, d), Above(s, d).value)
  {
    hide ParseDir, DirStream.EntryBytes, DirStream.GoodMeta, RecordFor, DotBytes, DirBytes, DotsLead;
    var ks := s.kids[d];
    var metas := seq<EntryMetaData>(|ks|, i requires 0 <= i < |ks| => s.metas[ks[i]]);
    var clusters := seq<u32>(|ks|, i requires 0 <= i < |ks| => s.chains[ks[i]][0]);
    var parent := if d == s.root || s.parents[d] == s.root then 0 else s.chains[s.parents[d]][0];
    DirRead(RecordsOf(s, d), metas, clusters, PartsOf(s, d), DotsAt(s, d), s.metas[d], s.chains[d][0], parent, padding);
  }

  /** A directory that is cut short loses an entry at least. */
  lemma RecordsCut(s: State, d: DirEntry, b: seq<u8>)
    requires KidsGood(s, d) && ParentGood(s, d) && b < StreamOf(s, d) && |b| >= 64
    ensures |ParseDir(b, NoRun)| < |s.kids[d]|
  {
    hide ParseDir, DirStream.EntryBytes, DirStream.GoodMeta, DotBytes, DirBytes;
    var ks := s.kids[d];
    var metas := seq<EntryMetaData>(|ks|, i requires 0 <= i < |ks| => s.metas[ks[i]]);
    var clusters := seq<u32>(|ks|, i requires 0 <= i < |ks| => s.chains[ks[i]][0]);
    var parent := if d == s.root || s.parents[d] == s.root then 0 else s.chains[s.parents[d]][0];
    DirCut(metas, clusters, PartsOf(s, d), DotsAt(s, d), s.metas[d], s.chains[d][0], parent, b);
  }

  /** An entry and all below it are delivered whole. */
  ghost predicate WholeBelow(s: State, e: DirEntry)
    requires e in s.paths
  {
    forall x :: x in UnderSet(s, e) ==> Whole(s, x)
  }

  lemma FileAlone(s: State, e: DirEntry)
    requires Tree(s) && e in s.paths && !s.metas[e].isDir
    ensures WholeBelow(s, e) <==> Whole(s, e)
  {
    hide Up, Down, Whole;
    forall x | x in UnderSet(s, e) ensures x == e {
      if s.paths[e] < s.paths[x] {
        FsPath.AboveIsDir(s, e, x);
      }
    }
    assert e in UnderSet(s, e);
  }

  ghost predicate KidsWhole(s: State, ks: seq<DirEntry>)
    requires forall k :: k in ks ==> k in s.paths
  {
    forall k :: k in ks ==> WholeBelow(s, k)
  }

  lemma KidsLive(s: State, d: DirEntry)
    requires Tree(s) && d in s.paths
    ensures forall k :: k in s.kids[d] ==> k in s.paths && s.paths[d] <= s.paths[k]
  {
    hide Up, Unique;
    assert DownAt(s, d);
    forall k | k in s.kids[d] ensures k in s.paths && s.paths[d] <= s.paths[k] {
      KidOf(s, d, k);
      ParentOf(s, k);
    }
  }

  lemma DirAndKids(s: State, d: DirEntry)
    requires Tree(s) && d in s.paths
    ensures forall k :: k in s.kids[d] ==> k in s.paths
    ensures WholeBelow(s, d) <==> Whole(s, d) && KidsWhole(s, s.kids[d])
  {
    hide Up, Down, Unique, Whole;
    KidsLive(s, d);
    assert d in UnderSet(s, d);
    if Whole(s, d) && KidsWhole(s, s.kids[d]) {
      forall x | x in UnderSet(s, d) ensures Whole(s, x) {
        if x != d {
          BelowChild(s, d, x);
          var k :| k in s.kids[d] && k in s.paths && Under(s, k, x);
          assert WholeBelow(s, k) && x in UnderSet(s, k);
        }
      }
    }
    if WholeBelow(s, d) {
      forall k, x | k in s.kids[d] && x in UnderSet(s, k) ensures Whole(s, x) {
        assert x in UnderSet(s, d);
      }
    }
  }

  lemma {:induction false} ReadCount(image: Image, rs: seq<Record>, above: u32, fuel: nat)
    ensures |ReadNodes(image, VOLUME, rs, above, fuel)| == |rs|
  {
    if rs != [] {
      ReadCount(image, rs[1..], above, fuel);
    }
  }

  lemma {:induction false} NodeCount(s: State, d: DirEntry, ks: seq<DirEntry>, src: Source)
    requires Tree(s) && d in s.paths && forall k :: k in ks ==> k in s.kids[d]
    ensures |NodesOf(s, d, ks, src)| == |ks|
  {
    hide Tree, NodeOf;
    if ks != [] {
      NodeCount(s, d, ks[1..], src);
    }
  }

  /** `r` and `above` are what a reader knows of `e` before it reads it. */
  ghost predicate Known(s: State, e: DirEntry, r: Record, above: Option<u32>) {
    && e in s.metas && e in s.chains && s.chains[e] != [] && r.cluster == s.chains[e][0]
    && (IsDir(r) <==> s.metas[e].isDir) && (!IsDir(r) ==> r.size == s.metas[e].size)
    && ParentGood(s, e) && above == Above(s, e)
    && (e != s.root ==> r.time == s.metas[e].wrtTime && r.date == s.metas[e].wrtDate)
  }

  lemma LinkedToo(s: State, d: DirEntry, r: Record, above: Option<u32>, b: seq<u8>)
    requires Known(s, d, r, above) && d != s.root && 0 <= s.chains[d][0] < TWO_32
    requires DotsLead(b, RecordOf(s, d), Above(s, d).value)
    ensures above.Some? && DotsLead(b, r, above.value)
  {
    hide TakeShort;
  }

  /** A reader of depth `fuel` gets back entry `e` and all below it exactly when they are delivered whole. */
  lemma {:induction false} NodeRead(s: State, fat: seq<int>, owners: seq<DirEntry?>, src: Source, e: DirEntry,
                                    r: Record, above: Option<u32>, fuel: nat)
    requires Sound(s, fat, owners) && e in s.paths && |Live(s)| <= fuel + |s.paths[e]| && Known(s, e, r, above)
    ensures ReadNode(ImageOf(s, fat, owners, src), VOLUME, r, above, fuel) == NodeOf(s, e, src) <==> WholeBelow(s, e)
    decreases UnderSet(s, e), 1, 0
  {
    hide Up, Down, Unique, Ownership, ImageOf, FileData, DirData, FileContents, ParseDir, StreamOf, KidsGood,
         ParentGood, Whole, WholeBelow, KidsWhole, UnderSet, RecordOf, DotsLead;
    StreamDefined(s, fat, owners, e);
    if IsDir(r) {
      FsBounds.PathDepth(s, e);
      DirAndKids(s, e);
      DirDataRead(s, fat, owners, src, e);
      var data := DirData(ImageOf(s, fat, owners, src), VOLUME, s.chains[e][0]);
      if Whole(s, e) {
        var padding: nat :| data.value == StreamOf(s, e) + Zeros(padding);
        RecordsRead(s, e, padding);
        if e != s.root {
          LinkedToo(s, e, r, above, data.value);
        }
        NodesRead(s, fat, owners, src, e, s.kids[e], RecordsOf(s, e), fuel - 1);
      } else if data.Some? {
        RecordsCut(s, e, data.value);
        ReadCount(ImageOf(s, fat, owners, src), ParseDir(data.value, NoRun), if above.None? then 0 else r.cluster,
                  fuel - 1);
        NodeCount(s, e, s.kids[e], src);
      }
    } else {
      KnownKids(s, e);
      FileAlone(s, e);
      FileWhole(s, e);
      FileDataRead(s, fat, owners, src, e);
    }
  }

  lemma FileWhole(s: State, e: DirEntry)
    requires KidsGood(s, e) && !s.metas[e].isDir
    ensures Whole(s, e) <==> CoveredAt(s, e)
  {
    hide CoveredAt;
  }

  lemma KnownKids(s: State, e: DirEntry)
    requires KidsGood(s, e)
    ensures DirKnown(s, e)
  {
  }

  /** The cluster that the children of a directory name as the one above them. */
  ghost function OwnCluster(s: State, d: DirEntry): u32
    requires KidsGood(s, d)
  {
    if d == s.root then 0 else s.chains[d][0]
  }

  lemma KidRecord(s: State, d: DirEntry, k: DirEntry)
    requires KidsGood(s, d) && k in s.kids[d] && k in s.parents && s.parents[k] == d && k != s.root
    ensures k in s.metas && k in s.chains && s.chains[k] != [] && 0 <= s.chains[k][0] < TWO_32
    ensures var r := RecordOf(s, k); var m := s.metas[k];
            && r.name == m.name && r.short == m.shortName && r.attr == (if m.isDir then 0x11 else 0x01)
            && r.time == m.wrtTime && r.date == m.wrtDate && Known(s, k, r, Some(OwnCluster(s, d)))
  {
    hide DirStream.GoodMeta;
  }

  lemma KidsWholeStep(s: State, ks: seq<DirEntry>)
    requires ks != [] && forall k :: k in ks ==> k in s.paths
    ensures KidsWhole(s, ks) <==> WholeBelow(s, ks[0]) && KidsWhole(s, ks[1..])
  {
    hide WholeBelow;
    assert forall k :: k in ks ==> k == ks[0] || k in ks[1..];
  }

  lemma SameCons<T>(a: T, x: seq<T>, b: T, y: seq<T>)
    ensures [a] + x == [b] + y <==> a == b && x == y
  {
    if [a] + x == [b] + y {
      assert ([a] + x)[0] == ([b] + y)[0] && ([a] + x)[1..] == ([b] + y)[1..];
    }
  }

  lemma {:induction false} NodesRead(s: State, fat: seq<int>, owners: seq<DirEntry?>, src: Source, d: DirEntry,
                                     ks: seq<DirEntry>, rs: seq<Record>, fuel: nat)
    requires Sound(s, fat, owners) && d in s.paths && |Live(s)| <= fuel + 1 + |s.paths[d]|
    requires (forall k :: k in ks ==> k in s.kids[d] && k in s.paths) && |rs| == |ks| && KidsGood(s, d)
    requires forall i :: 0 <= i < |ks| ==> rs[i] == RecordOf(s, ks[i])
    ensures ReadNodes(ImageOf(s, fat, owners, src), VOLUME, rs, OwnCluster(s, d), fuel) == NodesOf(s, d, ks, src) <==>
            KidsWhole(s, ks)
    decreases UnderSet(s, d), 0, |ks|
  {
    hide Up, Down, Unique, Ownership, ImageOf, UnderSet, ReadNode, NodeOf, DirStream.GoodMeta, Whole, WholeBelow,
         KidsGood, RecordOf, OwnCluster, Known;
    if ks != [] {
      var k, up := ks[0], OwnCluster(s, d);
      KidOf(s, d, k);
      ParentOf(s, k);
      KidRecord(s, d, k);
      assert rs[0] == RecordOf(s, k);
      NodeRead(s, fat, owners, src, k, rs[0], Some(up), fuel);
      NodesRead(s, fat, owners, src, d, ks[1..], rs[1..], fuel);
      KidsWholeStep(s, ks);
      var image, m, r := ImageOf(s, fat, owners, src), s.metas[k], rs[0];
      SameCons(Named(r.name, r.short, r.attr, r.time, r.date, ReadNode(image, VOLUME, r, Some(up), fuel)),
               ReadNodes(image, VOLUME, rs[1..], up, fuel),
               Named(m.name, m.shortName, if m.isDir then 0x11 else 0x01, m.wrtTime, m.wrtDate, NodeOf(s, k, src)),
               NodesOf(s, d, ks[1..], src));
    }
  }

  /** Every chain is long enough, and no directory has a child that overruns. */
  ghost predicate AllWhole(s: State) {
    Covered(s) && AllFit(s)
  }

  lemma AllBelowRoot(s: State)
    requires Tree(s)
    ensures s.root in s.paths && (WholeBelow(s, s.root) <==> AllWhole(s))
  {
    hide Up, Down, Unique, CoveredAt, NoOverrun;
    FsRemove.RootLive(s);
    forall x | x in s.paths ensures x in UnderSet(s, s.root) {
      assert s.paths[s.root] <= s.paths[x];
    }
  }

  /** The mount round trip: a reader that sees only the sectors that read_sector delivers gets back the tree in memory
      (names, kinds, file sizes and, file by file, the sectors of the contents in order) if and only if every chain is
      long enough and no directory has a child that overruns the scratch buffer. */
  lemma MountRead(s: State, fat: seq<int>, owners: seq<DirEntry?>, src: Source)
    requires Sound(s, fat, owners) && RootFirst(s)
    ensures s.root in s.paths
    ensures MountImage(ImageOf(s, fat, owners, src)) == NodeOf(s, s.root, src) <==> AllWhole(s)
  {
    hide Down, Unique, Ownership, AllWhole, WholeBelow, ImageOf, ReadNode, NodeOf, BootSector.Boot, Fat32, VolumeOf,
         ClusterCount;
    FsRemove.RootLive(s);
    FsBounds.LiveBound(fat, owners, s.chains);
    AllBelowRoot(s);
    BootDelivered(s, fat, owners, src);
    BootRead();
    VolumeNumbersAgree();
    NodeRead(s, fat, owners, src, s.root, Record([], [], 0x10, 0, 0, ROOT_CLUSTER, 0), None, N_CLUSTERS);
  }

  /** With names of at most 208 characters it is the chains alone. */
  lemma MountShort(s: State, fat: seq<int>, owners: seq<DirEntry?>, src: Source)
    requires Sound(s, fat, owners) && RootFirst(s) && ShortTree(s)
    ensures s.root in s.paths
    ensures MountImage(ImageOf(s, fat, owners, src)) == NodeOf(s, s.root, src) <==> Covered(s)
  {
    hide Tree, Ownership, Covered, AllFit, ShortTree, ImageOf, NodeOf;
    ShortTreeFits(s);
    MountRead(s, fat, owners, src);
  }
}
