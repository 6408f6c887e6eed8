/** The disk image that a tree and its clusters stand for, sector by sector (read_sector of dbfat.c). */
module FsImage {
  import opened Words
  import opened Layout
  import opened Entries
  import opened Cluster
  import opened FsState
  import BootSector
  import DirStream
  import FsRoom
  import DirSector
  import FsPath

  type Sector = b: seq<u8> | |b| == BYTES_PER_SECTOR witness Zeros(BYTES_PER_SECTOR)

  /** What the image is made from besides the tree: the outcome of reading a sector of a file (path, revision, offset,
      size) through the block cache. */
  datatype Source = Source(fetch: (seq<u16>, Rev, u32, u32) -> Option<Sector>)

  // ---- address translation ----

  function ClusterAt(sector: nat): nat
    requires DATA_START <= sector
  {
    2 + (sector - DATA_START) / SECTORS_PER_CLUSTER
  }

  function SectorInCluster(sector: nat): nat
    requires DATA_START <= sector
  {
    (sector - DATA_START) % SECTORS_PER_CLUSTER
  }

  ghost function IndexIn(cs: seq<int>, c: int): (i: nat)
    requires c in cs
    ensures i < |cs| && cs[i] == c
  {
    if cs[0] == c then 0 else 1 + IndexIn(cs[1..], c)
  }

  datatype Place = Place(entry: DirEntry, offset: nat)

  /** The entry whose bytes a data sector holds, and the offset of the first of them. */
  ghost function Located(fat: seq<int>, owners: seq<DirEntry?>, chains: Chains, sector: nat): Option<Place>
    requires |fat| == FAT_LENGTH && |owners| == N_CLUSTERS && Ownership(fat, owners, chains)
    requires DATA_START <= sector
  {
    var c := ClusterAt(sector);
    if !InHeap(c) || fat[c] == FAT_FREE then None else
    var e: DirEntry := owners[c];
    Some(Place(e, IndexIn(chains[e], c) * BYTES_PER_CLUSTER + SectorInCluster(sector) * BYTES_PER_SECTOR))
  }

  /** The sector that holds byte `o` of a chain. */
  ghost function SectorOf(cs: seq<int>, o: nat): int
    requires o < |cs| * BYTES_PER_CLUSTER
  {
    DATA_START + (cs[o / BYTES_PER_CLUSTER] - 2) * SECTORS_PER_CLUSTER + o % BYTES_PER_CLUSTER / BYTES_PER_SECTOR
  }

  lemma SectorParts(c: nat, k: nat)
    requires c >= 2 && k < SECTORS_PER_CLUSTER
    ensures var sector := DATA_START + (c - 2) * SECTORS_PER_CLUSTER + k;
            ClusterAt(sector) == c && SectorInCluster(sector) == k
  {
  }

  lemma IndexUnique(cs: seq<int>, i: nat)
    requires Distinct(cs) && i < |cs|
    ensures IndexIn(cs, cs[i]) == i
  {
  }

  lemma OffsetParts(i: nat, k: nat)
    requires k < SECTORS_PER_CLUSTER
    ensures var o := i * BYTES_PER_CLUSTER + k * BYTES_PER_SECTOR;
            o / BYTES_PER_CLUSTER == i && o % BYTES_PER_CLUSTER / BYTES_PER_SECTOR == k && o % BYTES_PER_SECTOR == 0
  {
  }

  lemma AlignedOffset(o: nat)
    ensures o / BYTES_PER_CLUSTER * BYTES_PER_CLUSTER + o % BYTES_PER_CLUSTER / BYTES_PER_SECTOR * BYTES_PER_SECTOR ==
            o - o % BYTES_PER_SECTOR
    ensures o % BYTES_PER_CLUSTER / BYTES_PER_SECTOR < SECTORS_PER_CLUSTER
  {
  }

  /** The sector that holds byte `o` of entry `e` is mapped back to `e` and `o`, rounded down. */
  lemma AddressBack(fat: seq<int>, owners: seq<DirEntry?>, chains: Chains, e: DirEntry, o: nat)
    requires |fat| == FAT_LENGTH && |owners| == N_CLUSTERS && Ownership(fat, owners, chains)
    requires e in chains && o < |chains[e]| * BYTES_PER_CLUSTER
    ensures DATA_START <= SectorOf(chains[e], o) < TOTAL_SECTORS
    ensures Located(fat, owners, chains, SectorOf(chains[e], o)) == Some(Place(e, o - o % BYTES_PER_SECTOR))
  {
    var cs, i, k := chains[e], o / BYTES_PER_CLUSTER, o % BYTES_PER_CLUSTER / BYTES_PER_SECTOR;
    AlignedOffset(o);
    assert InHeap(cs[i]);
    SectorParts(cs[i], k);
    IndexUnique(cs, i);
    ChainCellsTaken(fat, cs, i);
  }

  /** Every sector mapped to an entry is the sector that holds those bytes of the entry. */
  lemma AddressForth(fat: seq<int>, owners: seq<DirEntry?>, chains: Chains, sector: nat)
    requires |fat| == FAT_LENGTH && |owners| == N_CLUSTERS && Ownership(fat, owners, chains) && DATA_START <= sector
    requires Located(fat, owners, chains, sector).Some?
    ensures var Place(e, o) := Located(fat, owners, chains, sector).value;
            && e in chains && o < |chains[e]| * BYTES_PER_CLUSTER && o < TWO_32 && o % BYTES_PER_SECTOR == 0
            && SectorOf(chains[e], o) == sector
  {
    var c, k := ClusterAt(sector), SectorInCluster(sector);
    var e: DirEntry := owners[c];
    OffsetParts(IndexIn(chains[e], c), k);
  }

  // ---- directories as streams ----

  ghost predicate KidsGood(s: State, d: DirEntry) {
    d in s.kids && d in s.metas && d in s.chains && s.chains[d] != [] && 0 <= s.chains[d][0] < TWO_32 &&
    forall k :: k in s.kids[d] ==>
      && k in s.metas && DirStream.GoodMeta(s.metas[k])
      && k in s.chains && s.chains[k] != [] && 0 <= s.chains[k][0] < TWO_32
  }

  /** The children of a directory, each serialised with its first cluster. */
  ghost function PartsOf(s: State, d: DirEntry): (parts: seq<seq<u8>>)
    requires KidsGood(s, d)
    ensures |parts| == |s.kids[d]|
  {
    seq(|s.kids[d]|, i requires 0 <= i < |s.kids[d]| =>
      DirStream.EntryBytes(s.metas[s.kids[d][i]], s.chains[s.kids[d][i]][0]))
  }

  ghost predicate ParentGood(s: State, d: DirEntry) {
    d != s.root ==>
      && d in s.parents && s.parents[d] in s.chains && s.chains[s.parents[d]] != []
      && 0 <= s.chains[s.parents[d]][0] < TWO_32
  }

  ghost function DotsAt(s: State, d: DirEntry): (b: seq<u8>)
    requires KidsGood(s, d) && ParentGood(s, d)
    ensures |b| == FsRoom.Base(s, d)
  {
    if d == s.root then [] else
    DirSector.DotBytes(s.metas[d], s.chains[d][0], if s.parents[d] == s.root then 0 else s.chains[s.parents[d]][0])
  }

  /** The full byte stream of a directory. */
  ghost function StreamOf(s: State, d: DirEntry): seq<u8>
    requires KidsGood(s, d) && ParentGood(s, d)
  {
    DirSector.DirBytes(DotsAt(s, d), PartsOf(s, d))
  }

  lemma FirstInHeap(fat: seq<int>, owners: seq<DirEntry?>, chains: Chains, e: DirEntry)
    requires |fat| == FAT_LENGTH && |owners| == N_CLUSTERS && Ownership(fat, owners, chains) && e in chains
    ensures chains[e] != [] && InHeap(chains[e][0]) && 0 <= chains[e][0] < TWO_32
  {
    assert IsChain(fat, chains[e]);
  }

  /** In a live tree every directory has a stream. */
  lemma StreamDefined(s: State, fat: seq<int>, owners: seq<DirEntry?>, d: DirEntry)
    requires Tree(s) && d in s.paths && |fat| == FAT_LENGTH && |owners| == N_CLUSTERS
    requires Ownership(fat, owners, s.chains)
    ensures KidsGood(s, d) && ParentGood(s, d)
  {
    hide Unique, Ownership, DirStream.GoodMeta, InHeap;
    FirstInHeap(fat, owners, s.chains, d);
    assert DownAt(s, d);
    forall k | k in s.kids[d]
      ensures k in s.metas && DirStream.GoodMeta(s.metas[k])
      ensures k in s.chains && s.chains[k] != [] && 0 <= s.chains[k][0] < TWO_32
    {
      assert UpAt(s, k);
      FirstInHeap(fat, owners, s.chains, k);
    }
    if d != s.root {
      ParentOf(s, d);
      FirstInHeap(fat, owners, s.chains, s.parents[d]);
    }
  }

  lemma {:induction false} ConcatRoom(metas: FsRoom.Metas, ks: seq<DirEntry>, parts: seq<seq<u8>>)
    requires |parts| == |ks| && (forall k :: k in ks ==> k in metas)
    requires forall i :: 0 <= i < |ks| ==> |parts[i]| == DirStream.EntrySize(metas[ks[i]])
    ensures |DirSector.Concat(parts)| == FsRoom.Room(metas, ks)
  {
    hide DirStream.EntrySize;
    if ks != [] {
      ConcatRoom(metas, ks[1..], parts[1..]);
    }
  }

  /** The length of the stream is what the accounting of directories says. */
  lemma StreamLength(s: State, d: DirEntry)
    requires KidsGood(s, d) && ParentGood(s, d)
    ensures |StreamOf(s, d)| == FsRoom.Base(s, d) + FsRoom.Room(s.metas, s.kids[d])
  {
    hide DirStream.EntryBytes, DirStream.EntrySize, DirStream.GoodMeta;
    ConcatRoom(s.metas, s.kids[d], PartsOf(s, d));
  }

  // ---- the image ----

  /** Sector of a file's bytes: zeros past its end, else what the cache delivers. */
  ghost function FileSector(s: State, e: DirEntry, offset: u32, src: Source): Option<Sector>
    requires e in s.metas && e in s.paths
  {
    if offset >= s.metas[e].size then Some(Zeros(BYTES_PER_SECTOR))
    else src.fetch(FsPath.Join(s.paths[e]), s.metas[e].rev, offset, s.metas[e].size)
  }

  ghost predicate Sound(s: State, fat: seq<int>, owners: seq<DirEntry?>) {
    && |fat| == FAT_LENGTH && |owners| == N_CLUSTERS && Tree(s) && Ownership(fat, owners, s.chains)
    && (forall c :: 0 <= c < FAT_LENGTH ==> 0 <= fat[c] < TWO_32)
  }

  ghost function DataSector(s: State, fat: seq<int>, owners: seq<DirEntry?>, sector: nat, src: Source): Option<Sector>
    requires Sound(s, fat, owners) && DATA_START <= sector
  {
    if Located(fat, owners, s.chains, sector).None? then Some(Zeros(BYTES_PER_SECTOR)) else
    AddressForth(fat, owners, s.chains, sector);
    var Place(e, offset) := Located(fat, owners, s.chains, sector).value;
    StreamDefined(s, fat, owners, e);
    if s.metas[e].isDir then Some(DirSector.Window(StreamOf(s, e), offset)) else FileSector(s, e, offset, src)
  }

  function ReservedSector(sector: nat): Sector {
    if sector == 0 || sector == BootSector.BACKUP_BOOT_SECTOR then BootSector.Boot()
    else if sector == BootSector.FS_INFO_SECTOR then BootSector.FsInfo()
    else Zeros(BYTES_PER_SECTOR)
  }

  /** The image: reserved sectors, two copies of the FAT, then the clusters. */
  ghost function ImageSector(s: State, fat: seq<int>, owners: seq<DirEntry?>, sector: nat, src: Source): Option<Sector>
    requires Sound(s, fat, owners) && sector < TOTAL_SECTORS
  {
    if sector < RESERVED_SECTORS then Some(ReservedSector(sector))
    else if sector < DATA_START then Some(FatSector(fat, (sector - RESERVED_SECTORS) % FAT_SECTORS))
    else DataSector(s, fat, owners, sector, src)
  }
}
