/** Reading the synthetic disk (read_file_sector, read_sector and read_data of dbfat.c). */
module Disk {
  import opened Words
  import opened Layout
  import opened Entries
  import opened Cluster
  import opened FsState
  import opened FsImage
  import opened FileTree
  import BootSector
  import DirStream
  import DirSector
  import Scratch
  import FsPath
  import FsRoom
  import FsBounds
  import PathOps

  /** The linked children of a live directory are what its stream serialises. */
  lemma ReadableNow(fs: Dbfat, d: DirEntry)
    requires fs.Valid() && d in fs.st.paths
    requires KidsGood(fs.st, d) && ParentGood(fs.st, d)
    ensures DirSector.Readable(fs.st.kids[d], PartsOf(fs.st, d)) && d.child == At(fs.st.kids[d], 0)
  {
    hide Up, Unique, Ownership, DirStream.EntryBytes, DirStream.GoodMeta;
    var s, h, ks := fs.st, fs.heap, fs.st.kids[d];
    SnapshotAt(h, d);
    EntryFacts(s, h, d);
    forall i | 0 <= i < |ks|
      ensures ks[i].next == At(ks, i + 1) && DirStream.GoodMeta(ks[i].metadata)
      ensures PartsOf(s, d)[i] == DirStream.EntryBytes(ks[i].metadata, ks[i].firstCluster)
    {
      PathOps.ListedKid(s, h, d, i);
      SnapshotAt(h, ks[i]);
      EntryFacts(s, h, ks[i]);
    }
  }

  lemma DotsNow(fs: Dbfat, d: DirEntry)
    requires fs.Valid() && d in fs.st.paths && KidsGood(fs.st, d) && ParentGood(fs.st, d)
    ensures d != fs.root ==> d.parent != null
    ensures DirSector.DotsOf(d, fs.root) == DotsAt(fs.st, d)
  {
    hide Up, Unique, Down, Ownership, DirStream.ShortEntry;
    var s, h := fs.st, fs.heap;
    EntryFacts(s, h, d);
    SnapshotAt(h, d);
    if d != fs.root {
      PathOps.ParentLink(s, h, d);
      ParentOf(s, d);
      EntryFacts(s, h, s.parents[d]);
      SnapshotAt(h, s.parents[d]);
    }
  }

  lemma SoundNow(fs: Dbfat)
    requires fs.Valid()
    ensures Sound(fs.st, fs.table.fat[..], fs.table.dirEntries[..])
  {
    hide Tree, Ownership, Mirrors, Snapshot;
  }

  lemma TableShape(fs: Dbfat)
    requires fs.Valid()
    ensures fs.table.Shape()
  {
  }

  /** read_file_sector */
  method ReadFileSector(fs: Dbfat, dirEntry: DirEntry, offset: u32, src: Source) returns (r: Option<Sector>)
    requires fs.Valid() && dirEntry in fs.st.paths && dirEntry in fs.st.metas
    ensures r == FileSector(fs.st, dirEntry, offset, src)
  {
    hide Tree, Mirrors, Snapshot, FieldsOf, Dbfat.Valid, Keys, FsPath.Join;
    fs.Facts();
    EntryFacts(fs.st, fs.heap, dirEntry);
    SnapshotAt(fs.heap, dirEntry);
    if offset >= dirEntry.metadata.size {
      return Some(Zeros(BYTES_PER_SECTOR));
    }
    var path := PathOps.GetFilePath(fs, dirEntry);
    r := src.fetch(path, dirEntry.metadata.rev, offset, dirEntry.metadata.size);
  }

  method ReadDirectorySector(fs: Dbfat, dirEntry: DirEntry, offset: u32, overread: seq<u16>)
    returns (overrun: bool, sector: seq<u8>)
    requires fs.Valid() && dirEntry in fs.st.paths && KidsGood(fs.st, dirEntry) && ParentGood(fs.st, dirEntry)
    requires offset % BYTES_PER_SECTOR == 0 && |overread| == LONG_NAME_CHARS
    ensures overrun <==> Scratch.DirOverruns(fs.st, dirEntry, offset)
    ensures !overrun ==> sector == DirSector.Window(StreamOf(fs.st, dirEntry), offset)
  {
    hide Tree, Mirrors, Snapshot, Ownership, DirSector.Window, DirSector.Readable, DotsAt, PartsOf, FsRoom.Room,
         FsRoom.Base, DirSector.DirBytes, DirSector.DotsOf, KidsGood, ParentGood, Scratch.DirOverruns,
         DirSector.Overruns;
    fs.Facts();
    SoundNow(fs);
    ReadableNow(fs, dirEntry);
    DotsNow(fs, dirEntry);
    StreamLength(fs.st, dirEntry);
    FsBounds.DirFits(fs.st, fs.table.fat[..], fs.table.dirEntries[..], dirEntry);
    Scratch.OverrunsAre(fs.st, dirEntry, offset);
    overrun, sector :=
      DirSector.ReadDirSector(dirEntry, fs.root, offset, overread, fs.st.kids[dirEntry], PartsOf(fs.st, dirEntry));
  }

  /** What read_sector relies on: a cluster that is not free has a live owner, and lies on its chain. */
  lemma TakenCluster(s: State, fat: seq<int>, owners: seq<DirEntry?>, sector: nat)
    requires Sound(s, fat, owners) && DATA_START <= sector < TOTAL_SECTORS
    ensures ClusterAt(sector) < FAT_LENGTH
    ensures var c := ClusterAt(sector); fat[c] == FAT_FREE ==> Located(fat, owners, s.chains, sector).None?
    ensures var c := ClusterAt(sector);
            fat[c] != FAT_FREE ==>
              && c < N_CLUSTERS && owners[c] != null && owners[c] in s.paths && owners[c] in s.metas
              && owners[c] in s.chains && c in s.chains[owners[c]] && IsChain(fat, s.chains[owners[c]])
              && |s.chains[owners[c]]| <= MAX_CHAIN && KidsGood(s, owners[c]) && ParentGood(s, owners[c])
    ensures var c := ClusterAt(sector);
            fat[c] != FAT_FREE ==>
              var i := IndexIn(s.chains[owners[c]], c);
              Located(fat, owners, s.chains, sector) ==
              Some(Place(owners[c], i * BYTES_PER_CLUSTER + SectorInCluster(sector) * BYTES_PER_SECTOR))
  {
    hide Up, Down, Unique, KidsGood, ParentGood, IsChain;
    var c := ClusterAt(sector);
    if fat[c] != FAT_FREE {
      StreamDefined(s, fat, owners, owners[c]);
    }
  }

  /** The part of read_sector for the clusters. */
  method ReadDataSector(fs: Dbfat, sector: u32, src: Source, overread: seq<u16>)
    returns (overrun: bool, r: Option<Sector>)
    requires fs.Valid() && DATA_START <= sector < TOTAL_SECTORS && |overread| == LONG_NAME_CHARS
    requires Sound(fs.st, fs.table.fat[..], fs.table.dirEntries[..])
    ensures overrun <==> Scratch.SectorOverruns(fs.st, fs.table.fat[..], fs.table.dirEntries[..], sector)
    ensures !overrun ==> r == DataSector(fs.st, fs.table.fat[..], fs.table.dirEntries[..], sector, src)
  {
    hide Tree, Ownership, Mirrors, Snapshot, Dbfat.Valid, Keys, Located, IsChain, KidsGood, ParentGood, StreamOf,
         FileSector, InHeap, Sound, ClusterTable.Valid, Scratch.DirOverruns;
    TakenCluster(fs.st, fs.table.fat[..], fs.table.dirEntries[..], sector);
    fs.Facts();
    TableShape(fs);
    var clusterN := 2 + (sector - DATA_START) / SECTORS_PER_CLUSTER;
    var sectorOffset := (sector - DATA_START) % SECTORS_PER_CLUSTER;
    if fs.table.IsClusterFree(clusterN) {
      return false, Some(Zeros(BYTES_PER_SECTOR));
    }
    var dirEntry: DirEntry := fs.table.dirEntries[clusterN];
    ghost var cs := fs.st.chains[dirEntry];
    EntryFacts(fs.st, fs.heap, dirEntry);
    SnapshotAt(fs.heap, dirEntry);
    var before := fs.table.GetClusterChainSize(dirEntry.firstCluster, clusterN, cs, IndexIn(cs, clusterN));
    OffsetParts(IndexIn(cs, clusterN), sectorOffset);
    var offset := before + sectorOffset * BYTES_PER_SECTOR;
    if dirEntry.metadata.isDir {
      var bytes;
      overrun, bytes := ReadDirectorySector(fs, dirEntry, offset, overread);
      r := if overrun then None else Some(bytes);
    } else {
      overrun := false;
      r := ReadFileSector(fs, dirEntry, offset, src);
    }
  }

  lemma SectorRanges()
    ensures RESERVED_SECTORS < RESERVED_SECTORS + FAT_SECTORS < DATA_START < TOTAL_SECTORS
    ensures DATA_START == RESERVED_SECTORS + 2 * FAT_SECTORS
  {
  }

  lemma FixedNumbers()
    ensures RESERVED_SECTORS == 32 && BootSector.BACKUP_BOOT_SECTOR == 6 && BootSector.FS_INFO_SECTOR == 1
    ensures FAT_SECTORS == 261633 && DATA_START == 523298 && TOTAL_SECTORS == 0x1000_0000
  {
    VolumeNumbers();
  }

  /** The reserved region: the boot sector in sectors 0 and 6, FSInfo in sector 1, zeros in the others. */
  lemma FixedSectors(s: State, fat: seq<int>, owners: seq<DirEntry?>, sector: nat, src: Source)
    requires Sound(s, fat, owners) && sector < 32
    ensures ImageSector(s, fat, owners, sector, src) ==
            Some(if sector == 0 || sector == 6 then BootSector.Boot()
                 else if sector == 1 then BootSector.FsInfo() else Zeros(512))
  {
    hide BootSector.Boot, BootSector.FsInfo;
    FixedNumbers();
  }

  /** The FAT stands on the disk twice: from sector 32 on and from sector 261665 on. */
  lemma FatTwice(s: State, fat: seq<int>, owners: seq<DirEntry?>, k: nat, src: Source)
    requires Sound(s, fat, owners) && k < 261633
    ensures ImageSector(s, fat, owners, 32 + k, src) == ImageSector(s, fat, owners, 261665 + k, src)
    ensures ImageSector(s, fat, owners, 32 + k, src) == Some(FatSector(fat, k))
  {
    hide Tree, Ownership, FatSector, DataSector;
    FixedNumbers();
    FatCopy(32 + k);
    FatCopy(261665 + k);
  }

  /** A sector of a free cluster is full of zeros. */
  lemma FreeSector(s: State, fat: seq<int>, owners: seq<DirEntry?>, c: nat, k: nat, src: Source)
    requires Sound(s, fat, owners) && 2 <= c < N_CLUSTERS && k < 64 && fat[c] == 0
    ensures ImageSector(s, fat, owners, 523298 + (c - 2) * 64 + k, src) == Some(Zeros(512))
  {
    hide Tree, Ownership, FileSector, StreamOf, KidsGood, ParentGood;
    FixedNumbers();
    SectorParts(c, k);
  }

  lemma ChainCell(fat: seq<int>, owners: seq<DirEntry?>, chains: Chains, e: DirEntry, k: nat)
    requires |fat| == FAT_LENGTH && |owners| == N_CLUSTERS && Ownership(fat, owners, chains) && e in chains
    requires k < 64 * |chains[e]|
    ensures InHeap(chains[e][k / 64]) && k * 512 < |chains[e]| * BYTES_PER_CLUSTER
    ensures SectorOf(chains[e], k * 512) == 523298 + (chains[e][k / 64] - 2) * 64 + k % 64
  {
    OffsetParts(k / 64, k % 64);
    assert k / 64 * BYTES_PER_CLUSTER + k % 64 * BYTES_PER_SECTOR == k * 512;
    assert IsChain(fat, chains[e]);
  }

  /** A sector of a file: zeros from its end on, and before that the sector asked for by path, revision, offset and
      size. */
  lemma SectorOfFile(s: State, fat: seq<int>, owners: seq<DirEntry?>, e: DirEntry, k: nat, src: Source)
    requires Sound(s, fat, owners) && e in s.paths && e in s.metas && e in s.chains && !s.metas[e].isDir
    requires k < 64 * |s.chains[e]|
    ensures var c := s.chains[e][k / 64]; var m := s.metas[e];
            && c >= 2 && 523298 + (c - 2) * 64 + k % 64 < 0x1000_0000 && k * 512 < TWO_32
            && ImageSector(s, fat, owners, 523298 + (c - 2) * 64 + k % 64, src) ==
               if k * 512 >= m.size then Some(Zeros(512))
               else src.fetch(FsPath.Join(s.paths[e]), m.rev, k * 512, m.size)
  {
    hide Tree, Ownership, FsPath.Join, Located, StreamOf, KidsGood, ParentGood;
    FixedNumbers();
    ChainCell(fat, owners, s.chains, e, k);
    AddressBack(fat, owners, s.chains, e, k * 512);
    AddressForth(fat, owners, s.chains, SectorOf(s.chains[e], k * 512));
  }

  lemma WrapsOnce(k: nat)
    requires k < 2 * 261633
    ensures k % 261633 == if k < 261633 then k else k - 261633
  {
  }

  lemma FatCopy(sector: nat)
    requires RESERVED_SECTORS <= sector < DATA_START
    ensures (sector - RESERVED_SECTORS) % FAT_SECTORS ==
            if sector < RESERVED_SECTORS + FAT_SECTORS then sector - RESERVED_SECTORS
                else sector - RESERVED_SECTORS - FAT_SECTORS
  {
    VolumeNumbers();
    WrapsOnce(sector - RESERVED_SECTORS);
  }

  /** read_sector: the sector of the image, unless it is one of a directory in which the scratch buffer is
      overrun. */
  method ReadSector(fs: Dbfat, sector: u32, src: Source, overread: seq<u16>)
    returns (overrun: bool, r: Option<Sector>)
    requires fs.Valid() && sector < TOTAL_SECTORS && |overread| == LONG_NAME_CHARS
    requires Sound(fs.st, fs.table.fat[..], fs.table.dirEntries[..])
    ensures overrun <==> Scratch.SectorOverruns(fs.st, fs.table.fat[..], fs.table.dirEntries[..], sector)
    ensures !overrun ==> r == ImageSector(fs.st, fs.table.fat[..], fs.table.dirEntries[..], sector, src)
    ensures sector < 32 ==>
              !overrun && r == Some(if sector == 0 || sector == 6 then BootSector.Boot()
                                    else if sector == 1 then BootSector.FsInfo() else Zeros(512))
  {
    hide Tree, Ownership, Mirrors, Snapshot, Dbfat.Valid, DataSector, FatSector, BootSector.Boot, BootSector.FsInfo;
    SectorRanges();
    FixedNumbers();
    overrun := false;
    if sector < RESERVED_SECTORS {
      if sector == 0 || sector == BootSector.BACKUP_BOOT_SECTOR {
        r := Some(BootSector.Boot());
      } else if sector == BootSector.FS_INFO_SECTOR {
        r := Some(BootSector.FsInfo());
      } else {
        r := Some(Zeros(BYTES_PER_SECTOR));
      }
    } else if sector < RESERVED_SECTORS + 2 * FAT_SECTORS {
      var fatSector;
      FatCopy(sector);
      if sector < RESERVED_SECTORS + FAT_SECTORS {
        fatSector := sector - RESERVED_SECTORS;
      } else {
        fatSector := sector - RESERVED_SECTORS - FAT_SECTORS;
      }
      r := Some(FatSector(fs.table.fat[..], fatSector));
    } else {
      overrun, r := ReadDataSector(fs, sector, src, overread);
    }
  }
}
