# dropboxbox, modelled and proved in Dafny

dropboxbox shows a Dropbox folder as one large FAT32 disk image. Nothing of the image is stored: every sector is
computed when it is read, from a directory tree in memory, from the FAT, and from a cache of file blocks. This project
models the four parts of the program that carry state or do the hard computation, and proves what they are for.

**Clusters** (`cluster.dfy`). `ClusterTable` is the FAT array, the parallel owner array and the roving cursor, updated in
place by the same loops as the C code. The invariant `Ownership` says that the taken clusters are exactly the clusters of
the chains, that every chain is acyclic and ended, and that the owner array names the chain of every taken cluster. An
out-parameter `ok` that is false stands for the place where the C code runs into `assert(0)`; the contracts say exactly
when that happens.

**The directory tree** (`entries.dfy`, `fsstate.dfy`, `fsremove.dfy`, `fsroom.dfy`, `fspath.dfy`, `fsinsert.dfy`,
`fscover.dfy`, `fsbounds.dfy`, `filetree.dfy`, `pathops.dfy`). `DirEntry` objects are linked by `parent`, `child` and
`next`; `Dbfat` holds the root and the cluster table. Its ghost field `st` is the tree as a value: paths, parents,
ordered children, metadata and chains. `Valid()` ties the linked objects to that value field by field, and the methods
say what they do to it.

**The disk image** (`bootsector.dfy`, `dirstream.dfy`, `dirsector.dfy`, `scratch.dfy`, `longname.dfy`, `dirreader.dfy`,
`fsimage.dfy`, `disk.dfy`, `diskread.dfy`, `mount.dfy`, `fsruns.dfy`, `fsloss.dfy`). The simple form of a directory is
its full byte stream; the code that computes one sector of it in a 1024-byte scratch buffer is proved to give the window
of that stream, or to leave the buffer, and exactly when. An independent reader, written after sections 3, 4, 6 and 7 of
the Microsoft FAT specification (boot sector, FAT entries, directory entries, long names with ordinals and checksums)
with numbers of its own, sees nothing but the sectors that `read_sector` delivers, and a sector whose computation leaves
the scratch buffer is not delivered. It learns the shape of the volume from sector 0 and checks the dot entries of
every directory. It is proved to read back the tree in memory if and only if every chain is long enough for its entry
and no child of a directory overruns the buffer. Runs of additions, removals and updates keep that true under conditions
that are exact, call by call.

**The block cache** (`blockcache.dfy`, `cachesystem.dfy`, `cacheproof.dfy`, `cacheroom.dfy`, `cachefail.dfy`). The four
steps taken under the lock are methods on the array of slots. The threads are a transition system: any number of readers
and fetchers, each between two atomic steps, with the copy into the caller's buffer one byte at a time, downloads that
fail or write the buffer in any order, and time-outs at any moment. The theorems are about every run, of calls with any
number of bytes left, and `CacheFail.TransparentExactly` says for which calls every answer is right.

**JSON** (`jsonescape.dfy`, `jsonstring.dfy`, `jsonvalue.dfy`, `jsonparse.dfy`, `jsonprint.dfy`, `jsonchars.dfy`,
`jsonnumber.dfy`, `jsondoc.dfy`, `jsonround.dfy`). The recursive descent parser and the presized printer are methods
over a text and a position, or over a buffer of the size the first pass computes; each is proved equal to a function on
values. Beside them stands the grammar of RFC 8259 as a datatype of texts taken apart (every way to write a character or
a number, all white space), spelled out in bytes and with a meaning of its own. Every such text is proved to be read as
what it means, and what is printed is proved to be such a text, in exactly the layout of the printer, that means the
value; the round trip follows.

## What the code does where it departs from its evident intent

Nothing is repaired in the model except one thing, named first.

- `next` is read before an entry is removed (`FileTree.Dbfat.RemoveNextChild`); the C loops at `dbfat.c:160-163` and
  `dbfat.c:599-602` read it from the freed node. This is a repair.
- Growing a chain by k clusters adds (k + 1) / 2 of them, because the search hands the same free cluster out twice
  (`cluster.c:104-109`). `Cluster.LengthAsCoded` is what comes out; `Cluster.GrowthExact` says when it is right: at most
  one cluster is added. A file that an update grows by more loses its end on the disk: `FsCover.UpdateKeepsCovered` is
  the exact condition, `FsCover.LostBlocks` an input, and `FsLoss.LoseBlocks` a run that does it.
- Above 0xFFFF8000 bytes the running size wraps and the allocation only ends by running out of clusters
  (`cluster.c:82-85`): `ok` is false for such sizes.
- A directory whose nonzero size is a multiple of the cluster size is not extended (`dbfat.c:133-135`):
  `FsRoom.GrownExact` has this as an if-and-only-if, `FsCover.FullCluster` is an input, and `FsLoss.LoseLast` a run in
  which the reader misses the entry.
- The size taken off a directory is added back (`dbfat.c:187`): `FsRoom.RemovalKeepsSize`. A later addition can therefore
  find no reason to take back the cluster that the removal gave up, and the directory loses an entry on the disk:
  `FsCover.RemoveThenAdd` is the exact condition for one removal and one addition, `FsRuns.NextMounts` the one for whole
  runs, and `FsLoss.LoseEntry` a run that does it.
- Removal by path finds entries of the root only (`dbfat.c:573-592`): `FsInsert.RemovalMeetsIntent` says exactly when the
  entry is gone afterwards, `FsInsert.DeepRemovalFails` gives the failing family.
- `read_data` is right for sector-aligned offsets, and otherwise only for 0 or 512 bytes (`dbfat.c:445-452`):
  `DiskRead.ReadData`.
- The scratch buffer of two sectors is left when a child starts at byte p of a sector and p and its entry take more than
  1024 bytes (`dbfat.c:342-346`): `DirSector.ReadDirSector` and `Scratch.OverrunsAre`, as an if-and-only-if. Names of up to
  208 characters never do that (`Scratch.ShortNamesFit`); longer ones do or do not, by where they start
  (`Scratch.LongestName`). What happens behind the buffer is undefined; the out-parameter `overrun` stands for it, and
  the reader gets no such sector (`Mount.MountRead`, `LongName.MakeUnreadable`).
- The extension of a short name is always blank, because its copy starts at the dot and stops there (`dbfat.c:111-119`):
  `DirStream.ShortNameOf`.
- The loop over leading dots reads a unit before it looks at the length (`dbfat.c:94`): the parameter `overread` of
  `DirStream.SetShortName` stands for the unit behind the name, and the result does not depend on it.
- The name offset wraps after the last long entry and something is fetched that is never used (`dbfat.c:253-256`): the
  parameter `overread` of `DirStream.FetchUnits` stands for whatever is there, and the result does not depend on it.
- The comment at `dbfiles.c:16` asks for more slots than `max_prefetched_blocks * fuse_threads + block_fetcher_thread_count`;
  `CacheRoom.NeverAborts` and `CacheRoom.TooFewSlots` show that this very number is enough and that one slot less is not.
  Eight slots with eight fetchers are too few for any number of readers.
- Above 2^32 - 2^21 bytes before the end of a file no block is scheduled at all (`dbfiles.c:148`,
  `CacheSystem.PrefetchAtLeastOne`), and the call returns what slot 0 holds: `CacheFail.OtherBytes` gives it the bytes of
  any other file.
- The range of the last block below 2^32 ends at zero (`dbfiles.c:222`): `CacheSystem.RangeWraps`. What a server delivers
  for it is open, so those bytes can be wrong. `CacheFail.NotTheFile` has both cases, and `CacheFail.TransparentExactly`
  that there are no others.
- Beyond RFC 8259 the parser takes a leading zero, a minus sign alone and an exponent without digits
  (`JsonNumber.LeadingZero`, `JsonNumber.SignAlone`, `JsonNumber.NoPowerDigits`), and any byte up to 0x20 for white space.
- A supplementary code point is decoded wrongly when bit 16 of the code point less 0x10000 is set (`cJSON.c:177`):
  `JsonEscape.PairExact`; `JsonEscape.PairRepaired` is about addition in place of or.

## Model

| member | source | states |
|---|---|---|
| Cluster.ClusterTable.FindFreeCluster | cluster.c:50-65 | the wrap-around search succeeds exactly when some data cluster is free, and then stops at the first free one from the cursor on, wrapping once |
| Cluster.ClusterTable.AllocateClusterChain | cluster.c:71-91 | ends with a new chain exactly when the size is at most 0xFFFF8000 and enough clusters are free; the chain has max(1, ceil(size / 32768)) clusters, all free before, all owned by the entry; every other FAT cell and owner is unchanged; ownership is kept |
| Cluster.ClusterTable.WalkOrExtend | cluster.c:94-111 | the loop of the reallocation: where it stands after every step, with the transient free last cluster or self-loop, and exactly when it runs out of clusters |
| Cluster.ClusterTable.ReallocateClusterChain | cluster.c:93-120 | keeps the first cluster and the common prefix, has exactly the length the code gives (growth by k adds (k + 1) / 2), frees the dropped tail, keeps ownership; fails exactly when the size is above 0xFFFF8000 or the growth exceeds the free clusters |
| Cluster.ClusterTable.FreeClusterChain | cluster.c:122-129 | terminates on every whole chain and frees exactly its cells |
| Cluster.ClusterTable.GetClusterChainSize | cluster.c:131-140 | terminates without tripping its asserts and gives index * 32768 without wrap for chains of at most 131072 clusters |
| Cluster.ClusterTable.constructor | cluster.c:17-41 | the initial table satisfies ownership with the root's chain of cluster 2 alone |
| Cluster.RunningSizeGuard | cluster.c:73-88 | the wrapping running size compares right while the size fits, and is always below a size that does not |
| Cluster.GrowSelf | cluster.c:104-109 | the search hands a still free last cluster out again: it is linked to itself, and nothing is added |
| Cluster.EndGrowth | cluster.c:117-119 | the transient state of an extension ends in a proper chain with ownership restored |
| Cluster.CutChain | cluster.c:112-119 | a shortened chain and its freed tail keep ownership |
| Cluster.GrowthExact | cluster.c:99-111 | the length reached is the length asked for exactly when at most one cluster is added |
| Cluster.RechainedKeepsOwnership | cluster.c:71-120 | rebuilding one entry's chain from free clusters keeps the ownership of all |
| Cluster.FreedKeepsOwnership | cluster.c:122-129 | freeing one entry's chain keeps the ownership of all others |
| Cluster.RechainedFree | cluster.c:93-120 | what a chain gains is exactly what the free clusters lose |
| Cluster.NothingShared | cluster.c:71-129 | no cluster is on two chains or twice on one |
| Cluster.Conservation | cluster.c:17-129 | free clusters and chains are disjoint and together are all N_CLUSTERS - 2 data clusters |
| Cluster.FatCellRead | cluster.c:146-149 | a reader of FAT sectors gets every cell back |
| Cluster.CellsSay | cluster.c:17-69 | each cluster of a chain names the next, the last has the mark 0x0FFFFFFF, and a data cluster is on no chain exactly when its cell is 0 |
| Cluster.ClustersNeeded | cluster.c:71-91 | one cluster for an empty file, else as many of 32768 bytes as hold it; sizes end at 0xFFFF8000 |
| Words.LowByteFirst | dbfat.h:79-86 | words are stored with the low byte first |
| DirStream.NameChecksum | dbfat.c:45-52 | the loop computes the short name checksum of the FAT specification |
| DirStream.SetShortName | dbfat.c:68-128 | the short name is the one of ShortNameOf, whatever unit stands behind the name |
| DirStream.ShortNameOf | dbfat.c:68-128 | behind the leading dots at most six characters up to the next dot, without spaces, in upper case, then ~1 and spaces: never a free, deleted or dot entry, no dot and no lower case letter in it, and always a blank extension |
| DirStream.ShortNameReads | dbfat.c:55-128 | position by position: behind the leading dots and up to the next one, the first six units that are not spaces, each as its upper-case ASCII character or as an underscore above 0x7F; then ~1 and spaces |
| DirStream.GetDirContents | dbfat.c:206-279 | writes exactly the long entries from the last ordinal down and the short entry, get_entry_size bytes, whatever lies behind the name |
| DirStream.EntryPieces | dbfat.c:225-276 | the 32-byte pieces of an entry: ordinals n to 1, the end mark on the first only, then the short entry |
| DirReader.PieceBytes | dbfat.c:225-276 | the bytes of the pieces, in numbers: attribute 0x11 or 0x01 in the short one and 0x0F in the long ones, 0x40 + n and the bare ordinals, the units with NUL and 0xFFFF behind them, checksum, cluster words, time, date, size, and zeros elsewhere |
| DirSector.SeekChild | dbfat.c:286-294 | finds the child that holds or follows the offset, the position where it starts, and that every child before it starts before the offset |
| DirSector.FillWindow | dbfat.c:342-348 | leaves the scratch buffer exactly when some child that starts in the sector ends more than 1024 bytes behind the start of the sector; otherwise the first 512 bytes of the buffer are the window of the stream |
| DirSector.ReadDirSector | dbfat.c:281-350 | the same for the whole computation: unless it overruns it refines the full stream, for every aligned offset, any names, and entries that straddle sectors |
| Scratch.OverrunsAre | dbfat.c:281-350 | in terms of the tree: a directory sector overruns exactly when a child starts in it at byte p of the sector and p plus the size of its entry exceeds 1024 |
| Scratch.LongestName | dbfat.c:282-282 | the exact bound on a name for every start in a sector: 208 characters at byte 480, any name up to byte 352 |
| Scratch.ShortNamesFit | dbfat.c:282-282 | a directory whose names have at most 208 characters is never overrun |
| Scratch.ShortTreeFits | dbfat.c:282-282 | so in a tree with such names no sector of any directory overruns |
| Scratch.LongNameOverruns | dbfat.c:342-348 | a root of 96 and six times 64 bytes with a name of 209 characters behind overruns in its first sector |
| Scratch.LongNameFits | dbfat.c:342-348 | with a name of 255 characters in front of the same entries it does not |
| LongName.MakeUnreadable | dbfat.c:281-435 | eight additions to an empty tree after which reading the first data sector overruns, so that the tree does not come back although every chain is long enough |
| DirReader.NameRead | dbfat.c:207-223 | the 13-unit chunks put together and cut at the first NUL give back the name, for names of 1 to 255 units, and the rest is padding |
| DirReader.EntryRead | dbfat.c:206-279 | the entries of a child parse back to its name, short name, attributes, time, date, first cluster and size, with ordinals, checksums, types and padding checked, whatever follows |
| DirReader.DotsRead | dbfat.c:302-341 | the dot entries of a directory name its own cluster and the one above it, with attribute 0x10 and its time and date, and are no records |
| DirReader.DirRead | dbfat.c:281-350 | a whole directory stream with any zero padding parses back to the records of its children in order |
| DirReader.DirCut | dbfat.c:281-350 | a directory stream that is cut short anywhere behind its dot entries parses to fewer records than there are children |
| FsState.AddKeepsTree | dbfat.c:140-153 | a new first child keeps paths, parents, child lists and the uniqueness of sibling names consistent |
| FsState.AddMirrors | dbfat.c:144-149 | linking the new child keeps the pointers in step with the tree |
| FsState.ShortNamesMade | dbfat.c:90-128 | in every state every entry below the root has the short name made from its name, and its checksum |
| FsState.BelowChild | dbfat.c:156-164 | whatever lies below an entry lies below one of its children |
| FsRemove.DropMirrors | dbfat.c:167-176 | unlinking in a singly linked list keeps the pointers in step with the tree |
| FsRemove.ShornEnd | dbfat.c:157-190 | once its children are gone, removing the entry removes exactly its subtree |
| FsRemove.OnlyRootLeft | dbfat.c:596-604 | with everything below the root gone only the root is left |
| FsRoom.GrownExact | dbfat.c:132-138 | an addition needs at most one more cluster, and the chain stays exact if and only if the old size is not a nonzero multiple of 32768 |
| FsRoom.AddKeepsExact | dbfat.c:130-154 | sizes and chain lengths of all entries stay exact under additions |
| FsRoom.RemovalKeepsSize | dbfat.c:179-187 | a removal leaves the recorded size where it was, above the contents by the entry removed |
| FsRoom.LeafKeepsSteady | dbfat.c:179-190 | removals keep every directory recorded at no less than its contents and with the clusters its size fills |
| FsRoom.SteadyShrinks | dbfat.c:180-185 | from such a state the reallocation of a removal never asks for a free cluster |
| FsRoom.ExactIsSteady | dbfat.c:130-191 | runs of additions end in such states |
| FsCover.AddKeepsSteady | dbfat.c:130-138 | an addition leaves a steady tree steady if and only if it does not top the recorded size of its directory up to a multiple of 32768 with no cluster to spare |
| FsCover.PrunedTree | dbfat.c:157-190 | what is left after a removal is a tree |
| FsCover.RemovalKeepsCovered | dbfat.c:179-190 | from a steady tree a removal keeps every chain long enough for its bytes, and the tree steady |
| FsCover.AddKeepsCovered | dbfat.c:130-154 | an addition keeps every chain long enough if and only if the chain of its directory, as the code grows it, holds the contents with the new entry |
| FsCover.RemoveThenAdd | dbfat.c:130-187 | an exact directory that loses an entry of `out` bytes and gets one of `into` bytes is held by its chain if and only if not r < out < r + into, where r is its size modulo 32768 |
| FsCover.UpdateKeepsCovered | dbfat.c:519-529 | an update keeps every chain long enough if and only if the file needs at most one cluster more than it has; it keeps a steady tree steady |
| FsCover.LostBlocks | cluster.c:99-111 | an empty file updated to 98304 bytes gets two clusters for three |
| FsCover.FullCluster | dbfat.c:132-138 | a directory of 32768 bytes gets an entry and no cluster for it |
| FileTree.Dbfat.constructor | dbfat.c:20-29 | the initial tree is valid, has the root alone, and is exact |
| FileTree.Dbfat.AddChildEntry | dbfat.c:130-154 | exactly when it succeeds in terms of sizes and free clusters; then the new state is the old one with the entry as first child under its name and the short name made from it, its chain exact in length, its directory's chain as the code leaves it, all other chains the same |
| FileTree.Dbfat.Unlink | dbfat.c:167-176 | takes the child out of the list, from the front or from the middle |
| FileTree.Dbfat.RemoveChildEntry | dbfat.c:156-191 | terminates; exactly the subtree is gone, every chain but that of the directory is unchanged, that one is trimmed as coded; for an entry without children, exactly when it aborts; from a steady state it never aborts and takes no free cluster |
| FileTree.Dbfat.RemoveNextChild | dbfat.c:159-163 | one turn of the loop, with `next` read before the entry is freed |
| FileTree.Dbfat.RemoveAllFileEntries | dbfat.c:596-604 | only the root is left, and only the clusters of the root are taken |
| PathOps.GetChildEntry | dbfat.c:193-204 | the child with that name, or none, and then no live entry has that path |
| PathOps.GetFilePath | dbfat.c:352-372 | the text of the path from the root, its length never wrapping |
| PathOps.UpdateEntry | dbfat.c:519-529 | exactly when it succeeds; only the metadata and the chain of the entry change, and the chain has the length the code gives |
| PathOps.AddFileEntry | dbfat.c:480-563 | the state is the one insertion by path calls for: name, short name, metadata and chain of the entry; new directories above it with the same stamps, each holding the next alone and as large as that makes it; clashing entries gone, everything not on the way the same entry on the same clusters; with steady directories and enough free clusters it does not abort; it keeps sizes and chains exact when nothing is replaced, no directory on the way is at a nonzero multiple of 32768 and a file grows by at most one cluster |
| PathOps.FindForRemoval | dbfat.c:565-592 | the walk terminates; it reaches an entry only when the path has one component, and then the entry of the root with that name |
| PathOps.RemoveFileEntry | dbfat.c:565-594 | removes an entry of the root, and nothing when the path has more components; never aborts from a steady state |
| PathOps.ComponentFound | dbfat.c:489-496 | the scan for separators finds exactly the components of the path, and the length fits a uint8_t |
| FsPath.JoinAt | dbfat.c:352-372 | every component stands in the text of its path behind a slash, up to the next slash or the end |
| FsPath.AboveIsDir | dbfat.c:530-559 | whatever lies above an entry is a directory |
| FsPath.AlongStep | dbfat.c:488-560 | one more component: what is gone, what is new, and that all that does not stand above the path keeps its metadata and its chain |
| FsInsert.InsertView | dbfat.c:480-563 | insertion as an update of the map from paths to entries: the path leads to the result alone, every path above it to a directory, any other path where it led before unless below a replaced entry; what is not replaced stays at its path, and unless it stands above the path it is the same entry on the same clusters |
| FsInsert.WayTight | dbfat.c:499-554 | under the condition for exactness every addition on the way is one that keeps it |
| FsInsert.UpdateKeepsExact | dbfat.c:519-529 | updating an entry keeps sizes and chains exact if and only if a file grows by at most one cluster |
| FsInsert.RemovalMeetsIntent | dbfat.c:565-594 | nothing is left at the path exactly when it has one component or nothing was there |
| FsInsert.DeepRemovalFails | dbfat.c:573-592 | an entry two levels down is never removed |
| FsBounds.PathDepth | dbfat.c:352-358 | a path has fewer components than there are live entries |
| FsBounds.PathFits | dbfat.c:353-362 | the uint32_t length of a path does not wrap |
| FsBounds.DirFits | dbfat.c:286-294 | the uint32_t offsets in a directory do not wrap |
| BootSector.BootFields | dbfat.h:105-244 | the fields of the boot sector, in numbers: 512 bytes, 64 sectors, 32 reserved, 2 FATs of 261633, 2^28 in all, root in cluster 2, FSInfo in 1, backup in 6 |
| BootSector.FsInfoFields | dbfat.h:246-375 | the three signatures of FSInfo, and no hints |
| FsImage.AddressBack | dbfat.c:411-431 | the sector that holds byte o of an entry is mapped back to the entry and o rounded down |
| FsImage.AddressForth | dbfat.c:411-431 | every sector mapped to an entry is the one that holds those bytes of it |
| Disk.TakenCluster | dbfat.c:413-425 | a taken cluster has a live owner, inside the owner array, and lies on its chain |
| Disk.SoundNow | dbfat.c:390-435 | a valid tree and its cluster table always make an image |
| Disk.ReadFileSector | dbfat.c:374-388 | zeros past the end of the file, else the cached sector for its path and revision |
| Disk.FixedSectors | dbfat.c:391-401 | sectors 0 and 6 are the boot sector, sector 1 is FSInfo, the other reserved ones are zeros |
| Disk.FatTwice | dbfat.c:402-412 | the FAT stands on the disk from sector 32 on and from sector 261665 on |
| Disk.FreeSector | dbfat.c:420-422 | the sectors of a free cluster are zeros |
| Disk.SectorOfFile | dbfat.c:374-388 | sector k of a file: zeros when 512 k is at or past its end, else what is fetched for its path, revision, that offset and its size |
| Disk.ReadSector | dbfat.c:390-435 | overruns exactly in the sectors of directories described above; every other sector of the disk is the one of the image: reserved sectors, both copies of the FAT, windows of directory streams, sectors of files, zeros for free clusters |
| DiskRead.ReadData | dbfat.c:437-478 | with the tree as it is at each of the locks, one for every sector: for aligned offsets, or 0 or 512 bytes, the bytes of the image exactly when every sector of the range can be read, else the error or the trap of the first one that cannot; for all other ranges never a right answer |
| DiskRead.SameView | dbfat.c:457-466 | when nothing changes during the call, that image is the one of the tree |
| DiskRead.PieceMoves | dbfat.c:444-475 | every position of the loop, with the wrap-around of the unsigned subtraction |
| Mount.BootRead | dbfat.h:105-244 | a reader learns the shape of the volume from sector 0 |
| Mount.ChainRead | cluster.c:146-149 | following the FAT sectors from any cluster of a chain gives the rest of the chain |
| Mount.EntrySector | dbfat.c:411-431 | sector k of the chain of an entry is delivered with its bytes from 512 k on, or not at all where a child of the directory overruns |
| Mount.DirDataRead | dbfat.c:281-350 | a directory read cluster by cluster is its stream padded with zeros when its chain is long enough and no child overruns; otherwise a sector is missing, or what is read is a proper prefix of the stream |
| Mount.FileDataRead | dbfat.c:374-388 | a file read along its chain gives all its sectors in order exactly when the chain is long enough |
| Mount.RecordsRead | dbfat.c:281-350 | the stream of a directory parses back to the records of its children in order, and below the root its dot entries lead to itself and to the directory above it |
| Mount.NodeRead | dbfat.c:390-435 | a reader gets back an entry and everything below it exactly when their chains are long enough and no child of a directory among them overruns |
| Mount.MountRead | dbfat.c:390-435 | the mount round trip, as an if-and-only-if: from the boot sector on and from the sectors that are delivered alone, names, short names, attributes, times, dates, sizes and file contents of the whole tree come back, with every dot entry leading where it should, exactly when every chain holds the bytes of its entry and no child of a directory overruns the scratch buffer |
| Mount.MountShort | dbfat.c:281-435 | with names of at most 208 characters the chains alone decide |
| FsRuns.Apply | dbfat.c:130-529 | every addition, removal or update of the linked tree that does not abort is a step of a run |
| FsRuns.RunExact | dbfat.c:130-191 | in every state of every run of additions none of which meets a directory at a nonzero multiple of 32768, and of updates that grow a file by at most one cluster, sizes and chains are exact |
| FsRuns.RunMounts | dbfat.c:130-435 | so in every state of every such run the tree is read back if and only if no child of a directory overruns |
| FsRuns.RunFits | dbfat.c:281-435 | which none does in a run that names no entry with more than 208 characters |
| FsRuns.StepKeeps | dbfat.c:130-191 | one addition, removal or update from a steady and covered tree: exactly when it leaves a covered one, and exactly when a steady one |
| FsRuns.RunCovered | dbfat.c:130-191 | in every state of every run of additions, removals and updates that meet those conditions the tree is steady and covered |
| FsRuns.NextMounts | dbfat.c:130-435 | after such a run the next call leaves a disk that reads back as the tree if and only if it meets the condition for covered trees and no child of a directory overruns |
| FsRuns.EntryLost | dbfat.c:130-435 | from a root of 32832 bytes 96 are removed and 96 added: the reader does not get the tree back |
| FsLoss.LoseEntry | dbfat.c:130-435 | such a run made by the methods on the empty tree: 342 additions, one removal, one addition, and the disk does not read back |
| FsLoss.LoseLast | dbfat.c:130-138 | 512 additions fill a cluster of the root; after one more the disk does not read back |
| FsLoss.LoseBlocks | cluster.c:93-120 | an addition and an update to 98304 bytes, and the disk does not read back |
| FsRuns.MountNow | dbfat.c:390-435 | for the linked tree: it is read back if and only if every chain is long enough and no child of a directory overruns |
| FsRuns.RemovalFrees | dbfat.c:156-191 | a removal frees exactly the chains of the removed entries and what the chain of its directory gives up for its new one; from a steady tree that is the end the chain loses |
| BlockCache.FileCache.ScheduleSector | dbfiles.c:91-138 | fails exactly when no slot has the key and all are held; else shares the slot of the key, or gives the key to the least recently used slot that nobody holds; other slots are unchanged |
| BlockCache.FileCache.ReleaseCacheBlock | dbfiles.c:140-144 | one reference less, nothing else |
| BlockCache.FileCache.PickBlock | dbfiles.c:191-207 | the scheduled slot with most references, then least offset, is marked as downloading, with one more reference |
| BlockCache.FileCache.FinishBlock | dbfiles.c:236-239 | completed or scheduled again, with one reference less |
| CacheSystem.PrefetchAtLeastOne | dbfiles.c:148-151 | a block is scheduled exactly when at most 2^32 - 2^21 bytes are left |
| CacheSystem.PrefetchIs | dbfiles.c:148-151 | one block when at most 2^21 bytes are left, two when more, none above 2^32 - 2^21 |
| CacheSystem.RangeWraps | dbfiles.c:218-223 | the end of the range asked for wraps to zero exactly for the last block below 2^32 |
| CacheProof.ScheduleKeeps | dbfiles.c:91-138 | scheduling keeps the invariant: keys unique, held slots untouched |
| CacheProof.ReaderKeeps | dbfiles.c:147-184 | every step of a reader keeps the invariant, of one that has scheduled no block too |
| CacheProof.FetcherKeeps | dbfiles.c:186-242 | every step of a fetcher keeps the invariant, with the buffer written without the lock |
| CacheProof.RunKeeps | dbfiles.c:91-242 | in every state of every run: reference counts equal the holds, a slot is downloading exactly when one fetcher has it, keys are unique, completed buffers hold their block |
| CacheProof.RunAnswers | dbfiles.c:147-184 | in every run every call is answered with 0 and 512 bytes, or with -1 and none |
| CacheProof.ReadsTheFile | dbfiles.c:147-184 | a call that returned 0 delivered 512 bytes, and below 2^32 - 2^21 they are those of that revision at that offset, zero padded, when a block was scheduled for the call |
| CacheFail.OtherBytes | dbfiles.c:147-184 | a call with more than 2^32 - 2^21 bytes left returns 0 with the bytes of any other file that was read before |
| CacheFail.NotTheFile | dbfiles.c:147-184 | for every call that schedules no block or lies in the last 2^21 bytes there is a run, with any number of slots and threads, in which it returns 0 with a wrong byte |
| CacheFail.TransparentExactly | dbfiles.c:91-242 | cache transparency, as an if-and-only-if over all aligned calls inside their file: every answer in every run is the sector of the file exactly when at most 2^32 - 2^21 bytes are left and the offset is below 2^32 - 2^21 |
| CacheRoom.NeverAborts | dbfiles.c:109-121 | with 2 R + T slots the search for a slot never fails, in any run |
| CacheRoom.TooFewSlots | dbfiles.c:15-19 | with fewer it fails in some run |
| JsonEscape.EscapeIsUtf8 | cJSON.c:180-187 | the bytes emitted are the UTF-8 form (RFC 3629, section 3) of the code value |
| JsonEscape.PairExact | cJSON.c:171-178 | a surrogate pair is decoded as section 2.2 of RFC 2781 says exactly when bit 16 of the code point less 0x10000 is clear |
| JsonEscape.PairRepaired | cJSON.c:177-177 | with addition in place of or every pair is decoded right |
| JsonString.PassesAgree | cJSON.c:148-194 | both passes of the string parser stop at the same place, and the output fits the first-pass estimate |
| JsonString.ParseString | cJSON.c:143-200 | the two-pass parser on a buffer of the estimated size computes the literal and the position behind it |
| JsonString.PrintString | cJSON.c:203-236 | writes exactly len + 3 bytes: the quoted, escaped string and its NUL |
| JsonChars.QuadRead | cJSON.c:168-168 | four hexadecimal digits in either case are read as the number they stand for |
| JsonChars.CharRead | cJSON.c:154-190 | every character of a literal, in every way to write it, is read as what it means: raw, backslash and letter, hexadecimal escape, pair, half a pair and code 0 (nothing) |
| JsonChars.CharsRead | cJSON.c:143-200 | so is every string literal, up to its closing quote |
| JsonChars.CharsAtEnd | cJSON.c:154-196 | and the end of the text ends it as a quote does |
| JsonChars.OtherEscape | cJSON.c:158-191 | a backslash and a character without a meaning of its own stand for that character |
| JsonNumber.NumeralRead | cJSON.c:96-116 | every number of RFC 8259 is read as the real it stands for, with e or E, any sign and any digits, unless its exponent is not an int |
| JsonNumber.LeadingZero | cJSON.c:102-103 | beyond the standard one leading zero is passed over |
| JsonNumber.SignAlone | cJSON.c:101-103 | and a minus sign alone is zero |
| JsonNumber.DigitsAre | cJSON.c:125-126 | the digits printed are those of the number, the last counting one, without leading zeros |
| JsonParse.ParseNumber | cJSON.c:96-116 | reads sign, integer part, fraction and exponent, and the position behind them, of any number, in real arithmetic; undefined exactly when the exponent does not fit an int |
| JsonParse.ParseArray | cJSON.c:300-325 | the loop over the values of an array agrees with the recursive reading of the text, failures included |
| JsonParse.ParseObject | cJSON.c:379-412 | the loop over the members of an object agrees with the recursive reading of the text, failures included |
| JsonParse.ParseValue | cJSON.c:267-279 | the value at a position and the position behind it, or failure |
| JsonParse.ValueTail | cJSON.c:267-279 | what is left after a value is an end of the text |
| JsonPrint.PrintNumber | cJSON.c:119-139 | the text of an integer of at most 2^53 either way and its NUL fit the 21-byte or the 64-byte buffer of its branch |
| JsonPrint.PrintArray | cJSON.c:328-376 | the text of an array, written inside the size computed for it |
| JsonPrint.PrintObject | cJSON.c:415-470 | the text of an object, written inside the size computed for it |
| JsonPrint.PrintValue | cJSON.c:282-297 | the text of a value, formatted or not, at any depth |
| JsonDoc.DocRead | cJSON.c:267-412 | every JSON text of RFC 8259, with white space wherever it may stand, is read as the value it means, whatever follows that cannot continue a number |
| JsonDoc.ItemsRead | cJSON.c:300-325 | the values of an array are read in order |
| JsonDoc.MembersRead | cJSON.c:379-412 | the members of an object are read in order |
| JsonDoc.NotAValue | cJSON.c:267-279 | what starts with no byte of a value, or with a word cut short, is none |
| JsonDoc.NotAMember | cJSON.c:389-396 | a member without its opening quote or its colon is none |
| JsonRound.PrintedAs | cJSON.c:282-470 | what is printed is such a text, with its layout in full: tabs, line ends, a space behind the commas of an array, a tab behind a colon |
| JsonRound.StringBack | cJSON.c:143-236 | every NUL-free string parses back from its literal, whatever follows |
| JsonRound.ValueBack | cJSON.c:267-470 | the tree round trip: every tree, any depth, both formats, whatever follows that cannot continue a number |
| JsonRound.PrintedValueBack | cJSON.c:249-470 | a printed value is parsed back as the whole of its text |

## Left out

- HTTP, OAuth and delta polling (`dbapi.c`) and the FUSE callbacks (`dbbox.c`): foreign calls and plumbing. A download is
  an oracle from path, revision and block offset to bytes, and it may fail.
- The iconv conversions (`dbfat.c:606-646`): names are sequences of UTF-16 units, and a path reaches the cache as such.
- Conflicts between generated short names: the code does not handle them either. A short name is 11 bytes that start
  neither with a dot nor with a mark; `toupper` is that of the C locale.
- `get_wrt_date` and `get_wrt_time`: stubs in the code, constants here.
- Memory as such: `malloc` failures, leaks, and addresses. A sector reader returns its sector, where the C code fills a
  buffer it is given.
- What is written behind the scratch buffer when a directory sector overruns it, and what is read after that.
- Paths with empty components or with a trailing separator: the walk over the path is modelled for paths made of a
  separator and 1 to 255 other units, again and again.
- The reader-writer lock of the tree: every tree operation is one atomic step, and `DiskRead.ReadData` finds some valid
  tree each time it takes the lock.
- JsonParse.ParseNumber: computes in real numbers, where the C code computes in doubles, which round, and beyond about
  10^308 are infinite.
- JsonPrint.PrintNumber: does not model the forms `%e` and `%f` of numbers that are not integers, which keep six digits
  behind the point, and not integers beyond 2^53.
- The clock: the time written into a slot, and the moment a reader gives up, are chosen freely.
- In the transition system a fetcher reads the key of its slot in one step; keys of held slots are proved not to change.
- cJSON nodes linked by pointers, reference items and hooks: trees are values.
- Escapes with fewer than four hexadecimal digits, and a backslash at the end of the text: the result is Undefined.
- The `int` widths of the lengths in the JSON code: texts are shorter than 2^31 bytes.
- cJSON_GetObjectItem and the other accessors: easy, and they add nothing to the inverse law.
- Thread creation, `printf`, `sleep`, clean-up functions and test data: side effects only.
