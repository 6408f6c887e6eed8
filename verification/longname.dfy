/** A root directory made by eight additions whose first sector cannot be read, and which a reader therefore does not
    get back (dbfat.c). */
module LongName {
  import opened Words
  import opened Layout
  import opened Entries
  import opened FsState
  import opened FsRoom
  import opened FsImage
  import Cluster
  import DirStream
  import FsRemove
  import Scratch
  import FileTree
  import Disk
  import FsCover
  import Mount
  import FsRuns
  import FsLoss

  const COUNT := 8
  const LETTER_A := 0x61

  /** The `i`-th name put in: 209 characters first, then six names of one, then one of 14. */
  function LengthNo(i: nat): nat {
    if i == 0 then 209 else if i < 7 then 1 else 14
  }

  function NameNo(i: nat): (n: Name)
    requires i < COUNT
    ensures DirStream.GoodName(n) && |n| == LengthNo(i) && n[0] == LETTER_A + i
  {
    [LETTER_A + i] + seq<u16>(LengthNo(i) - 1, _ => LETTER_A)
  }

  function EmptyFile(i: nat): (m: EntryMetaData)
    requires i < COUNT
    ensures m.name == NameNo(i) && m.size == 0 && DirStream.EntrySize(m) <= 576 && !m.isDir
  {
    EntryMetaData(0, 0, 0, false, 0, [], NameNo(i), [])
  }

  /** The root holds the first `i` names, the last one in front. */
  ghost predicate Holds(s: State, i: nat) {
    && Exact(s) && DirKnown(s, s.root) && s.metas[s.root].isDir && s.metas[s.root].size <= 576 * i
    && |s.kids[s.root]| == i
    && (forall j :: 0 <= j < i ==> |s.metas[s.kids[s.root][j]].name| == LengthNo(i - 1 - j))
    && (forall x :: x in s.paths && x != s.root ==>
        |s.paths[x]| == 1 && s.paths[x][0] != [] && s.paths[x][0][0] < LETTER_A + i)
  }

  lemma NewName(s: State, i: nat)
    requires Tree(s) && Holds(s, i) && i < COUNT
    ensures s.root in s.paths && s.root in s.metas && s.metas[s.root].isDir
    ensures forall x :: x in s.paths ==> s.paths[x] != s.paths[s.root] + [NameNo(i)]
  {
    hide Down, Unique, NameNo, LengthNo, Exact;
    FsRemove.RootLive(s);
    forall x | x in s.paths ensures s.paths[x] != s.paths[s.root] + [NameNo(i)] {
      assert s.paths[s.root] + [NameNo(i)] == [NameNo(i)];
    }
  }

  lemma RootFits(s: State, i: nat, free: nat)
    requires Holds(s, i) && i < COUNT && free >= 1
    ensures s.root in s.chains
    ensures AddOk(|s.chains[s.root]|, s.metas[s.root].size, DirStream.EntrySize(EmptyFile(i)), 0, free)
  {
    hide LengthNo, NameNo, Exact;
  }

  lemma HoldsNext(s: State, i: nat, e: DirEntry, s': State)
    requires Tree(s) && Holds(s, i) && i < COUNT && e !in s.paths && ChildAdded(s, s.root, e, EmptyFile(i), s')
    ensures Holds(s', i + 1)
  {
    hide DirStream.EntrySize, ChildAdded, EmptyFile, NameNo, LengthNo, GrownLength, Tree, Exact;
    FsRemove.RootLive(s);
    AddKeepsExact(s, s.root, e, EmptyFile(i), s');
    FsLoss.AddedPlace(s, s.root, e, EmptyFile(i), s');
    KidsNext(s, s.root, e, EmptyFile(i), s');
    assert s'.paths[e] == [NameNo(i)];
  }

  lemma KidsNext(s: State, d: DirEntry, e: DirEntry, m: EntryMetaData, s': State)
    requires Tree(s) && ChildAdded(s, d, e, m, s') && e !in s.paths && DirKnown(s, d)
    ensures DirKnown(s', d) && s'.kids[d] == [e] + s.kids[d] && s'.metas[e].name == m.name
    ensures forall k :: k in s.kids[d] ==> k in s'.metas && s'.metas[k].name == s.metas[k].name
  {
    hide DirStream.EntrySize, GrownLength, Cluster.ClustersFor, Cluster.CommonPrefix, Up, Down, Unique;
  }

  lemma NothingHeld(s: State)
    requires Tree(s) && Exact(s) && StartState(s)
    ensures Holds(s, 0) && s.chains == map[s.root := [ROOT_CLUSTER]]
  {
    hide Tree, Exact;
  }

  /** Sector 0 of the data region is the first sector of the root. */
  lemma RootSector(s: State, fat: seq<int>, owners: seq<DirEntry?>)
    requires Sound(s, fat, owners) && RootFirst(s)
    ensures Located(fat, owners, s.chains, DATA_START) == Some(Place(s.root, 0))
  {
    hide Tree, Cluster.Ownership, Located;
    AddressBack(fat, owners, s.chains, s.root, 0);
  }

  method AddNext(fs: FileTree.Dbfat, i: nat)
    requires fs.Valid() && i < COUNT && Holds(fs.st, i) && fs.Free() >= 1
    modifies fs`st, fs`heap, fs.table, fs.table.fat, fs.table.dirEntries, fs.root
    ensures fs.Valid() && Holds(fs.st, i + 1) && fs.Free() + 2 >= old(fs.Free())
  {
    hide Tree, RootFirst, Mirrors, FileTree.Snapshot, FileTree.Dbfat.Valid, FileTree.Dbfat.Free, Holds,
         DirStream.EntrySize, ChildAdded, NameNo, AddOk;
    fs.Facts();
    ghost var s: State := fs.st;
    NewName(s, i);
    RootFits(s, i, fs.Free());
    var e := fs.AddChildEntry(fs.root, EmptyFile(i));
    HoldsNext(s, i, e, fs.st);
    SameLength(s, i, e, fs.st);
  }

  lemma SameLength(s: State, i: nat, e: DirEntry, s': State)
    requires Holds(s, i) && i < COUNT && ChildAdded(s, s.root, e, EmptyFile(i), s') && e !in s.paths
    ensures s'.root == s.root && |s'.chains[s.root]| == |s.chains[s.root]| && |s'.chains[e]| == 1
  {
    hide EmptyFile, NameNo, LengthNo, Cluster.CommonPrefix, Exact, ShortNamed, DirStream.EntrySize, Cluster.WithChain,
         DirKnown, GrownLength, Cluster.ClustersFor;
    SmallStays(|s.chains[s.root]|, s.metas[s.root].size, DirStream.EntrySize(EmptyFile(i)));
  }

  /** Eight entries fit one cluster. */
  lemma SmallStays(had: nat, size: u32, extra: nat)
    requires size <= 576 * COUNT && extra <= 576
    ensures GrownLength(had, size, extra) == had && Cluster.ClustersFor(0) == 1
  {
  }

  /** Eight additions, and then the first sector of the root overruns the scratch buffer: every chain is long enough,
      and still the tree is not read back. */
  method MakeUnreadable(src: Source, overread: seq<u16>) returns (fs: FileTree.Dbfat, overrun: bool)
    requires |overread| == LONG_NAME_CHARS
    ensures overrun && fs.Valid() && FsCover.Covered(fs.st)
    ensures Sound(fs.st, fs.table.fat[..], fs.table.dirEntries[..]) && fs.root in fs.st.paths
    ensures var image := Mount.ImageOf(fs.st, fs.table.fat[..], fs.table.dirEntries[..], src);
            Mount.MountImage(image) != Mount.NodeOf(fs.st, fs.root, src)
  {
    hide Tree, RootFirst, Mirrors, FileTree.Snapshot, FileTree.Dbfat.Valid, FileTree.Dbfat.Free, Holds, Sound,
         Scratch.DirOverruns, Located, StartState, Exact, FsCover.Covered, Scratch.AllFit, Mount.ImageOf, Mount.NodeOf;
    fs := new FileTree.Dbfat();
    fs.Facts();
    NothingHeld(fs.st);
    FsLoss.StartFree(fs);
    for i := 0 to COUNT
      invariant fs.Valid() && Holds(fs.st, i) && fresh(fs.table.fat) && fresh(fs.table.dirEntries)
      invariant fs.Free() + 2 * i >= N_CLUSTERS - 3
    {
      AddNext(fs, i);
    }
    fs.Facts();
    Disk.SoundNow(fs);
    HeldLengths(fs.st);
    Scratch.LongNameOverruns(fs.st);
    RootSector(fs.st, fs.table.fat[..], fs.table.dirEntries[..]);
    NotAllFit(fs.st);
    FsCover.ExactIsCovered(fs.st);
    FsRuns.MountNow(fs, src);
    var r;
    overrun, r := Disk.ReadSector(fs, DATA_START, src, overread);
  }

  lemma NotAllFit(s: State)
    requires Scratch.DirOverruns(s, s.root, 0) && s.root in s.metas && s.metas[s.root].isDir
    ensures !Scratch.AllFit(s)
  {
    hide Scratch.KidOverruns, Scratch.StartsThere;
  }

  lemma HeldLengths(s: State)
    requires Holds(s, COUNT)
    ensures Scratch.NameLengths(s, s.root, [14, 1, 1, 1, 1, 1, 1, 209]) && s.metas[s.root].isDir && Exact(s)
  {
    hide Room, Exact;
  }
}
