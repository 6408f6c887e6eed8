/** Short runs of the tree operations after which a reader of the disk loses an entry or a part of a file
    (dbfat.c). */
module FsLoss {
  import opened Words
  import opened Layout
  import opened Entries
  import opened Cluster
  import opened DirStream
  import opened FsState
  import opened FsRoom
  import opened FsCover
  import opened FileTree
  import FsRemove
  import FsImage
  import Disk
  import Mount
  import FsRuns
  import FsPath
  import FsInsert
  import PathOps
  import Scratch

  /** Filling the root with `count` files whose names have `chars` units and whose entries take `room` bytes. */
  datatype Plan = Plan(chars: nat, room: nat, count: nat)

  const OVER_ONE := Plan(14, 96, 342)
  const JUST_ONE := Plan(1, 64, 512)

  predicate Known(p: Plan) { p == OVER_ONE || p == JUST_ONE }

  /** Units from here on tell the names apart. */
  const FIRST_UNIT := 0x4E00

  function NameNo(p: Plan, i: nat): (n: Name)
    requires Known(p) && i <= p.count
    ensures GoodName(n) && |n| == p.chars && n[0] == FIRST_UNIT + i
  {
    [FIRST_UNIT + i] + seq<u16>(p.chars - 1, _ => 0x41)
  }

  function EmptyFile(p: Plan, i: nat): (m: EntryMetaData)
    requires Known(p) && i <= p.count
    ensures EntrySize(m) == p.room && m.name == NameNo(p, i) && m.size == 0 && !m.isDir
  {
    EntryMetaData(0, 0, 0, false, 0, [], NameNo(p, i), [])
  }

  /** The root holds entries 0 to `i - 1` and nothing else. */
  ghost predicate Filled(s: State, p: Plan, i: nat) {
    && Exact(s) && s.root in s.paths && s.root in s.metas && s.metas[s.root].isDir && s.metas[s.root].size == p.room * i
    && forall x :: x in s.paths && x != s.root ==>
         |s.paths[x]| == 1 && s.paths[x][0] != [] && s.paths[x][0][0] < FIRST_UNIT + i
  }

  lemma NewName(s: State, p: Plan, i: nat)
    requires Tree(s) && Filled(s, p, i) && Known(p) && i <= p.count
    ensures s.root in s.paths && s.root in s.metas && s.metas[s.root].isDir
    ensures forall x :: x in s.paths ==> s.paths[x] != s.paths[s.root] + [NameNo(p, i)]
  {
    hide Exact, Down, Unique, NameNo;
    forall x | x in s.paths ensures s.paths[x] != s.paths[s.root] + [NameNo(p, i)] {
      assert s.paths[s.root] + [NameNo(p, i)] == [NameNo(p, i)];
    }
  }

  lemma SmallRoot(p: Plan, i: nat)
    requires Known(p) && i <= p.count
    ensures i < p.count ==> !(p.room * i > 0 && p.room * i % BYTES_PER_CLUSTER == 0)
    ensures ClustersFor(p.room * i) <= 2 && p.room * i <= 32832
    ensures i < p.count ==> p.room * (i + 1) == p.room * i + p.room
  {
    if p == OVER_ONE {
    } else {
    }
  }

  lemma RootFits(s: State, p: Plan, i: nat, free: nat)
    requires Filled(s, p, i) && Known(p) && i < p.count && free >= 3
    ensures s.root in s.chains && |s.chains[s.root]| <= 2
    ensures AddOk(|s.chains[s.root]|, s.metas[s.root].size, p.room, 0, free)
  {
    assert ExactAt(s, s.root);
    SmallRoot(p, i);
    SmallRoot(p, i + 1);
  }

  lemma SizesAgree(m: EntryMetaData, m': EntryMetaData)
    requires ShortNamed(m, m')
    ensures EntrySize(m') == EntrySize(m) && m'.size == m.size && m'.isDir == m.isDir
  {
  }

  lemma AddedPlace(s: State, d: DirEntry, e: DirEntry, m: EntryMetaData, s': State)
    requires ChildAdded(s, d, e, m, s') && e !in s.paths
    ensures s'.root == s.root && s'.paths == s.paths[e := s.paths[d] + [m.name]] && d in s'.paths
    ensures e in s'.parents && s'.parents[e] == d
    ensures d in s'.metas && s'.metas[d] == s.metas[d].(size := (s.metas[d].size + EntrySize(m)) % TWO_32)
    ensures e in s'.chains && |s'.chains[e]| == ClustersFor(m.size) && d in s'.chains
    ensures e in s'.metas && EntrySize(s'.metas[e]) == EntrySize(m)
    ensures s'.metas[e].size == m.size && s'.metas[e].isDir == m.isDir
  {
    SizesAgree(m, s'.metas[e]);
    hide EntrySize, GrownLength, CommonPrefix, ShortNamed, ClustersFor;
  }

  lemma ExactRoot(s: State, p: Plan, i: nat)
    requires Exact(s) && s.root in s.metas && s.metas[s.root].size == p.room * i && Known(p) && i <= p.count
    ensures s.root in s.chains && |s.chains[s.root]| <= 2
  {
    hide ClustersFor;
    assert ExactAt(s, s.root);
    SmallRoot(p, i);
  }

  lemma FilledNext(s: State, p: Plan, i: nat, e: DirEntry, s': State)
    requires Tree(s) && Filled(s, p, i) && Known(p) && i < p.count && e !in s.paths
    requires ChildAdded(s, s.root, e, EmptyFile(p, i), s')
    ensures Filled(s', p, i + 1) && e in s'.parents && s'.parents[e] == s'.root
    ensures s'.root == s.root && e in s'.chains && |s'.chains[e]| == 1
    ensures s'.root in s'.chains && |s'.chains[s'.root]| <= 2
    ensures TopEntry(s', p, e)
  {
    hide Tree, Exact, EntrySize, ChildAdded, EmptyFile, NameNo;
    FsRemove.RootLive(s);
    AddedPlace(s, s.root, e, EmptyFile(p, i), s');
    SmallRoot(p, i);
    AddKeepsExact(s, s.root, e, EmptyFile(p, i), s');
    ExactRoot(s', p, i + 1);
    assert s'.paths[e] == [NameNo(p, i)];
  }

  lemma StartFilled(s: State, p: Plan)
    requires Tree(s) && Exact(s) && StartState(s)
    ensures Filled(s, p, 0) && s.chains == map[s.root := [ROOT_CLUSTER]] && Live(s) == {s.root}
  {
    hide Tree, Exact;
  }

  lemma StartFree(fs: Dbfat)
    requires fs.Valid() && fs.st.chains == map[fs.root := [ROOT_CLUSTER]]
    ensures fs.Free() == N_CLUSTERS - 3
  {
    hide Tree, RootFirst, Mirrors, Snapshot, Ownership, FreeCount, FreeSet;
    fs.TableFacts();
    Conservation(fs.table.fat[..], fs.table.dirEntries[..], fs.st.chains);
    OneChain(fs.st.chains, fs.root);
  }

  lemma OneChain(chains: Chains, d: DirEntry)
    requires chains == map[d := [ROOT_CLUSTER]]
    ensures ClustersOf(chains) == {ROOT_CLUSTER}
  {
    assert d in chains && ROOT_CLUSTER in chains[d];
  }

  /** An entry of the root that takes so many bytes. */
  ghost predicate TopEntry(s: State, p: Plan, e: DirEntry) {
    e in s.parents && s.parents[e] == s.root && e in s.metas && EntrySize(s.metas[e]) == p.room &&
    s.metas[e].size == 0 && !s.metas[e].isDir
  }

  method AddNext(fs: Dbfat, p: Plan, i: nat) returns (e: DirEntry)
    requires fs.Valid() && Known(p) && i < p.count && Filled(fs.st, p, i) && fs.Free() >= 3
    modifies fs`st, fs`heap, fs.table, fs.table.fat, fs.table.dirEntries, fs.root
    ensures fs.Valid() && Filled(fs.st, p, i + 1) && fresh(e) && fs.heap.Keys == old(fs.heap.Keys) + {e}
    ensures TopEntry(fs.st, p, e)
    ensures fs.Free() + 3 >= old(fs.Free())
  {
    hide Tree, RootFirst, Mirrors, Snapshot, Dbfat.Valid, Dbfat.Free, Filled, Exact, EntrySize, ChildAdded, NameNo,
         AddOk;
    fs.Facts();
    ghost var s: State := fs.st;
    NewName(s, p, i);
    RootFits(s, p, i, fs.Free());
    var node := fs.AddChildEntry(fs.root, EmptyFile(p, i));
    e := node;
    FilledNext(s, p, i, e, fs.st);
  }

  /** The root filled as planned. */
  method FillRoot(p: Plan) returns (fs: Dbfat, last: DirEntry)
    requires Known(p)
    ensures fresh(fs) && fs.Valid() && Filled(fs.st, p, p.count) && TopEntry(fs.st, p, last) && fs.Free() >= 3
    ensures fresh(fs.table) && fresh(fs.table.fat) && fresh(fs.table.dirEntries) && fresh(fs.root)
    ensures forall e :: e in fs.heap.Keys ==> fresh(e)
  {
    hide Tree, RootFirst, Mirrors, Snapshot, Dbfat.Valid, Dbfat.Free, Filled, Exact, TopEntry, StartState;
    fs := new Dbfat();
    fs.Facts();
    StartFilled(fs.st, p);
    StartFree(fs);
    last := fs.root;
    for i := 0 to p.count
      invariant fs.Valid() && Filled(fs.st, p, i) && fresh(fs.table.fat) && fresh(fs.table.dirEntries)
      invariant forall e :: e in fs.heap.Keys ==> fresh(e)
      invariant fs.Free() + 3 * i >= N_CLUSTERS - 3
      invariant i > 0 ==> TopEntry(fs.st, p, last)
    {
      last := AddNext(fs, p, i);
    }
  }

  lemma FilledExact(s: State, p: Plan)
    requires Known(p) && Filled(s, p, p.count)
    ensures Exact(s) && s.root in s.metas && s.metas[s.root].size == if p == OVER_ONE then 32832 else 32768
  {
    hide Exact;
  }

  lemma SteadyGoesOn(s: State, free: nat, s': State, free': nat, ok: bool)
    requires Steady(s) && Smooth(s, free, s', free', ok)
    ensures ok && free <= free'
  {
    hide Steady;
  }

  // ---- the size that is added back after a removal ----

  /** What is left of the root is still full of names that differ from the next one. */
  lemma StillNew(s: State, c: DirEntry, s1: State)
    requires Tree(s) && Tree(s1) && Filled(s, OVER_ONE, OVER_ONE.count) && c in s.parents && s.parents[c] == s.root
    requires FsRemove.Pruned(s, s.root, c, s1)
    ensures s1.root == s.root && s1.root in s1.paths && s1.root in s1.metas && s1.metas[s1.root].isDir
    ensures forall x :: x in s1.paths ==> s1.paths[x] != s1.paths[s1.root] + [NameNo(OVER_ONE, OVER_ONE.count)]
    ensures s1.metas[s1.root].size == 32832
  {
    hide Exact, Up, Down, Unique, NameNo, FsRemove.Pruned;
    NewName(s, OVER_ONE, OVER_ONE.count);
    FsPath.PrunedPaths(s, s.root, c, s1);
  }

  /** After the removal the root has one cluster left, and the next entry asks for none. */
  lemma OneLeft(s: State, c: DirEntry, s1: State, free: nat)
    requires Exact(s) && s.root in s.metas && s.metas[s.root].size == 32832 && c in s.metas
    requires EntrySize(s.metas[c]) == 96 && Trimmed(s, s.root, c, s1) && free >= 1
    ensures s.root in s1.chains && AddOk(|s1.chains[s.root]|, 32832, 96, 0, free)
  {
    hide EntrySize;
    assert ExactAt(s, s.root);
  }

  /** The disk of the tree does not read back. */
  ghost predicate Lost(fs: Dbfat, src: FsImage.Source)
    requires fs.Valid()
    reads fs, fs.table, fs.table.fat, fs.table.dirEntries, fs.heap.Keys
  {
    var fat, owners := fs.table.fat[..], fs.table.dirEntries[..];
    && !Covered(fs.st) && FsImage.Sound(fs.st, fat, owners) && fs.root in fs.st.paths
    && Mount.MountImage(Mount.ImageOf(fs.st, fat, owners, src)) != Mount.NodeOf(fs.st, fs.root, src)
  }

  lemma LostNow(fs: Dbfat, src: FsImage.Source)
    requires fs.Valid() && !Covered(fs.st)
    ensures Lost(fs, src)
  {
    hide Tree, RootFirst, Dbfat.Valid, Covered, Scratch.AllFit, FsImage.Sound, Mount.ImageOf, Mount.NodeOf;
    Disk.SoundNow(fs);
    FsRuns.MountNow(fs, src);
  }

  /** The run that loses an entry: 342 additions, a removal, an addition. */
  method LoseEntry(ghost src: FsImage.Source) returns (fs: Dbfat)
    ensures fs.Valid() && Lost(fs, src)
  {
    hide Tree, RootFirst, Mirrors, Snapshot, Dbfat.Valid, Dbfat.Free, Filled, Exact, EntrySize, ChildAdded, NameNo,
         AddOk, FsRemove.Pruned, FsRemove.OthersKeep, Trimmed, Smooth, Steady, Covered, Lost, CanRemove;
    var last;
    fs, last := FillRoot(OVER_ONE);
    fs.Facts();
    ghost var s: State, free := fs.st, fs.Free();
    FilledExact(s, OVER_ONE);
    ExactIsSteady(s);
    var ok := fs.RemoveChildEntry(fs.root, last);
    SteadyGoesOn(s, free, fs.st, fs.Free(), ok);
    fs.Facts();
    ghost var s1: State := fs.st;
    StillNew(s, last, s1);
    OneLeft(s, last, s1, fs.Free());
    var e := fs.AddChildEntry(fs.root, EmptyFile(OVER_ONE, OVER_ONE.count));
    LostCluster(s, last, s1, e, EmptyFile(OVER_ONE, OVER_ONE.count), fs.st);
    LostNow(fs, src);
  }

  // ---- the directory that ends with a cluster ----

  lemma NoneAsked(s: State, free: nat)
    requires Exact(s) && s.root in s.metas && s.metas[s.root].size == 32768 && free >= 1
    ensures s.root in s.chains && AddOk(|s.chains[s.root]|, 32768, 64, 0, free)
  {
    assert ExactAt(s, s.root);
  }

  /** The run that loses the last entry of a full cluster: 512 additions, and one more. */
  method LoseLast(ghost src: FsImage.Source) returns (fs: Dbfat)
    ensures fs.Valid() && Lost(fs, src)
  {
    hide Tree, RootFirst, Mirrors, Snapshot, Dbfat.Valid, Dbfat.Free, Filled, Exact, EntrySize, ChildAdded, NameNo,
         AddOk, Covered, Lost, TopEntry, GoodName;
    var last;
    fs, last := FillRoot(JUST_ONE);
    fs.Facts();
    ghost var s: State := fs.st;
    FilledExact(s, JUST_ONE);
    NewName(s, JUST_ONE, JUST_ONE.count);
    NoneAsked(s, fs.Free());
    var e := fs.AddChildEntry(fs.root, EmptyFile(JUST_ONE, JUST_ONE.count));
    FullCluster(s, fs.root, e, EmptyFile(JUST_ONE, JUST_ONE.count), fs.st);
    LostNow(fs, src);
  }

  // ---- the file that grows by two clusters ----

  lemma GrowthGranted(s: State, e: DirEntry, dm: FsPath.DBMetaData, free: nat)
    requires Exact(s) && e in s.metas && !s.metas[e].isDir && s.metas[e].size == 0 && dm.size == 98304 && free >= 1
    ensures e in s.chains && s.chains[e] != [] && FsInsert.CanUpdate(s, e, dm, free)
  {
    assert ExactAt(s, e);
  }

  method OneFile() returns (fs: Dbfat, e: DirEntry)
    ensures fresh(fs) && fs.Valid() && fs.Free() >= 1 && Exact(fs.st) && TopEntry(fs.st, JUST_ONE, e)
    ensures fresh(fs.table) && fresh(fs.table.fat) && fresh(fs.table.dirEntries) && fresh(e)
  {
    hide Tree, RootFirst, Mirrors, Snapshot, Dbfat.Valid, Dbfat.Free, Filled, Exact, TopEntry, StartState;
    fs := new Dbfat();
    fs.Facts();
    StartFilled(fs.st, JUST_ONE);
    StartFree(fs);
    e := AddNext(fs, JUST_ONE, 0);
    FilledNow(fs.st, JUST_ONE, 1);
  }

  /** The run that loses a third of a file: an addition, and an update to 98304 bytes. */
  method LoseBlocks(ghost src: FsImage.Source) returns (fs: Dbfat)
    ensures fs.Valid() && Lost(fs, src)
  {
    hide Tree, RootFirst, Mirrors, Snapshot, Dbfat.Valid, Dbfat.Free, Exact, EntrySize, Covered, Lost,
         FsInsert.CanUpdate, FsInsert.EntryUpdated, Refreshed;
    var e;
    fs, e := OneFile();
    fs.Facts();
    ghost var s: State, free := fs.st, fs.Free();
    var dm := FsPath.DBMetaData(false, 98304, 0, []);
    GrowthGranted(s, e, dm, free);
    var ok;
    ghost var ds;
    ok, ds := PathOps.UpdateEntry(fs, e, dm);
    UpdatedIs(s, free, e, dm, fs.st, fs.Free(), ds);
    LostBlocks(s, e, dm, fs.st);
    LostNow(fs, src);
  }

  lemma UpdatedIs(s: State, free: nat, c: DirEntry, dm: FsPath.DBMetaData, s': State, free': nat, ds: seq<int>)
    requires FsInsert.EntryUpdated(s, free, c, dm, s', free', ds)
    ensures Refreshed(s, c, dm, s')
  {
    hide FsInsert.UpdatedLength, CommonPrefix, FsPath.UpdatedMeta;
  }

  lemma FilledNow(s: State, p: Plan, i: nat)
    requires Filled(s, p, i)
    ensures Exact(s)
  {
    hide Exact;
  }
}
