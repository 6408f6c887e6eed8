/** When the chains of a tree hold all its bytes, and what additions and removals do to that (dbfat.c). */
module FsCover {
  import opened Words
  import opened Layout
  import opened Entries
  import opened Cluster
  import opened DirStream
  import opened FsState
  import opened FsRemove
  import opened FsRoom
  import FsPath
  import FsInsert

  /** Bytes that an entry has to show: its children, or its contents. */
  ghost function BytesOf(s: State, e: DirEntry): nat
    requires DirKnown(s, e)
  {
    if s.metas[e].isDir then Base(s, e) + Room(s.metas, s.kids[e]) else s.metas[e].size
  }

  /** The chain of the entry holds all its bytes. */
  ghost predicate CoveredAt(s: State, e: DirEntry) {
    DirKnown(s, e) && BytesOf(s, e) <= |s.chains[e]| * BYTES_PER_CLUSTER
  }

  ghost predicate Covered(s: State) {
    forall e :: e in s.metas ==> CoveredAt(s, e)
  }

  lemma NeededCovers(size: u32)
    ensures size <= ClustersFor(size) * BYTES_PER_CLUSTER
  {
  }

  lemma ExactIsCovered(s: State)
    requires Exact(s)
    ensures Covered(s)
  {
    hide Room, ClustersFor;
    forall e | e in s.metas ensures CoveredAt(s, e) {
      assert ExactAt(s, e);
      NeededCovers(s.metas[e].size);
    }
  }

  // ---- removals ----

  lemma PrunedUp(s: State, d: DirEntry, c: DirEntry, s': State, x: DirEntry)
    requires Tree(s) && c in s.parents && s.parents[c] == d && Pruned(s, d, c, s') && Keys(s') && x in s'.parents
    ensures UpAt(s', x)
  {
    hide GoodMeta, Unique, Without;
    ParentOf(s, x);
    ParentOf(s, c);
    var p := s.parents[x];
    assert !Under(s, c, x) && Under(s, p, x);
    if p == d {
      assert DownAt(s, d);
      WithoutKeeps(s.kids[d], c);
      assert c in UnderSet(s, c);
    }
  }

  lemma PrunedDown(s: State, d: DirEntry, c: DirEntry, s': State, x: DirEntry)
    requires Tree(s) && c in s.parents && s.parents[c] == d && Pruned(s, d, c, s') && Keys(s') && x in s'.paths
    ensures DownAt(s', x)
  {
    hide GoodMeta, Unique, Without;
    ParentOf(s, c);
    assert DownAt(s, x) && DownAt(s, d);
    WithoutKeeps(s.kids[d], c);
    forall k | k in s'.kids[x] ensures k in s'.parents && s'.parents[k] == x {
      OutsideKid(s, d, c, x, k);
    }
  }

  /** A child of an entry that stays stays, but for the one removed. */
  lemma OutsideKid(s: State, d: DirEntry, c: DirEntry, x: DirEntry, k: DirEntry)
    requires Tree(s) && c in s.parents && s.parents[c] == d && x in s.paths && c in s.paths && !Under(s, c, x)
    requires x in s.kids && k in s.kids[x] && (x == d ==> k != c)
    ensures k in s.parents && s.parents[k] == x && k in s.paths && !Under(s, c, k)
  {
    hide GoodMeta, Up;
    assert DownAt(s, x);
    ParentOf(s, k);
  }

  /** Taking out an entry with all below it leaves a tree. */
  lemma PrunedTree(s: State, d: DirEntry, c: DirEntry, s': State)
    requires Tree(s) && c in s.parents && s.parents[c] == d && Pruned(s, d, c, s') && Keys(s')
    ensures Tree(s')
  {
    hide GoodMeta, UpAt, DownAt, Unique, Pruned;
    FsPath.PrunedPaths(s, d, c, s');
    PrunedRoot(s, d, c, s');
    forall x | x in s'.parents ensures UpAt(s', x) {
      PrunedUp(s, d, c, s', x);
    }
    forall x | x in s'.paths ensures DownAt(s', x) {
      PrunedDown(s, d, c, s', x);
    }
    DropUnique(s, s');
  }

  lemma PrunedRoot(s: State, d: DirEntry, c: DirEntry, s': State)
    requires Tree(s) && c in s.parents && s.parents[c] == d && Pruned(s, d, c, s') && Keys(s')
    ensures s'.paths[s'.root] == [] && s'.metas[s'.root].isDir
  {
    hide GoodMeta, UpAt, Down, Unique, Without;
  }

  /** A removal keeps what is left covered. */
  lemma ShrunkCovers(had: nat, size: u32, extra: nat, bytes: nat)
    requires extra <= bytes <= size <= MAX_SIZE && 64 <= extra <= 672
    requires size / BYTES_PER_CLUSTER <= had && bytes <= had * BYTES_PER_CLUSTER
    ensures bytes - extra <= ShrunkLength(had, size, extra) * BYTES_PER_CLUSTER
  {
    var q, r := size / BYTES_PER_CLUSTER, size % BYTES_PER_CLUSTER;
    if r < extra {
      assert size - extra == BYTES_PER_CLUSTER * (q - 1) + (BYTES_PER_CLUSTER + r - extra);
      assert ClustersFor(size - extra) == q;
    }
  }

  lemma KidsLeft(s: State, d: DirEntry, c: DirEntry, s': State, x: DirEntry)
    requires Tree(s) && Tree(s') && c in s.parents && s.parents[c] == d && Pruned(s, d, c, s') && x in s'.metas
    ensures x in s.metas && s'.metas[x] == s.metas[x] && x in s.kids && x in s'.kids && s'.root == s.root
    ensures x in s.chains && x in s'.chains && d in s.kids
    ensures s'.kids[x] == if x == d then Without(s.kids[d], c) else s.kids[x]
    ensures forall k :: k in s'.kids[x] ==> k in s'.metas && k in s.metas && s'.metas[k] == s.metas[k]
    ensures forall k :: k in s.kids[x] ==> k in s.metas
  {
    hide Up, Unique, Without;
    assert DownAt(s, x) && DownAt(s', x);
  }

  /** What a removal does to the bytes an entry has to show. */
  lemma RemovedBytes(s: State, d: DirEntry, c: DirEntry, s': State, x: DirEntry)
    requires Tree(s) && Tree(s') && c in s.parents && s.parents[c] == d && Pruned(s, d, c, s') && x in s'.metas
    ensures c in s.metas && x in s.metas && DirKnown(s, x) && DirKnown(s', x) && s'.metas[x] == s.metas[x]
    ensures x == d ==> s.metas[d].isDir
    ensures BytesOf(s', x) == if x == d then BytesOf(s, d) - EntrySize(s.metas[c]) else BytesOf(s, x)
  {
    hide EntrySize, Up, Down, Unique, Without, Pruned;
    ParentOf(s, c);
    KidsLeft(s, d, c, s', x);
    if x == d {
      RoomWithout(s.metas, s.kids[d], c);
    }
    RoomSame(s.metas, s'.metas, s'.kids[x]);
  }

  /** From a steady state a removal keeps every chain long enough. */
  lemma RemovalKeepsCovered(s: State, d: DirEntry, c: DirEntry, s': State)
    requires Tree(s) && Tree(s') && c in s.parents && s.parents[c] == d && Steady(s) && Covered(s)
    requires Pruned(s, d, c, s') && OthersKeep(s.chains, d, s'.chains) && Trimmed(s, d, c, s')
    ensures Covered(s') && Steady(s')
  {
    hide EntrySize, ShrunkLength, Tree, Pruned, BytesOf, Room, Base, CommonPrefix;
    SteadyShrinks(s, d, c, 0);
    forall x | x in s'.metas ensures CoveredAt(s', x) && (s'.metas[x].isDir ==> SteadyAt(s', x)) {
      RemovedBytes(s, d, c, s', x);
      assert CoveredAt(s, x) && (s.metas[x].isDir ==> SteadyAt(s, x));
      if s.metas[x].isDir {
        SteadyBytes(s, x);
        SteadyBytes(s', x);
      }
      if x == d {
        RemovalRoom(s, d, c);
        ShrunkCovers(|s.chains[d]|, s.metas[d].size, EntrySize(s.metas[c]), BytesOf(s, d));
      }
    }
  }

  lemma SteadyBytes(s: State, d: DirEntry)
    requires DirKnown(s, d) && s.metas[d].isDir
    ensures SteadyAt(s, d) <==>
            BytesOf(s, d) <= s.metas[d].size <= MAX_SIZE && s.metas[d].size / BYTES_PER_CLUSTER <= |s.chains[d]|
  {
  }

  lemma RemovalRoom(s: State, d: DirEntry, c: DirEntry)
    requires Tree(s) && c in s.parents && s.parents[c] == d && DirKnown(s, d)
    ensures c in s.metas && 64 <= EntrySize(s.metas[c]) <= 672
    ensures s.metas[d].isDir && EntrySize(s.metas[c]) <= BytesOf(s, d)
  {
    hide EntrySize, Up, Down, Unique, Without;
    ParentOf(s, c);
    RoomWithout(s.metas, s.kids[d], c);
    NameOf(s, c);
    EntrySizeBound(s.metas[c]);
  }

  // ---- additions ----

  lemma AddedBytes(s: State, d: DirEntry, e: DirEntry, m: EntryMetaData, s': State, x: DirEntry)
    requires Tree(s) && ChildAdded(s, d, e, m, s') && e !in s.paths && s.metas[d].isDir && x in s.metas
    ensures DirKnown(s, x) && DirKnown(s', x) && s'.metas[x].isDir == s.metas[x].isDir
    ensures BytesOf(s', x) == if x == d then BytesOf(s, d) + EntrySize(m) else BytesOf(s, x)
    ensures s'.metas[x].size == if x == d then (s.metas[d].size + EntrySize(m)) % TWO_32 else s.metas[x].size
    ensures |s'.chains[x]| ==
            if x == d then GrownLength(|s.chains[d]|, s.metas[d].size, EntrySize(m)) else |s.chains[x]|
  {
    hide EntrySize, Up, Unique, CommonPrefix, GrownLength, ClustersFor;
    AddedRooms(s, d, e, m, s');
    AddedFields(s, d, e, m, s', x);
    assert DownAt(s, x);
    RoomSame(s.metas, s'.metas, s.kids[x]);
    assert ([e] + s.kids[d])[1..] == s.kids[d];
  }

  lemma NewBytes(s: State, d: DirEntry, e: DirEntry, m: EntryMetaData, s': State)
    requires Tree(s) && ChildAdded(s, d, e, m, s') && e !in s.paths
    ensures DirKnown(s', e) && s'.metas[e].isDir == m.isDir && s'.metas[e].size == m.size
    ensures BytesOf(s', e) == (if m.isDir then 64 else m.size) && |s'.chains[e]| == ClustersFor(m.size)
  {
    hide EntrySize, Up, Unique, CommonPrefix, GrownLength, ClustersFor;
    AddedRooms(s, d, e, m, s');
  }

  /** An addition keeps every chain long enough if and only if that of its directory is, with the entry in it. */
  lemma AddKeepsCovered(s: State, d: DirEntry, e: DirEntry, m: EntryMetaData, s': State)
    requires Tree(s) && Covered(s) && ChildAdded(s, d, e, m, s') && e !in s.paths && s.metas[d].isDir
    ensures DirKnown(s, d)
    ensures Covered(s') <==> Base(s, d) + Room(s.metas, s.kids[d]) + EntrySize(m) <=
                             GrownLength(|s.chains[d]|, s.metas[d].size, EntrySize(m)) * BYTES_PER_CLUSTER
  {
    hide EntrySize, Tree, ChildAdded, BytesOf, GrownLength, ClustersFor;
    AddedKeys(s, d, e, m, s');
    AddedBytes(s, d, e, m, s', d);
    DirBytesOf(s, d);
    NewBytes(s, d, e, m, s');
    NeededCovers(m.size);
    OneAtLeast(m.size);
    forall x | x in s'.metas && x != d ensures CoveredAt(s', x) {
      if x != e {
        AddedBytes(s, d, e, m, s', x);
        assert CoveredAt(s, x);
      }
    }
    assert Covered(s') <==> CoveredAt(s', d);
  }

  lemma DirBytesOf(s: State, d: DirEntry)
    requires DirKnown(s, d) && s.metas[d].isDir
    ensures BytesOf(s, d) == Base(s, d) + Room(s.metas, s.kids[d])
  {
  }

  lemma OneAtLeast(size: u32)
    ensures ClustersFor(size) >= 1
  {
  }

  lemma AddedKeys(s: State, d: DirEntry, e: DirEntry, m: EntryMetaData, s': State)
    requires Tree(s) && ChildAdded(s, d, e, m, s') && e !in s.paths
    ensures s'.metas.Keys == s.metas.Keys + {e} && d in s.metas && e !in s.metas
  {
    hide Up, Down, Unique, EntrySize, CommonPrefix, GrownLength, ClustersFor, ShortNamed;
  }

  /** An addition leaves a steady state steady but in one case: it tops the recorded size of the directory up to a
      multiple of the cluster size, and the chain had no cluster to spare. */
  lemma AddKeepsSteady(s: State, d: DirEntry, e: DirEntry, m: EntryMetaData, s': State)
    requires Tree(s) && Steady(s) && ChildAdded(s, d, e, m, s') && e !in s.paths && s.metas[d].isDir
    requires GoodName(m.name) && s.metas[d].size + EntrySize(m) <= MAX_SIZE && (m.isDir ==> m.size == 64)
    ensures DirKnown(s, d)
    ensures var size := s.metas[d].size;
            Steady(s') <==> (size % BYTES_PER_CLUSTER + EntrySize(m) != BYTES_PER_CLUSTER ||
                             |s.chains[d]| > size / BYTES_PER_CLUSTER)
  {
    hide EntrySize, Tree, ChildAdded, BytesOf, GrownLength, ClustersFor, SteadyAt, GoodName;
    AddedKeys(s, d, e, m, s');
    AddedBytes(s, d, e, m, s', d);
    NewBytes(s, d, e, m, s');
    OneAtLeast(m.size);
    EntrySizeBound(m);
    forall x | x in s'.metas && s'.metas[x].isDir && x != d ensures SteadyAt(s', x) {
      if x == e {
        SteadyBytes(s', e);
      } else {
        AddedBytes(s, d, e, m, s', x);
        SteadyBytes(s, x);
        SteadyBytes(s', x);
      }
    }
    SteadyBytes(s, d);
    SteadyBytes(s', d);
    GrownSteady(|s.chains[d]|, s.metas[d].size, EntrySize(m));
    assert Steady(s') <==> SteadyAt(s', d);
  }

  // ---- updates ----

  /** `s'` is `s` after an update of the entry `c`. */
  ghost predicate Refreshed(s: State, c: DirEntry, dm: FsPath.DBMetaData, s': State) {
    && c in s.metas && c in s.chains && c in s'.chains
    && s' == FsPath.Updated(s, c, FsPath.UpdatedMeta(s.metas[c], dm), s'.chains[c])
    && |s'.chains[c]| == FsInsert.UpdatedLength(s.metas[c], |s.chains[c]|, dm)
    && CommonPrefix(s.chains[c], s'.chains[c])
  }

  lemma RefreshedBytes(s: State, c: DirEntry, dm: FsPath.DBMetaData, s': State, x: DirEntry)
    requires Tree(s) && Refreshed(s, c, dm, s') && x in s.metas
    ensures DirKnown(s, x) && DirKnown(s', x) && s'.metas[x].isDir == s.metas[x].isDir
    ensures x != c || s.metas[x].isDir ==>
              && BytesOf(s', x) == BytesOf(s, x) && s'.metas[x].size == s.metas[x].size
              && |s'.chains[x]| == |s.chains[x]|
    ensures x == c && !s.metas[c].isDir ==>
              BytesOf(s', c) == dm.size && |s'.chains[c]| == LengthAsCoded(|s.chains[c]|, ClustersFor(dm.size))
  {
    hide EntrySize, Up, Unique, CommonPrefix, LengthAsCoded, ClustersFor;
    assert DownAt(s, x);
    forall k | k in s.kids[x] ensures EntrySize(s.metas[k]) == EntrySize(s'.metas[k]) {
      SameRoom(s.metas[k], s'.metas[k]);
    }
    RoomSame(s.metas, s'.metas, s.kids[x]);
  }

  lemma GrownCovers(had: nat, size: u32)
    requires had >= 1
    ensures size <= LengthAsCoded(had, ClustersFor(size)) * BYTES_PER_CLUSTER <==> ClustersFor(size) <= had + 1
  {
    var n := LengthAsCoded(had, ClustersFor(size));
    assert n >= 1;
    assert size <= n * BYTES_PER_CLUSTER <==> ClustersFor(size) <= n;
  }

  /** An update keeps every chain long enough if and only if a file grows by at most one cluster; it keeps a steady
      tree steady. */
  lemma UpdateKeepsCovered(s: State, c: DirEntry, dm: FsPath.DBMetaData, s': State)
    requires Tree(s) && Refreshed(s, c, dm, s') && s.chains[c] != []
    ensures Covered(s) ==>
              (Covered(s') <==> s.metas[c].isDir || ClustersFor(dm.size) <= |s.chains[c]| + 1)
    ensures Steady(s) ==> Steady(s')
  {
    hide Tree, Refreshed, BytesOf, LengthAsCoded, ClustersFor, SteadyAt;
    RefreshedKeys(s, c, dm, s');
    GrownCovers(|s.chains[c]|, dm.size);
    forall x | x in s.metas
      ensures x != c || s.metas[c].isDir ==> (CoveredAt(s, x) ==> CoveredAt(s', x))
      ensures Steady(s) && s.metas[x].isDir ==> SteadyAt(s', x)
    {
      RefreshedBytes(s, c, dm, s', x);
      if s.metas[x].isDir {
        SteadyBytes(s, x);
        SteadyBytes(s', x);
      }
    }
    RefreshedBytes(s, c, dm, s', c);
    assert Covered(s) ==> (Covered(s') <==> CoveredAt(s', c));
  }

  lemma RefreshedKeys(s: State, c: DirEntry, dm: FsPath.DBMetaData, s': State)
    requires Refreshed(s, c, dm, s')
    ensures s'.metas.Keys == s.metas.Keys && c in s.metas && c in s.chains && c in s'.chains
    ensures forall x :: x in s.metas ==> s'.metas[x].isDir == s.metas[x].isDir
  {
  }

  /** An empty file that grows to 98304 bytes gets two clusters for three. */
  lemma LostBlocks(s: State, c: DirEntry, dm: FsPath.DBMetaData, s': State)
    requires Tree(s) && Exact(s) && Refreshed(s, c, dm, s') && s.chains[c] != []
    requires !s.metas[c].isDir && s.metas[c].size == 0 && dm.size == 98304
    ensures |s'.chains[c]| == 2 && !Covered(s')
  {
    hide Tree, Covered;
    ExactIsCovered(s);
    assert ExactAt(s, c);
    UpdateKeepsCovered(s, c, dm, s');
  }

  /** A directory of 32768 bytes in one cluster gets an entry and no cluster. */
  lemma FullCluster(s: State, d: DirEntry, e: DirEntry, m: EntryMetaData, s': State)
    requires Tree(s) && Exact(s) && ChildAdded(s, d, e, m, s') && e !in s.paths && GoodName(m.name)
    requires s.metas[d].isDir && s.metas[d].size == 32768
    ensures |s.chains[d]| == |s'.chains[d]| == 1 && !Covered(s')
  {
    hide Tree, Covered, EntrySize, GoodName, ChildAdded, Room;
    ExactIsCovered(s);
    AddedKeys(s, d, e, m, s');
    assert ExactAt(s, d);
    EntrySizeBound(m);
    AddedBytes(s, d, e, m, s', d);
    AddKeepsCovered(s, d, e, m, s');
  }

  // ---- a removal and then an addition ----

  /** Where the chain of a directory ends up when an exact directory of `size` bytes loses an entry of `out` bytes
      and then gets one of `into` bytes. */
  function SwappedLength(size: u32, out: nat, into: nat): nat {
    GrownLength(ShrunkLength(ClustersFor(size), size, out), size, into)
  }

  lemma SwapCovers(size: u32, out: nat, into: nat)
    requires 64 <= out <= 672 && 64 <= into <= 672 && out <= size && size + into <= MAX_SIZE
    ensures var r := size % BYTES_PER_CLUSTER;
            size - out + into <= SwappedLength(size, out, into) * BYTES_PER_CLUSTER <==> !(r < out < r + into)
  {
    var q, r := size / BYTES_PER_CLUSTER, size % BYTES_PER_CLUSTER;
    SwapShrunk(size, out);
    if r + into > BYTES_PER_CLUSTER {
      assert size + into == BYTES_PER_CLUSTER * (q + 1) + (r + into - BYTES_PER_CLUSTER);
      assert ClustersFor(size + into) == q + 2;
    }
  }

  lemma SwapShrunk(size: u32, out: nat)
    requires 64 <= out <= 672 && out <= size <= MAX_SIZE
    ensures ShrunkLength(ClustersFor(size), size, out) ==
            size / BYTES_PER_CLUSTER + if size % BYTES_PER_CLUSTER < out then 0 else 1
  {
    var q, r := size / BYTES_PER_CLUSTER, size % BYTES_PER_CLUSTER;
    assert size == BYTES_PER_CLUSTER * q + r;
    if r < out {
      assert size - out == BYTES_PER_CLUSTER * (q - 1) + (BYTES_PER_CLUSTER + r - out);
      assert ClustersFor(size - out) == q;
    }
  }

  /** A removal from an exact state and then an addition to the same directory: its bytes fit its chain unless the
      last cluster was given up for the one and not taken back for the other. */
  lemma RemoveThenAdd(s: State, d: DirEntry, c: DirEntry, s1: State, e: DirEntry, m: EntryMetaData, s2: State)
    requires Tree(s) && Tree(s1) && Exact(s) && c in s.parents && s.parents[c] == d
    requires Pruned(s, d, c, s1) && OthersKeep(s.chains, d, s1.chains) && Trimmed(s, d, c, s1)
    requires ChildAdded(s1, d, e, m, s2) && e !in s1.paths && GoodName(m.name)
    requires d in s.metas && s.metas[d].size + EntrySize(m) <= MAX_SIZE
    ensures c in s.metas
    ensures var r, out, into := s.metas[d].size % BYTES_PER_CLUSTER, EntrySize(s.metas[c]), EntrySize(m);
            Covered(s2) <==> !(r < out < r + into)
  {
    hide EntrySize, Tree, ChildAdded, Pruned, BytesOf, GrownLength, ClustersFor, ShrunkLength, Steady, Covered,
         GoodName, Room, Base, CommonPrefix, OthersKeep;
    ExactIsSteady(s);
    ExactIsCovered(s);
    RemovalKeepsCovered(s, d, c, s1);
    AddedDir(s1, d, e, m, s2);
    RemovedBytes(s, d, c, s1, d);
    RemovalRoom(s, d, c);
    EntrySizeBound(m);
    assert ExactAt(s, d);
    DirBytesOf(s, d);
    DirBytesOf(s1, d);
    AddKeepsCovered(s1, d, e, m, s2);
    SwapCovers(s.metas[d].size, EntrySize(s.metas[c]), EntrySize(m));
  }

  lemma AddedDir(s: State, d: DirEntry, e: DirEntry, m: EntryMetaData, s': State)
    requires ChildAdded(s, d, e, m, s')
    ensures d in s.metas
  {
  }

  /** A root of 32832 bytes in two clusters loses an entry of 96 bytes and gets another of 96 bytes: it has 32832
      bytes again, and one cluster. */
  lemma LostCluster(s: State, c: DirEntry, s1: State, e: DirEntry, m: EntryMetaData, s2: State)
    requires Tree(s) && Tree(s1) && Exact(s) && c in s.parents && s.parents[c] == s.root
    requires Pruned(s, s.root, c, s1) && OthersKeep(s.chains, s.root, s1.chains) && Trimmed(s, s.root, c, s1)
    requires ChildAdded(s1, s.root, e, m, s2) && e !in s1.paths && GoodName(m.name)
    requires s.root in s.metas && s.metas[s.root].size == 32832 && c in s.metas
    requires EntrySize(s.metas[c]) == EntrySize(m) == 96
    ensures !Covered(s2)
    ensures s.root in s2.chains && |s.chains[s.root]| == 2 && |s2.chains[s.root]| == 1
  {
    hide EntrySize, Tree, ChildAdded, Pruned, Exact, Covered, GoodName, Room, Base, CommonPrefix, OthersKeep;
    RemoveThenAdd(s, s.root, c, s1, e, m, s2);
    assert ExactAt(s, s.root) by { ExactOne(s, s.root); }
    AddedDir(s1, s.root, e, m, s2);
    RemovedBytes(s, s.root, c, s1, s.root);
    AddedBytes(s1, s.root, e, m, s2, s.root);
  }

  lemma ExactOne(s: State, x: DirEntry)
    requires Exact(s) && x in s.metas
    ensures ExactAt(s, x)
  {
  }
}
