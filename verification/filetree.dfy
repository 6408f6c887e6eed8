/** The in-memory directory tree edited by path (dbfat.c). */
module FileTree {
  import opened Words
  import opened Layout
  import opened Entries
  import opened Cluster
  import opened DirStream
  import opened FsState
  import opened FsRemove
  import opened FsRoom

  function FieldsOf(e: DirEntry): Fields
    reads e
  {
    Fields(e.parent, e.child, e.next, e.firstCluster, e.metadata)
  }

  /** `h` is a snapshot of the live entries. */
  ghost predicate Snapshot(h: Heap)
    reads h.Keys
  {
    forall e :: e in h ==> h[e] == FieldsOf(e)
  }

  /** With no children to remove nothing happens. */
  ghost predicate Idle(s: State, free: nat, d: DirEntry, s': State, free': nat, ok: bool) {
    d in s.kids && s.kids[d] == [] ==> ok && s' == s && free' == free
  }

  lemma IdleStart(s: State, free: nat, d: DirEntry)
    ensures Idle(s, free, d, s, free, true)
  {
  }

  lemma IdleMeans(s: State, free: nat, d: DirEntry, s': State, free': nat, ok: bool)
    requires Idle(s, free, d, s', free', ok)
    ensures d in s.kids && s.kids[d] == [] ==> ok && s' == s && free' == free
  {
  }

  lemma IdleNever(s: State, free: nat, d: DirEntry, s': State, free': nat, ok: bool)
    requires d in s.kids && s.kids[d] != []
    ensures Idle(s, free, d, s', free', ok)
  {
  }

  class Dbfat {
    const root: DirEntry
    const table: ClusterTable
    ghost var st: State
    ghost var heap: Heap

    ghost predicate Valid()
      reads this, table, table.fat, table.dirEntries, heap.Keys
    {
      && st.root == root && Tree(st) && RootFirst(st) && Mirrors(st, heap) && Snapshot(heap)
      && table.Valid(st.chains)
    }

    /** Number of free clusters. */
    ghost function Free(): nat
      reads table, table.fat
    {
      if table.fat.Length == FAT_LENGTH then FreeCount(table.fat[..]) else 0
    }

    lemma Facts()
      requires Valid()
      ensures st.root == root && Tree(st) && RootFirst(st) && Mirrors(st, heap) && Snapshot(heap)
      ensures heap.Keys == st.paths.Keys
    {
    }

    lemma TableFacts()
      requires Valid()
      ensures table.Valid(st.chains)
    {
    }

    ghost method SetGhosts(s: State, h: Heap)
      requires s.root == root && Tree(s) && RootFirst(s) && Mirrors(s, h) && Snapshot(h) && table.Valid(s.chains)
      modifies this`st, this`heap
      ensures Valid() && st == s && heap == h && Free() == old(Free())
    {
      hide Tree, RootFirst, Mirrors, Ownership, Snapshot;
      st, heap := s, h;
    }

    /** initialize_dbfat */
    constructor ()
      ensures Valid() && fresh(root) && fresh(table) && fresh(table.fat) && fresh(table.dirEntries)
      ensures StartState(st) && Exact(st)
    {
      var meta := EntryMetaData(0, 0, 0, true, 0, Zeros(11), [], Zeros(11));
      var r := new DirEntry(meta, ROOT_CLUSTER);
      root := r;
      table := new ClusterTable(r);
      st := State(r, map[r := []], map[], map[r := []], map[r := meta], map[r := [ROOT_CLUSTER]]);
      heap := map[r := Fields(null, null, null, ROOT_CLUSTER, meta)];
      new;
      hide Tree, Exact, RootFirst, Ownership, Mirrors;
      StartFacts(st);
      StartMirrors(st, heap);
    }

    /** First part of add_child_entry: the directory makes room for one more entry. */
    method GrowDir(dir: DirEntry, extra: u32, ghost chains: Chains, ghost h: Heap) returns (ok: bool,
                   ghost ds: seq<int>)
      requires table.Valid(chains) && Snapshot(h) && dir in h && extra <= 672
      requires dir in chains && chains[dir] != [] && chains[dir][0] == h[dir].firstCluster
      modifies dir`metadata, dir`firstCluster, table, table.fat, table.dirEntries
      ensures ok <==> GrowOk(|chains[dir]|, h[dir].metadata.size, extra, old(Free()))
      ensures ok ==> Free() + |ds| == old(Free()) + |chains[dir]|
      ensures ok ==> ds != [] && table.Valid(WithChain(chains, dir, ds))
      ensures ok ==> Snapshot(WithFirst(WithSize(h, dir, Add32(h[dir].metadata.size, extra)), dir, ds[0]))
      ensures ok ==> |ds| == GrownLength(|chains[dir]|, h[dir].metadata.size, extra)
      ensures ok ==> CommonPrefix(chains[dir], ds)
    {
      hide Ownership, Rechained, FreeCount, GrowthAsCoded, ClustersFor, CommonPrefix, LengthAsCoded;
      ghost var fat0: seq<int>, owners0 := table.fat[..], table.dirEntries[..];
      var lastClusterSize := dir.metadata.size % BYTES_PER_CLUSTER;
      ghost var h1 := WithSize(h, dir, Add32(h[dir].metadata.size, extra));
      dir.metadata := dir.metadata.(size := Add32(dir.metadata.size, extra));
      ok, ds := true, chains[dir];
      assert Snapshot(h1);
      hide Snapshot;
      if lastClusterSize + extra > BYTES_PER_CLUSTER {
        var first;
        ok, first, ds := table.ReallocateClusterChain(dir.firstCluster, dir.metadata.size, dir, chains);
        if ok {
          SetFirst(dir, first, h1);
          ChainRebuilt(fat0, owners0, table.fat[..], table.dirEntries[..], chains, dir, ds);
        }
      } else {
        SameChain(chains, dir);
        assert WithFirst(h1, dir, ds[0]) == h1;
      }
    }

    method InsertFirst(dir: DirEntry, m: EntryMetaData, ghost h: Heap) returns (n: DirEntry)
      requires Snapshot(h) && dir in h
      modifies dir`child
      ensures fresh(n) && n.firstCluster == 0 && Snapshot(WithNode(h, dir, n, m, 0))
    {
      n := new DirEntry(m, 0);
      n.next := dir.child;
      dir.child := n;
      n.parent := dir;
    }

    method SetFirst(e: DirEntry, first: u32, ghost h: Heap)
      requires Snapshot(h) && e in h
      modifies e`firstCluster
      ensures e.firstCluster == first && Snapshot(WithFirst(h, e, first))
    {
      e.firstCluster := first;
    }

    /** Second part: the new entry becomes the first child and gets its own chain. */
    method LinkChild(dir: DirEntry, m: EntryMetaData, ghost chains: Chains, ghost h: Heap) returns (node: DirEntry?,
                     ghost cs: seq<int>)
      requires table.Valid(chains) && Snapshot(h) && dir in h
      modifies dir`child, table, table.fat, table.dirEntries
      ensures node != null <==> m.size <= MAX_SIZE && ClustersFor(m.size) <= old(Free())
      ensures node != null ==> Free() + |cs| == old(Free())
      ensures node != null ==> fresh(node) && node !in chains && cs != []
      ensures node != null ==> Snapshot(WithNode(h, dir, node, m, cs[0]))
      ensures node != null ==> table.Valid(WithChain(chains, node, cs)) && |cs| == ClustersFor(m.size)
    {
      hide Ownership, Laid, Snapshot, FreeCount, ClustersFor, WithFirst;
      var n := InsertFirst(dir, m, h);
      assert n !in chains;
      hide ClusterTable.Valid;
      var ok, first;
      ok, first, cs := table.AllocateClusterChain(n, m.size, chains);
      NodeFirst(h, dir, n, m, first);
      SetFirst(n, first, WithNode(h, dir, n, m, 0));
      node := if ok then n else null;
    }

    /** add_child_entry on the linked structures; null stands for the abort when clusters run out. */
    method AddLinked(dir: DirEntry, m: EntryMetaData, ghost chains: Chains, ghost h: Heap)
      returns (e: DirEntry?, ghost m': EntryMetaData, ghost ds: seq<int>, ghost cs: seq<int>)
      requires table.Valid(chains) && Snapshot(h) && dir in h && GoodName(m.name)
      requires dir in chains && chains[dir] != [] && chains[dir][0] == h[dir].firstCluster
      modifies dir, table, table.fat, table.dirEntries
      ensures e != null <==> AddOk(|chains[dir]|, h[dir].metadata.size, EntrySize(m), m.size, old(Free()))
      ensures e != null ==> Free() + |cs| + |ds| == old(Free()) + |chains[dir]|
      ensures e != null ==> fresh(e) && e !in chains && ds != [] && cs != []
      ensures e != null ==> GoodMeta(m') && ShortNamed(m, m')
      ensures e != null ==> Snapshot(HeapAdded(h, dir, e, m', (h[dir].metadata.size + EntrySize(m)) % TWO_32, ds, cs))
      ensures e != null ==> table.Valid(WithChain(WithChain(chains, dir, ds), e, cs))
      ensures e != null ==>
                && CommonPrefix(chains[dir], ds)
                && |ds| == GrownLength(|chains[dir]|, h[dir].metadata.size, EntrySize(m))
      ensures e != null ==> |cs| == ClustersFor(m.size)
    {
      hide Ownership, EntrySize, GoodMeta, CommonPrefix, GrownLength, GrowOk, ClustersFor, Checksum, Snapshot,
           FreeCount, Free;
      EntrySizeBound(m);
      var ok;
      ok, ds := GrowDir(dir, EntrySize(m), chains, h);
      if !ok {
        return null, m, [], [];
      }
      var overread: u16 := *;
      var short := SetShortName(m.name, overread);
      var sum := NameChecksum(short);
      MadeGood(m, short);
      m' := m.(shortName := short, nameChecksum := sum);
      ghost var size := Add32(h[dir].metadata.size, EntrySize(m));
      ghost var h1: Heap := WithFirst(WithSize(h, dir, size), dir, ds[0]);
      e, cs := LinkChild(dir, m.(shortName := short, nameChecksum := sum), WithChain(chains, dir, ds), h1);
      if e != null {
        AddedInSteps(h, dir, e, m', size, ds, cs);
      }
    }

    /** add_child_entry and what it does to the whole tree. */
    method AddChildEntry(dir: DirEntry, m: EntryMetaData) returns (e: DirEntry?)
      requires Valid() && dir in st.paths && st.metas[dir].isDir && GoodName(m.name)
      requires forall x :: x in st.paths ==> st.paths[x] != st.paths[dir] + [m.name]
      modifies this`st, this`heap, table, table.fat, table.dirEntries, dir
      ensures e != null <==>
        AddOk(|old(st).chains[dir]|, old(st).metas[dir].size, EntrySize(m), m.size, old(Free()))
      ensures e != null ==> Valid() && fresh(e) && heap.Keys == old(heap.Keys) + {e}
      ensures e != null ==> Free() + |st.chains[e]| + |st.chains[dir]| ==
                            old(Free()) + |old(st).chains[dir]|
      ensures e != null ==> ChildAdded(old(st), dir, e, m, st)
      ensures e != null ==> e in st.metas && st.metas[e].name == m.name && st.metas[e].shortName == ShortNameOf(m.name)
    {
      hide Tree, Mirrors, Keys, Ownership, EntrySize, GoodMeta, CommonPrefix, GrownLength, ClustersFor, Added,
           ChildAdded, Snapshot, AddOk, FreeCount, Free, RootFirst, HeapAdded, WithChain, ShortNamed, GoodName, Valid,
           ShortNameOf;
      Facts();
      TableFacts();
      EntryFacts(st, heap, dir);
      ghost var s0: State, h0: Heap := st, heap;
      ghost var m', ds, cs;
      e, m', ds, cs := AddLinked(dir, m, s0.chains, h0);
      if e != null {
        ghost var node: DirEntry := e;
        ghost var size := (h0[dir].metadata.size + EntrySize(m)) % TWO_32;
        ghost var s1: State := Added(s0, dir, node, m', size, WithChain(WithChain(s0.chains, dir, ds), node, cs));
        AddDone(s0, h0, dir, node, m, m', ds, cs, s1);
        ChildNamed(s0, dir, node, m, s1);
        SetGhosts(s1, HeapAdded(h0, dir, node, m', size, ds, cs));
      }
    }

    /** Takes `child`, the `j`-th of `ks`, out of the list of its siblings. */
    method Unlink(dir: DirEntry, child: DirEntry, ghost h: Heap, ghost ks: seq<DirEntry>, ghost j: nat)
      requires Snapshot(h) && dir in h && (forall k :: k in ks ==> k in h)
      requires h[dir].child == At(ks, 0) && NoRepeats(ks) && j < |ks| && ks[j] == child
      requires forall i :: 0 <= i < |ks| ==> ks[i] in h && h[ks[i]].next == At(ks, i + 1)
      modifies dir`child, (set k | k in ks)`next
      ensures Snapshot(LinksCut(h, dir, ks, j))
    {
      if dir.child == child {
        dir.child := child.next;
      } else {
        var cc := dir.child;
        ghost var i := 0;
        while cc.next != child
          invariant 0 <= i < j && cc == ks[i]
          decreases j - i
        {
          assert cc != null;
          cc := cc.next;
          i := i + 1;
        }
        assert i == j - 1;
        cc.next := child.next;
      }
    }

    /** The directory gives up the room of one entry. The size taken off is then added back. */
    method ShrinkDir(dir: DirEntry, extra: u32, ghost chains: Chains, ghost h: Heap) returns (ok: bool,
                     ghost ds: seq<int>)
      requires table.Valid(chains) && Snapshot(h) && dir in h && extra <= 672
      requires dir in chains && chains[dir] != [] && chains[dir][0] == h[dir].firstCluster
      modifies dir`metadata, dir`firstCluster, table, table.fat, table.dirEntries
      ensures ok <==> ShrinkOk(|chains[dir]|, h[dir].metadata.size, extra, old(Free()))
      ensures ok ==> Free() + |ds| == old(Free()) + |chains[dir]|
      ensures ok ==> ds != [] && table.Valid(WithChain(chains, dir, ds)) && Snapshot(WithFirst(h, dir, ds[0]))
      ensures ok ==> |ds| == ShrunkLength(|chains[dir]|, h[dir].metadata.size, extra)
      ensures ok ==> CommonPrefix(chains[dir], ds)
    {
      hide Ownership, Rechained, FreeCount, GrowthAsCoded, ClustersFor, CommonPrefix, LengthAsCoded;
      ghost var fat0: seq<int>, owners0 := table.fat[..], table.dirEntries[..];
      ghost var size := dir.metadata.size;
      var lastClusterSize := dir.metadata.size % BYTES_PER_CLUSTER;
      dir.metadata := dir.metadata.(size := Sub32(dir.metadata.size, extra));
      ok, ds := true, chains[dir];
      if lastClusterSize < extra {
        var first;
        ok, first, ds := table.ReallocateClusterChain(dir.firstCluster, dir.metadata.size, dir, chains);
        if ok {
          dir.firstCluster := first;
          ChainRebuilt(fat0, owners0, table.fat[..], table.dirEntries[..], chains, dir, ds);
        }
      } else {
        SameChain(chains, dir);
      }
      ShrunkBack(size, extra);
      dir.metadata := dir.metadata.(size := Add32(dir.metadata.size, extra));
    }

    /** free_cluster_chain on the chain of one entry. */
    method FreeEntryChain(e: DirEntry, ghost chains: Chains, ghost h: Heap)
      requires table.Valid(chains) && Snapshot(h) && e in h
      requires e in chains && chains[e] != [] && chains[e][0] == h[e].firstCluster
      modifies table.fat
      ensures table.Valid(chains - {e})
      ensures Free() == old(Free()) + |chains[e]|
    {
      ghost var fat0 := table.fat[..];
      assert IsChain(fat0, chains[e]);
      table.FreeClusterChain(e.firstCluster, chains[e]);
      FreedCount(fat0, table.fat[..], chains[e]);
      FreedKeepsOwnership(fat0, table.dirEntries[..], table.fat[..], chains, e);
    }

    /** The last part of remove_child_entry, on the linked structures. */
    method RemoveLinked(dir: DirEntry, child: DirEntry, ghost chains: Chains, ghost h: Heap, ghost ks: seq<DirEntry>,
                        ghost j: nat)
      returns (ok: bool, ghost ds: seq<int>)
      requires table.Valid(chains) && Snapshot(h) && CanUnlink(h, chains, dir, ks, j) && ks[j] == child
      modifies dir, (set k | k in ks), table, table.fat, table.dirEntries
      ensures ok <==> ShrinkOk(|chains[dir]|, h[dir].metadata.size, EntrySize(h[child].metadata), old(Free()))
      ensures ok ==> Free() + |ds| == old(Free()) + |chains[dir]| + |chains[child]|
      ensures ok ==> ds != [] && Snapshot(Unlinked(h, dir, ks, j, ds[0]))
      ensures ok ==> table.Valid(WithChain(chains, dir, ds) - {child})
      ensures ok ==> |ds| == ShrunkLength(|chains[dir]|, h[dir].metadata.size, EntrySize(h[child].metadata))
      ensures ok ==> CommonPrefix(chains[dir], ds)
    {
      hide Ownership, EntrySize, CommonPrefix, ShrunkLength, ShrinkOk, LinksCut, Snapshot, GoodName, FreeCount, Free;
      var extra := ChildRoom(child, h);
      Unlink(dir, child, h, ks, j);
      CutFacts(h, dir, ks, j);
      ok, ds := ShrinkDir(dir, extra, chains, LinksCut(h, dir, ks, j));
      if ok {
        ghost var h1: Heap := WithFirst(LinksCut(h, dir, ks, j), dir, ds[0]);
        FreeEntryChain(child, WithChain(chains, dir, ds), h1);
        SnapshotLess(h1, child);
      }
    }

    /** The last part of remove_child_entry: `child` has nothing left below it. */
    method RemoveLeaf(dir: DirEntry, child: DirEntry) returns (ok: bool)
      requires Valid() && child in st.parents && st.parents[child] == dir && st.kids[child] == []
      modifies this`st, this`heap, table, table.fat, table.dirEntries, heap.Keys
      ensures ok ==> Valid() && heap.Keys <= old(heap.Keys)
      ensures ok <==> CanRemove(old(st), dir, child, old(Free()))
      ensures ok ==> LeafGone(old(st), dir, child, st) && Trimmed(old(st), dir, child, st)
      ensures Smooth(old(st), old(Free()), st, Free(), ok)
    {
      hide Tree, Mirrors, Keys, Ownership, EntrySize, CommonPrefix, ShrunkLength, ShrinkOk, Keep, Without, Unlinked,
           Snapshot, LeafGone, CanUnlink, Steady, Trimmed, FreeCount, Free, RootFirst, Valid;
      Facts();
      TableFacts();
      ghost var s0: State, h0: Heap := st, heap;
      ghost var j := LeafFacts(s0, h0, dir, child);
      ghost var ks: seq<DirEntry>, ds := s0.kids[dir], [];
      LeafSteady(s0, h0, dir, child, Free());
      ok, ds := RemoveLinked(dir, child, s0.chains, h0, ks, j);
      if ok {
        ghost var s1: State := Keep(s0, Live(s0) - {child}, dir, Without(ks, child),
            WithChain(s0.chains, dir, ds) - {child});
        LeafDone(s0, h0, dir, child, j, ds, s1);
        LeafTrimmed(s0, h0, dir, child, s1);
        SetGhosts(s1, Unlinked(h0, dir, ks, j, ds[0]));
      }
    }

    /** One turn of the loop of remove_child_entry: `next` is read before the entry is freed. */
    method RemoveNextChild(dir: DirEntry, cc: DirEntry, ghost s0: State, ghost free0: nat, ghost i: nat)
      returns (ok: bool, next: DirEntry?)
      requires Valid() && Tree(s0) && dir in s0.kids && i < |s0.kids[dir]| && cc == s0.kids[dir][i]
      requires Shorn(s0, dir, i, st) && OthersKeep(s0.chains, dir, st.chains) && Smooth(s0, free0, st, Free(), true)
      modifies this`st, this`heap, table, table.fat, table.dirEntries, heap.Keys
      ensures ok ==> Valid() && heap.Keys <= old(heap.Keys) && next == At(s0.kids[dir], i + 1)
      ensures ok ==> Shorn(s0, dir, i + 1, st) && OthersKeep(s0.chains, dir, st.chains)
      ensures Smooth(s0, free0, st, Free(), ok) && Idle(s0, free0, dir, st, Free(), ok)
      decreases UnderSet(s0, dir), 0
    {
      hide Tree, RootFirst, Mirrors, Keys, Pruned, Shorn, OthersKeep, UnderSet, Snapshot, FieldsOf, Steady, Trimmed,
           Valid, FreeCount, Free, Smooth, At, Idle;
      Facts();
      NextKid(s0, dir, i, st, heap);
      SnapshotAt(heap, cc);
      next := cc.next;
      ghost var s1: State, free1 := st, Free();
      ok := RemoveChildEntry(dir, cc);
      SmoothTwice(s0, free0, s1, free1, st, Free(), ok);
      IdleNever(s0, free0, dir, st, Free(), ok);
      if ok {
        Facts();
        KidGone(s0, dir, i, s1, st);
      }
    }

    /** The loop of remove_child_entry over the children of `dir`, and that of remove_all_file_entries. */
    method RemoveChildren(dir: DirEntry) returns (ok: bool)
      requires Valid() && dir in st.paths
      modifies this`st, this`heap, table, table.fat, table.dirEntries, heap.Keys
      ensures ok ==> Valid() && heap.Keys <= old(heap.Keys)
      ensures ok ==> AllShorn(old(st), dir, st) && OthersKeep(old(st).chains, dir, st.chains)
      ensures Idle(old(st), old(Free()), dir, st, Free(), ok)
      ensures Smooth(old(st), old(Free()), st, Free(), ok)
      decreases UnderSet(st, dir), 1
    {
      hide Tree, RootFirst, Mirrors, Keys, Shorn, AllShorn, OthersKeep, UnderSet, Snapshot, FieldsOf, Steady, Valid,
           FreeCount, Free, Smooth, At, Idle;
      ghost var s0: State, free0 := st, Free();
      Facts();
      EntryFacts(st, heap, dir);
      SnapshotAt(heap, dir);
      IdleStart(s0, free0, dir);
      ghost var i, ks: seq<DirEntry> := 0, s0.kids[dir];
      ShornStart(s0, dir);
      SmoothStart(st, Free());
      ok := true;
      var cc := dir.child;
      while cc != null
        invariant Valid() && heap.Keys <= old(heap.Keys) && ok
        invariant 0 <= i <= |ks| && cc == At(ks, i)
        invariant Idle(s0, free0, dir, st, Free(), true)
        invariant Shorn(s0, dir, i, st) && OthersKeep(s0.chains, dir, st.chains)
        invariant Smooth(s0, free0, st, Free(), true)
        decreases |ks| - i
      {
        AtKid(ks, i, cc);
        ok, cc := RemoveNextChild(dir, cc, s0, free0, i);
        if !ok {
          return;
        }
        i := i + 1;
      }
      ShornAll(s0, dir, i, st);
    }

    /** remove_child_entry, with `next` read before the entry is freed; false stands for an abort. */
    method RemoveChildEntry(dir: DirEntry, child: DirEntry) returns (ok: bool)
      requires Valid() && child in st.parents && st.parents[child] == dir
      modifies this`st, this`heap, table, table.fat, table.dirEntries, heap.Keys
      ensures ok ==> Valid() && heap.Keys <= old(heap.Keys)
      ensures ok ==> Pruned(old(st), dir, child, st) && OthersKeep(old(st).chains, dir, st.chains)
      ensures ok ==> Trimmed(old(st), dir, child, st)
      ensures child in old(st).kids && old(st).kids[child] == [] ==>
              (ok <==> CanRemove(old(st), dir, child, old(Free())))
      ensures Smooth(old(st), old(Free()), st, Free(), ok)
      decreases UnderSet(st, child), 2
    {
      hide Tree, RootFirst, Mirrors, Keys, Ownership, LeafGone, Pruned, AllShorn, OthersKeep, UnderSet, Snapshot,
           CanUnlink, FieldsOf, Steady, Trimmed, Valid, FreeCount, Free, Smooth, CanRemove, Idle;
      Facts();
      ghost var s0: State, free0 := st, Free();
      SmoothStart(s0, free0);
      ghost var j := LeafFacts(st, heap, dir, child);
      EntryFacts(st, heap, child);
      SnapshotAt(heap, child);
      if child.metadata.isDir {
        ok := RemoveChildren(child);
        IdleMeans(s0, free0, child, st, Free(), ok);
        if !ok {
          return;
        }
      } else {
        FileHasNoKids(s0, child);
      }
      Facts();
      AllKidsGone(s0, dir, child, st);
      ghost var s1: State, free1 := st, Free();
      ok := RemoveLeaf(dir, child);
      SmoothTwice(s0, free0, s1, free1, st, Free(), ok);
      if ok {
        SubtreeGone(s0, dir, child, s1, st);
        SubtreeTrimmed(s0, dir, child, s1, st);
      }
    }

    /** remove_all_file_entries: only the root is left, and only the clusters of the root are taken. */
    method RemoveAllFileEntries() returns (ok: bool)
      requires Valid()
      modifies this`st, this`heap, table, table.fat, table.dirEntries, heap.Keys
      ensures ok ==> Valid() && Live(st) == {root}
      ensures ok ==> Free() + |st.chains[root]| == N_CLUSTERS - 2
      ensures Steady(old(st)) ==> ok
    {
      hide Tree, Mirrors, Keys, Ownership, AllShorn, OthersKeep, Snapshot, Steady, FreeCount, Valid;
      Facts();
      ghost var s0: State := st;
      RootLive(s0);
      ok := RemoveChildren(root);
      if ok {
        Facts();
        TableFacts();
        OnlyRootLeft(s0, st);
        RootOwnsAll(table.fat[..], table.dirEntries[..], st.chains, root);
      }
    }

    /** get_entry_size of a live child */
    method ChildRoom(child: DirEntry, ghost h: Heap) returns (extra: u32)
      requires Snapshot(h) && child in h && GoodName(h[child].metadata.name)
      ensures extra == EntrySize(h[child].metadata) <= 672
    {
      EntrySizeBound(child.metadata);
      extra := EntrySize(child.metadata);
    }
  }

  lemma ShrunkBack(size: u32, extra: u32)
    ensures Add32(Sub32(size, extra), extra) == size
  {
  }

  lemma SameChain(chains: Chains, e: DirEntry)
    requires e in chains
    ensures WithChain(chains, e, chains[e]) == chains && CommonPrefix(chains[e], chains[e])
  {
  }

  lemma SnapshotAt(h: Heap, e: DirEntry)
    requires Snapshot(h) && e in h
    ensures h[e].child == e.child && h[e].next == e.next && h[e].parent == e.parent
    ensures h[e].firstCluster == e.firstCluster && h[e].metadata == e.metadata
  {
  }

  lemma SnapshotLess(h: Heap, c: DirEntry)
    requires Snapshot(h)
    ensures Snapshot(h - {c})
  {
  }
}
