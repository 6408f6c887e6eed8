/** Room that directories give their children: recorded sizes and chains (dbfat.c). */
module FsRoom {
  import opened Words
  import opened Layout
  import opened Entries
  import opened Cluster
  import opened DirStream
  import opened FsState
  import FsRemove

  type Metas = map<DirEntry, EntryMetaData>

  /** Bytes that the children `ks` take in their directory. */
  ghost function Room(metas: Metas, ks: seq<DirEntry>): nat
    requires forall k :: k in ks ==> k in metas
  {
    if ks == [] then 0 else EntrySize(metas[ks[0]]) + Room(metas, ks[1..])
  }

  /** Bytes of the dot entries. */
  ghost function Base(s: State, d: DirEntry): nat {
    if d == s.root then 0 else 2 * DIR_ENTRY_SIZE
  }

  ghost predicate DirKnown(s: State, d: DirEntry) {
    d in s.kids && d in s.metas && d in s.chains && forall k :: k in s.kids[d] ==> k in s.metas
  }

  /** Directory `d` records at least its contents, and has every cluster its recorded size fills. */
  ghost predicate SteadyAt(s: State, d: DirEntry) {
    && DirKnown(s, d)
    && Base(s, d) + Room(s.metas, s.kids[d]) <= s.metas[d].size <= MAX_SIZE
    && s.metas[d].size / BYTES_PER_CLUSTER <= |s.chains[d]|
  }

  ghost predicate Steady(s: State) {
    forall d :: d in s.metas && s.metas[d].isDir ==> SteadyAt(s, d)
  }

  lemma {:induction false} RoomSame(metas: Metas, metas': Metas, ks: seq<DirEntry>)
    requires forall k :: k in ks ==> k in metas && k in metas' && EntrySize(metas[k]) == EntrySize(metas'[k])
    ensures Room(metas, ks) == Room(metas', ks)
  {
    if ks != [] {
      RoomSame(metas, metas', ks[1..]);
    }
  }

  lemma {:induction false} RoomWithout(metas: Metas, ks: seq<DirEntry>, c: DirEntry)
    requires (forall k :: k in ks ==> k in metas) && c in ks
    ensures forall k :: k in Without(ks, c) ==> k in ks
    ensures Room(metas, Without(ks, c)) + EntrySize(metas[c]) == Room(metas, ks)
  {
    hide EntrySize;
    if ks[0] != c {
      RoomWithout(metas, ks[1..], c);
      assert ([ks[0]] + Without(ks[1..], c))[1..] == Without(ks[1..], c);
    }
  }

  /** The clusters that remove_child_entry asks for, when it asks for any, are there. */
  predicate ShrinkOk(had: nat, size: u32, extra: nat, free: nat) {
    size % BYTES_PER_CLUSTER < extra ==>
      var n := (size - extra) % TWO_32;
      n <= MAX_SIZE && GrowthAsCoded(had, ClustersFor(n)) <= free
  }

  /** Removing the childless `c` from `d` does not abort. */
  ghost predicate CanRemove(s: State, d: DirEntry, c: DirEntry, free: nat) {
    d in s.chains && d in s.metas && c in s.metas &&
    ShrinkOk(|s.chains[d]|, s.metas[d].size, EntrySize(s.metas[c]), free)
  }

  /** Length of a directory's chain after remove_child_entry. */
  function ShrunkLength(had: nat, size: u32, extra: nat): nat {
    if size % BYTES_PER_CLUSTER < extra then LengthAsCoded(had, ClustersFor((size - extra) % TWO_32)) else had
  }

  /** A directory whose size fills no cluster it lacks never grows, and keeps what its size fills. */
  lemma ShrinkFacts(had: nat, size: u32, extra: nat, free: nat)
    requires extra <= size <= MAX_SIZE && 64 <= extra <= 672 && size / BYTES_PER_CLUSTER <= had
    ensures ShrinkOk(had, size, extra, free)
    ensures size / BYTES_PER_CLUSTER <= ShrunkLength(had, size, extra) <= had
  {
    var q, r := size / BYTES_PER_CLUSTER, size % BYTES_PER_CLUSTER;
    if r < extra {
      assert size - extra == BYTES_PER_CLUSTER * (q - 1) + (BYTES_PER_CLUSTER + r - extra);
      assert ClustersFor(size - extra) == q;
    }
  }

  /** What remove_child_entry leaves of the chain of the directory. */
  ghost predicate Trimmed(s: State, d: DirEntry, c: DirEntry, s': State) {
    && d in s.chains && d in s'.chains && d in s.metas && c in s.metas
    && |s'.chains[d]| == ShrunkLength(|s.chains[d]|, s.metas[d].size, EntrySize(s.metas[c]))
    && CommonPrefix(s.chains[d], s'.chains[d])
  }

  lemma SteadyShrinks(s: State, d: DirEntry, c: DirEntry, free: nat)
    requires Tree(s) && Steady(s) && c in s.parents && s.parents[c] == d
    ensures d in s.chains && d in s.metas && c in s.metas
    ensures ShrinkOk(|s.chains[d]|, s.metas[d].size, EntrySize(s.metas[c]), free)
    ensures var size := s.metas[d].size;
            size / BYTES_PER_CLUSTER <= ShrunkLength(|s.chains[d]|, size, EntrySize(s.metas[c])) <= |s.chains[d]|
  {
    hide EntrySize, ShrinkOk, ShrunkLength, Up, Down, Unique, Without;
    ParentOf(s, c);
    assert SteadyAt(s, d);
    RoomWithout(s.metas, s.kids[d], c);
    assert EntrySize(s.metas[c]) <= s.metas[d].size;
    NameOf(s, c);
    EntrySizeBound(s.metas[c]);
    ShrinkFacts(|s.chains[d]|, s.metas[d].size, EntrySize(s.metas[c]), free);
  }

  lemma NameOf(s: State, c: DirEntry)
    requires Tree(s) && c in s.parents
    ensures c in s.metas && GoodName(s.metas[c].name)
  {
    assert UpAt(s, c);
  }

  /** Removing a childless entry keeps every directory steady. */
  lemma LeafKeepsSteady(s: State, d: DirEntry, c: DirEntry, s': State)
    requires Tree(s) && Steady(s) && c in s.parents && s.parents[c] == d && s.kids[c] == []
    requires FsRemove.LeafGone(s, d, c, s') && Trimmed(s, d, c, s')
    ensures Steady(s')
  {
    hide EntrySize, ShrinkOk, ShrunkLength, Up, Down, Unique, SteadyAt, Without, CommonPrefix, Tree;
    SteadyShrinks(s, d, c, 0);
    forall x | x in s'.metas && s'.metas[x].isDir ensures SteadyAt(s', x) {
      LeafKeepsSteadyAt(s, d, c, s', x);
    }
  }

  lemma LeafKeepsSteadyAt(s: State, d: DirEntry, c: DirEntry, s': State, x: DirEntry)
    requires Tree(s) && Steady(s) && c in s.parents && s.parents[c] == d && s.kids[c] == []
    requires FsRemove.LeafGone(s, d, c, s') && d in s'.chains
    requires s.metas[d].size / BYTES_PER_CLUSTER <= |s'.chains[d]|
    requires x in s'.metas && s'.metas[x].isDir
    ensures SteadyAt(s', x)
  {
    hide EntrySize, Up, Down, Unique, Without;
    assert x in s.metas && x != c && SteadyAt(s, x);
    ParentOf(s, c);
    if x == d {
      WithoutKeeps(s.kids[d], c);
      RoomWithout(s.metas, s.kids[d], c);
    } else {
      NotMyKid(s, d, c, x);
    }
    assert s'.kids[x] == if x == d then Without(s.kids[d], c) else s.kids[x];
    RoomSame(s.metas, s'.metas, s'.kids[x]);
  }

  lemma NotMyKid(s: State, d: DirEntry, c: DirEntry, x: DirEntry)
    requires Tree(s) && c in s.parents && s.parents[c] == d && x in s.kids && x != d
    ensures c !in s.kids[x]
  {
    assert DownAt(s, x);
  }

  /** What RemoveLeaf asks of the allocator is granted when directories are steady. */
  lemma LeafSteady(s: State, h: Heap, d: DirEntry, c: DirEntry, free: nat)
    requires Tree(s) && Mirrors(s, h) && c in s.parents && s.parents[c] == d && d in h && c in h
    ensures d in s.chains && c in s.paths && d in s.metas && c in s.metas
    ensures h[c].metadata == s.metas[c] && h[d].metadata == s.metas[d]
    ensures Steady(s) ==> ShrinkOk(|s.chains[d]|, h[d].metadata.size, EntrySize(h[c].metadata), free)
    ensures Steady(s) ==> ShrunkLength(|s.chains[d]|, h[d].metadata.size, EntrySize(h[c].metadata)) <= |s.chains[d]|
  {
    hide ShrinkOk, Steady, EntrySize;
    ParentOf(s, c);
    EntryFacts(s, h, d);
    EntryFacts(s, h, c);
    if Steady(s) {
      SteadyShrinks(s, d, c, free);
    }
  }

  /** A removal from a steady state never aborts, leaves a steady state, and takes no free cluster. */
  ghost predicate Smooth(s: State, free: nat, s': State, free': nat, ok: bool) {
    Steady(s) ==> ok && Steady(s') && free <= free'
  }

  lemma SmoothStart(s: State, free: nat)
    ensures Smooth(s, free, s, free, true)
  {
    hide Steady;
  }

  lemma SmoothTwice(s: State, free: nat, s1: State, free1: nat, s2: State, free2: nat, ok: bool)
    requires Smooth(s, free, s1, free1, true) && Smooth(s1, free1, s2, free2, ok)
    ensures Smooth(s, free, s2, free2, ok)
  {
    hide Steady;
  }

  lemma LeafKeepsRoot(s: State, d: DirEntry, c: DirEntry, s': State)
    requires Tree(s) && c in s.parents && FsRemove.LeafGone(s, d, c, s') && CommonPrefix(s.chains[d], s'.chains[d])
    requires s'.chains[d] != []
    ensures RootFirst(s) ==> RootFirst(s')
  {
    hide Up, Down, Unique, Without;
    if RootFirst(s) {
      RootKept(s, d, s'.chains[d], s');
    }
  }

  lemma LeafTrimmed(s: State, h: Heap, d: DirEntry, c: DirEntry, s': State)
    requires Tree(s) && c in s.parents && s.parents[c] == d && s.kids[c] == [] && FsRemove.LeafGone(s, d, c, s')
    requires d in s.metas && c in s.metas && d in h && c in h && h[c].metadata == s.metas[c]
    requires h[d].metadata == s.metas[d]
    requires |s'.chains[d]| == ShrunkLength(|s.chains[d]|, h[d].metadata.size, EntrySize(h[c].metadata))
    requires CommonPrefix(s.chains[d], s'.chains[d]) && s'.chains[d] != []
    ensures Trimmed(s, d, c, s') && (Steady(s) ==> Steady(s'))
    ensures RootFirst(s) ==> RootFirst(s')
  {
    LeafKeepsRoot(s, d, c, s');
    hide Tree, CommonPrefix, EntrySize, ShrunkLength, Steady;
    if Steady(s) {
      LeafKeepsSteady(s, d, c, s');
    }
  }

  lemma SubtreeTrimmed(s: State, d: DirEntry, c: DirEntry, s1: State, s2: State)
    requires d in s.chains && d in s1.chains && s1.chains[d] == s.chains[d]
    requires d in s1.metas && d in s.metas && s1.metas[d] == s.metas[d] && c in s1.metas && c in s.metas
    requires s1.metas[c] == s.metas[c]
    requires Trimmed(s1, d, c, s2)
    ensures Trimmed(s, d, c, s2)
  {
  }

  // ---- add-only accounting ----

  /** Recorded size and chain of one entry are exact: a directory records its contents, and every
      entry has the clusters its recorded size needs. */
  ghost predicate ExactAt(s: State, d: DirEntry) {
    && DirKnown(s, d)
    && (s.metas[d].isDir ==> s.metas[d].size == Base(s, d) + Room(s.metas, s.kids[d]))
    && |s.chains[d]| == ClustersFor(s.metas[d].size)
    && s.metas[d].size <= MAX_SIZE
  }

  ghost predicate Exact(s: State) {
    forall d :: d in s.metas ==> ExactAt(s, d)
  }

  /** An entry put in a directory whose chain is exact: at most one more cluster is needed, and the
      chain stays exact unless the old size is a nonzero multiple of the cluster size. */
  lemma GrownExact(size: u32, extra: nat)
    requires 64 <= extra <= 672 && size + extra <= MAX_SIZE
    ensures ClustersFor(size) <= ClustersFor(size + extra) <= ClustersFor(size) + 1
    ensures GrownLength(ClustersFor(size), size, extra) == ClustersFor(size + extra) <==>
            !(size > 0 && size % BYTES_PER_CLUSTER == 0)
  {
    var q, r := size / BYTES_PER_CLUSTER, size % BYTES_PER_CLUSTER;
    assert size == BYTES_PER_CLUSTER * q + r;
    assert ClustersFor(size + extra) == if r + extra > BYTES_PER_CLUSTER then q + 2 else q + 1;
    assert size > 0 ==> ClustersFor(size) == if r == 0 then q else q + 1;
  }

  /** The tree that initialize_dbfat makes. */
  ghost predicate StartState(s: State) {
    && s.paths == map[s.root := []] && s.parents == map[] && s.kids == map[s.root := []]
    && s.metas.Keys == {s.root} && s.metas[s.root].isDir && s.metas[s.root].size == 0
    && s.chains == map[s.root := [ROOT_CLUSTER]]
  }

  lemma StartFacts(s: State)
    requires StartState(s)
    ensures Tree(s) && Exact(s) && RootFirst(s)
  {
    hide GoodMeta;
  }

  lemma StartMirrors(s: State, h: Heap)
    requires StartState(s) && h == map[s.root := Fields(null, null, null, ROOT_CLUSTER, s.metas[s.root])]
    ensures Keys(s) && Mirrors(s, h)
  {
  }

  lemma AddKeepsExact(s: State, d: DirEntry, e: DirEntry, m: EntryMetaData, s': State)
    requires Tree(s) && Exact(s) && ChildAdded(s, d, e, m, s') && e !in s.paths && GoodName(m.name) && s.metas[d].isDir
    requires m.size <= MAX_SIZE && (m.isDir ==> m.size == 64)
    requires s.metas[d].size + EntrySize(m) <= MAX_SIZE
    requires !(s.metas[d].size > 0 && s.metas[d].size % BYTES_PER_CLUSTER == 0)
    ensures Exact(s')
  {
    hide EntrySize, ExactAt, ClustersFor, GrownLength, Added, Tree, CommonPrefix;
    forall x | x in s'.metas ensures ExactAt(s', x) {
      AddKeepsExactAt(s, d, e, m, s', x);
    }
  }

  lemma SameRoom(m: EntryMetaData, m': EntryMetaData)
    requires m.name == m'.name
    ensures EntrySize(m) == EntrySize(m')
  {
  }

  lemma AddedFields(s: State, d: DirEntry, e: DirEntry, m: EntryMetaData, s': State, x: DirEntry)
    requires ChildAdded(s, d, e, m, s') && e !in s.metas && x in s.metas
    ensures x in s'.metas && x in s'.kids && x in s'.chains && x in s.kids && x in s.chains && s'.root == s.root
    ensures s'.kids[x] == (if x == d then [e] + s.kids[d] else s.kids[x])
    ensures s'.metas[x] == (if x == d then s.metas[d].(size := (s.metas[d].size + EntrySize(m)) % TWO_32)
            else s.metas[x])
    ensures |s'.chains[x]| == if x == d then GrownLength(|s.chains[d]|, s.metas[d].size, EntrySize(m))
            else |s.chains[x]|
    ensures d in s.metas && e in s'.metas && ShortNamed(m, s'.metas[e])
  {
    hide CommonPrefix, GrownLength, ClustersFor, EntrySize, ShortNamed;
  }

  lemma AddedRooms(s: State, d: DirEntry, e: DirEntry, m: EntryMetaData, s': State)
    requires ChildAdded(s, d, e, m, s') && e !in s.metas && d in s.metas
    ensures e in s'.metas && s'.metas[e].size == m.size && s'.metas[e].isDir == m.isDir
    ensures EntrySize(s'.metas[e]) == EntrySize(m)
    ensures forall k :: k in s.metas ==> k in s'.metas && EntrySize(s'.metas[k]) == EntrySize(s.metas[k])
    ensures forall k :: k in s.metas ==>
              && s'.metas[k].isDir == s.metas[k].isDir
              && (k != d ==> s'.metas[k].size == s.metas[k].size)
  {
    hide ChildAdded, EntrySize, GrownLength;
    forall k | k in s.metas
      ensures k in s'.metas && EntrySize(s'.metas[k]) == EntrySize(s.metas[k])
      ensures s'.metas[k].isDir == s.metas[k].isDir && (k != d ==> s'.metas[k].size == s.metas[k].size)
    {
      AddedFields(s, d, e, m, s', k);
      SameRoom(s'.metas[k], s.metas[k]);
    }
    AddedFields(s, d, e, m, s', d);
    SameRoom(s'.metas[e], m);
  }

  lemma AddKeepsExactAt(s: State, d: DirEntry, e: DirEntry, m: EntryMetaData, s': State, x: DirEntry)
    requires Tree(s) && Exact(s) && ChildAdded(s, d, e, m, s') && e !in s.paths && GoodName(m.name) && s.metas[d].isDir
    requires m.size <= MAX_SIZE && (m.isDir ==> m.size == 64)
    requires s.metas[d].size + EntrySize(m) <= MAX_SIZE
    requires !(s.metas[d].size > 0 && s.metas[d].size % BYTES_PER_CLUSTER == 0)
    requires x in s'.metas
    ensures ExactAt(s', x)
  {
    hide EntrySize, ClustersFor, GrownLength, Up, Down, Unique, CommonPrefix, ExactAt;
    EntrySizeBound(m);
    AddedRooms(s, d, e, m, s');
    if x == e {
      NewExactAt(s, d, e, m, s');
    } else {
      assert ExactAt(s, x);
      OldExactAt(s, d, e, m, s', x);
    }
  }

  lemma NewExactAt(s: State, d: DirEntry, e: DirEntry, m: EntryMetaData, s': State)
    requires ChildAdded(s, d, e, m, s') && e !in s.paths && m.size <= MAX_SIZE && (m.isDir ==> m.size == 64)
    requires s'.metas[e].size == m.size && s'.metas[e].isDir == m.isDir
    ensures ExactAt(s', e)
  {
    hide EntrySize, ClustersFor, GrownLength, CommonPrefix;
  }

  lemma OldExactAt(s: State, d: DirEntry, e: DirEntry, m: EntryMetaData, s': State, x: DirEntry)
    requires ChildAdded(s, d, e, m, s') && e !in s.metas && e in s'.metas && x in s.metas && ExactAt(s, x)
    requires ExactAt(s, d) && s.metas[d].isDir
    requires 64 <= EntrySize(m) <= 672 && s.metas[d].size + EntrySize(m) <= MAX_SIZE
    requires !(s.metas[d].size > 0 && s.metas[d].size % BYTES_PER_CLUSTER == 0)
    requires EntrySize(s'.metas[e]) == EntrySize(m)
    requires forall k :: k in s.metas ==> k in s'.metas && EntrySize(s'.metas[k]) == EntrySize(s.metas[k])
    requires forall k :: k in s.metas ==>
               && s'.metas[k].isDir == s.metas[k].isDir
               && (k != d ==> s'.metas[k].size == s.metas[k].size)
    ensures ExactAt(s', x)
  {
    hide EntrySize, ClustersFor, GrownLength, ChildAdded, LengthAsCoded;
    AddedFields(s, d, e, m, s', x);
    RoomSame(s.metas, s'.metas, s.kids[x]);
    if x == d {
      GrownExact(s.metas[d].size, EntrySize(m));
      assert ([e] + s.kids[d])[1..] == s.kids[d];
    }
  }

  /** The size taken off a directory is added back when a child goes: what it records never shrinks,
      so it stops being exact at the first removal. */
  lemma RemovalKeepsSize(s: State, d: DirEntry, c: DirEntry, s': State)
    requires Tree(s) && Exact(s) && c in s.parents && s.parents[c] == d && FsRemove.Pruned(s, d, c, s') && Keys(s')
    ensures d in s'.metas && d in s.metas && DirKnown(s', d) && c in s.metas
    ensures s'.metas[d].size == s.metas[d].size == Base(s', d) + Room(s'.metas, s'.kids[d]) + EntrySize(s.metas[c])
    ensures !Exact(s')
  {
    hide EntrySize, ClustersFor, Up, Down, Unique, Without;
    ParentOf(s, c);
    assert ExactAt(s, d);
    RoomWithout(s.metas, s.kids[d], c);
    WithoutKeeps(s.kids[d], c);
    NameOf(s, c);
    EntrySizeBound(s.metas[c]);
    forall k | k in Without(s.kids[d], c) ensures k in s'.metas && s'.metas[k] == s.metas[k] {
      SiblingApart(s, d, c, k);
    }
    RoomSame(s.metas, s'.metas, s'.kids[d]);
    assert !ExactAt(s', d);
  }

  lemma SiblingApart(s: State, d: DirEntry, c: DirEntry, k: DirEntry)
    requires Tree(s) && c in s.parents && s.parents[c] == d && d in s.kids && k in s.kids[d] && k != c
    ensures k in s.paths && c in s.paths && !Under(s, c, k) && !Under(s, c, d)
  {
    hide GoodMeta;
    ParentOf(s, c);
    assert DownAt(s, d);
    ParentOf(s, k);
    assert s.paths[c] != s.paths[k];
  }

  /** So runs of additions never reach a state in which a removal could run out of clusters. */
  lemma ExactIsSteady(s: State)
    requires Exact(s)
    ensures Steady(s)
  {
    hide ClustersFor, Room;
    forall d | d in s.metas && s.metas[d].isDir ensures SteadyAt(s, d) {
      assert ExactAt(s, d);
      FilledClusters(s.metas[d].size);
    }
  }

  lemma FilledClusters(size: u32)
    ensures size / BYTES_PER_CLUSTER <= ClustersFor(size)
  {
  }

  /** After removals, an addition can leave a directory without a cluster that its recorded size fills
      in one case only: it tops that size up to a multiple of the cluster size, and the chain had no cluster to
      spare. */
  lemma GrownSteady(had: nat, size: u32, extra: nat)
    requires 64 <= extra <= 672 && size + extra <= MAX_SIZE && size / BYTES_PER_CLUSTER <= had
    ensures (size + extra) / BYTES_PER_CLUSTER <= GrownLength(had, size, extra) <==>
            (size % BYTES_PER_CLUSTER + extra != BYTES_PER_CLUSTER || had > size / BYTES_PER_CLUSTER)
  {
    var q, r := size / BYTES_PER_CLUSTER, size % BYTES_PER_CLUSTER;
    assert size + extra == BYTES_PER_CLUSTER * q + (r + extra);
    if r + extra > BYTES_PER_CLUSTER {
      assert (size + extra) / BYTES_PER_CLUSTER == q + 1;
      assert ClustersFor(size + extra) == q + 2;
    } else if r + extra == BYTES_PER_CLUSTER {
      assert (size + extra) / BYTES_PER_CLUSTER == q + 1;
    } else {
      assert (size + extra) / BYTES_PER_CLUSTER == q;
    }
  }
}
