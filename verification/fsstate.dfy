/** The directory tree as values: what the linked entries of dbfat.c stand for. */
module FsState {
  import opened Words
  import opened Layout
  import opened Entries
  import opened Cluster
  import opened DirStream

  /** `paths` has every live entry with its path from the root; `kids` lists children, latest first. */
  datatype State = State(
    root: DirEntry,
    paths: map<DirEntry, seq<Name>>,
    parents: map<DirEntry, DirEntry>,
    kids: map<DirEntry, seq<DirEntry>>,
    metas: map<DirEntry, EntryMetaData>,
    chains: Chains)

  ghost predicate NoRepeats(ds: seq<DirEntry>) {
    forall i, j :: 0 <= i < j < |ds| ==> ds[i] != ds[j]
  }

  ghost predicate Keys(s: State) {
    && s.root in s.paths
    && s.kids.Keys == s.paths.Keys && s.metas.Keys == s.paths.Keys && s.chains.Keys == s.paths.Keys
    && s.parents.Keys == s.paths.Keys - {s.root}
  }

  /** `e` hangs below a live directory, under its own name. */
  ghost predicate UpAt(s: State, e: DirEntry)
    requires Keys(s) && e in s.parents
  {
    var p := s.parents[e];
    && p in s.paths && s.metas[p].isDir
    && s.paths[e] == s.paths[p] + [s.metas[e].name]
    && e in s.kids[p]
    && GoodMeta(s.metas[e])
  }

  ghost predicate Up(s: State)
    requires Keys(s)
  {
    s.paths[s.root] == [] && s.metas[s.root].isDir && forall e :: e in s.parents ==> UpAt(s, e)
  }

  ghost predicate DownAt(s: State, d: DirEntry)
    requires Keys(s) && d in s.paths
  {
    NoRepeats(s.kids[d]) && forall c :: c in s.kids[d] ==> c in s.parents && s.parents[c] == d
  }

  ghost predicate Down(s: State)
    requires Keys(s)
  {
    forall d :: d in s.paths ==> DownAt(s, d)
  }

  /** No two live entries share a path: siblings have different names. */
  ghost predicate Unique(s: State) {
    forall a, b :: a in s.paths && b in s.paths && s.paths[a] == s.paths[b] ==> a == b
  }

  ghost predicate Tree(s: State) {
    Keys(s) && Up(s) && Down(s) && Unique(s)
  }

  /** The root directory starts in the cluster that the boot sector names. */
  ghost predicate RootFirst(s: State) {
    s.root in s.chains && s.chains[s.root] != [] && s.chains[s.root][0] == ROOT_CLUSTER
  }

  /** Every operation keeps the first cluster of the entry whose chain it rebuilds. */
  lemma RootKept(s: State, d: DirEntry, ds: seq<int>, s': State)
    requires RootFirst(s) && s'.root == s.root && d in s.chains && CommonPrefix(s.chains[d], ds) && ds != []
    requires s.root in s'.chains && s'.chains[s.root] == if s.root == d then ds else s.chains[s.root]
    ensures RootFirst(s')
  {
  }

  lemma RootKeptIf(s: State, d: DirEntry, ds: seq<int>, s': State)
    requires s'.root == s.root && d in s.chains && CommonPrefix(s.chains[d], ds) && ds != [] && s.root in s.chains
    requires s.root in s'.chains && s'.chains[s.root] == if s.root == d then ds else s.chains[s.root]
    ensures RootFirst(s) ==> RootFirst(s')
  {
    if RootFirst(s) {
      RootKept(s, d, ds, s');
    }
  }

  ghost function Live(s: State): set<DirEntry> { s.paths.Keys }

  /** `x` is `c` or lies below it. */
  ghost predicate Under(s: State, c: DirEntry, x: DirEntry)
    requires c in s.paths && x in s.paths
  {
    s.paths[c] <= s.paths[x]
  }

  ghost function UnderSet(s: State, c: DirEntry): set<DirEntry>
    requires c in s.paths
  {
    set x | x in s.paths && Under(s, c, x)
  }

  // ---- adding a child ----

  ghost function Added(s: State, d: DirEntry, e: DirEntry, m: EntryMetaData, size: u32, chains: Chains): State
    requires Keys(s) && d in s.paths
  {
    State(s.root,
          s.paths[e := s.paths[d] + [m.name]],
          s.parents[e := d],
          s.kids[d := [e] + s.kids[d]][e := []],
          s.metas[d := s.metas[d].(size := size)][e := m],
          chains)
  }

  ghost predicate CanAdd(s: State, d: DirEntry, e: DirEntry, m: EntryMetaData, chains: Chains)
  {
    && Tree(s) && d in s.paths && s.metas[d].isDir && e !in s.paths && GoodMeta(m)
    && (forall x :: x in s.paths ==> s.paths[x] != s.paths[d] + [m.name])
    && chains.Keys == s.paths.Keys + {e}
  }

  lemma AddKeepsTree(s: State, d: DirEntry, e: DirEntry, m: EntryMetaData, size: u32, chains: Chains)
    requires CanAdd(s, d, e, m, chains)
    ensures Keys(Added(s, d, e, m, size, chains)) && Tree(Added(s, d, e, m, size, chains))
  {
    hide GoodMeta, UpAt, DownAt, Unique;
    var s' := Added(s, d, e, m, size, chains);
    AddKeys(s, d, e, m, size, chains);
    AddUnique(s, s', e, s.paths[d] + [m.name]);
    forall x | x in s'.parents ensures UpAt(s', x) {
      assert x != e ==> UpAt(s, x);
      AddUp(s, d, e, m, size, chains, x);
    }
    forall x | x in s'.paths ensures DownAt(s', x) {
      assert x != e ==> DownAt(s, x);
      AddDown(s, d, e, m, size, chains, x);
    }
  }

  lemma AddKeys(s: State, d: DirEntry, e: DirEntry, m: EntryMetaData, size: u32, chains: Chains)
    requires Keys(s) && d in s.paths && e !in s.paths && chains.Keys == s.paths.Keys + {e}
    ensures Keys(Added(s, d, e, m, size, chains))
  {
  }

  lemma AddUnique(s: State, s': State, e: DirEntry, path: seq<Name>)
    requires Unique(s) && s'.paths == s.paths[e := path]
    requires forall x :: x in s.paths ==> s.paths[x] != path
    ensures Unique(s')
  {
  }

  lemma AddUp(s: State, d: DirEntry, e: DirEntry, m: EntryMetaData, size: u32, chains: Chains, x: DirEntry)
    requires Keys(s) && d in s.paths && s.metas[d].isDir && e !in s.paths && GoodMeta(m)
    requires chains.Keys == s.paths.Keys + {e}
    requires x == e || (x in s.parents && UpAt(s, x))
    ensures UpAt(Added(s, d, e, m, size, chains), x)
  {
    hide GoodMeta;
    assert x == d && x != e ==> GoodMeta(s.metas[x]) && GoodMeta(s.metas[d].(size := size)) by {
      if x == d && x != e { SizeKeepsGood(s.metas[d], size); }
    }
  }

  lemma SizeKeepsGood(m: EntryMetaData, size: u32)
    requires GoodMeta(m)
    ensures GoodMeta(m.(size := size))
  {
  }

  lemma AddDown(s: State, d: DirEntry, e: DirEntry, m: EntryMetaData, size: u32, chains: Chains, x: DirEntry)
    requires Keys(s) && d in s.paths && e !in s.paths && chains.Keys == s.paths.Keys + {e}
    requires x == e || (x in s.paths && DownAt(s, x))
    ensures DownAt(Added(s, d, e, m, size, chains), x)
  {
    if x == d {
      assert e !in s.kids[d];
    }
  }

  lemma ParentOf(s: State, e: DirEntry)
    requires Tree(s) && e in s.parents
    ensures var p := s.parents[e];
            && e != s.root && p in s.paths && s.metas[p].isDir && e in s.kids[p] && NoRepeats(s.kids[p])
            && s.paths[e] == s.paths[p] + [s.metas[e].name]
  {
    hide GoodMeta;
    assert UpAt(s, e);
    assert DownAt(s, s.parents[e]);
  }

  /** In every state every entry below the root has the short name made from its name, and its checksum. */
  lemma ShortNamesMade(s: State, e: DirEntry)
    requires Tree(s) && e in s.parents
    ensures e in s.metas && GoodName(s.metas[e].name)
    ensures s.metas[e].shortName == ShortNameOf(s.metas[e].name)
    ensures s.metas[e].nameChecksum == Checksum(s.metas[e].shortName)
  {
    hide GoodName, ShortNameOf, Checksum;
    assert UpAt(s, e);
  }

  // ---- keeping some entries ----

  ghost function Keep(s: State, live: set<DirEntry>, d: DirEntry, ks: seq<DirEntry>, chains: Chains): State
    requires Keys(s)
  {
    State(s.root,
          map x | x in s.paths && x in live :: s.paths[x],
          map x | x in s.parents && x in live :: s.parents[x],
          map x | x in s.kids && x in live :: if x == d then ks else s.kids[x],
          map x | x in s.metas && x in live :: s.metas[x],
          chains)
  }

  ghost function Without(ks: seq<DirEntry>, c: DirEntry): (r: seq<DirEntry>)
    requires c in ks
  {
    if ks[0] == c then ks[1..] else [ks[0]] + Without(ks[1..], c)
  }

  lemma WithoutAt(ks: seq<DirEntry>, j: nat)
    requires j < |ks| && NoRepeats(ks)
    ensures Without(ks, ks[j]) == ks[..j] + ks[j + 1..]
  {
    if j > 0 {
      TailNoRepeats(ks, j);
      hide NoRepeats;
      WithoutAt(ks[1..], j - 1);
      AroundTail(ks, j);
    }
  }

  lemma TailNoRepeats(ks: seq<DirEntry>, j: nat)
    requires 0 < j < |ks| && NoRepeats(ks)
    ensures NoRepeats(ks[1..]) && ks[0] != ks[j] && ks[1..][j - 1] == ks[j]
  {
  }

  lemma AroundTail(ks: seq<DirEntry>, j: nat)
    requires 0 < j < |ks|
    ensures [ks[0]] + (ks[1..][..j - 1] + ks[1..][j..]) == ks[..j] + ks[j + 1..]
  {
  }

  /** Dropping a childless entry `c` of directory `d`. */
  lemma DropLeaf(s: State, d: DirEntry, c: DirEntry, live: set<DirEntry>, chains: Chains)
    requires Tree(s) && c in s.parents && s.parents[c] == d && s.kids[c] == []
    requires live == Live(s) - {c} && chains.Keys == live
    ensures Tree(Keep(s, live, d, Without(s.kids[d], c), chains))
  {
    hide GoodMeta, UpAt, DownAt, Unique, Without;
    ParentOf(s, c);
    var s' := Keep(s, live, d, Without(s.kids[d], c), chains);
    assert Keys(s');
    forall x | x in s'.parents ensures UpAt(s', x) {
      assert UpAt(s, x);
      DropUp(s, d, c, live, chains, x);
    }
    forall x | x in s'.paths ensures DownAt(s', x) {
      assert DownAt(s, x);
      DropDown(s, d, c, live, chains, x);
    }
    assert Unique(s') by { DropUnique(s, s'); }
  }

  lemma DropUnique(s: State, s': State)
    requires Unique(s) && forall x :: x in s'.paths ==> x in s.paths && s'.paths[x] == s.paths[x]
    ensures Unique(s')
  {
  }

  lemma WithoutKeeps(ks: seq<DirEntry>, c: DirEntry)
    requires c in ks && NoRepeats(ks)
    ensures NoRepeats(Without(ks, c))
    ensures forall x :: x in Without(ks, c) <==> x in ks && x != c
  {
    var j :| 0 <= j < |ks| && ks[j] == c;
    WithoutAt(ks, j);
  }

  lemma DropUp(s: State, d: DirEntry, c: DirEntry, live: set<DirEntry>, chains: Chains, x: DirEntry)
    requires Keys(s) && c in s.parents && s.parents[c] == d && d in s.paths && s.kids[c] == []
    requires live == Live(s) - {c} && chains.Keys == live
    requires x in s.parents && x != c && UpAt(s, x)
    requires c in s.kids[d] && NoRepeats(s.kids[d])
    requires c != s.root
    ensures UpAt(Keep(s, live, d, Without(s.kids[d], c), chains), x)
  {
    hide GoodMeta, Without;
    WithoutKeeps(s.kids[d], c);
  }

  lemma DropDown(s: State, d: DirEntry, c: DirEntry, live: set<DirEntry>, chains: Chains, x: DirEntry)
    requires Keys(s) && c in s.parents && s.parents[c] == d && d in s.paths
    requires live == Live(s) - {c} && chains.Keys == live
    requires x in s.paths && x != c && DownAt(s, x)
    requires c in s.kids[d] && NoRepeats(s.kids[d])
    requires c != s.root
    ensures DownAt(Keep(s, live, d, Without(s.kids[d], c), chains), x)
  {
    hide GoodMeta, Without;
    WithoutKeeps(s.kids[d], c);
    var s' := Keep(s, live, d, Without(s.kids[d], c), chains);
    forall k | k in s'.kids[x] ensures k in s'.parents && s'.parents[k] == x {
      assert k in s.kids[x] && k != c;
    }
  }

  /** Whatever lies strictly below `c` lies below (or is) one of its children. */
  lemma NotTheRoot(s: State, c: DirEntry, x: DirEntry)
    requires Tree(s) && c in s.paths && x in s.paths && Under(s, c, x) && x != c
    ensures x in s.parents && s.paths[c] != s.paths[x]
  {
    hide GoodMeta, Down;
  }

  lemma {:induction false} BelowChild(s: State, c: DirEntry, x: DirEntry)
    requires Tree(s) && c in s.paths && x in s.paths && Under(s, c, x) && x != c
    ensures exists k :: k in s.kids[c] && k in s.paths && Under(s, k, x)
    decreases |s.paths[x]|
  {
    hide GoodMeta, Up, Down, Unique;
    NotTheRoot(s, c, x);
    ParentOf(s, x);
    var p := s.parents[x];
    if p == c {
      assert x in s.kids[c] && Under(s, x, x);
    } else {
      assert Under(s, c, p);
      BelowChild(s, c, p);
      var k :| k in s.kids[c] && k in s.paths && Under(s, k, p);
      assert Under(s, k, x);
    }
  }

  // ---- the linked form ----

  /** The fields of one struct DirEntry. */
  datatype Fields = Fields(parent: DirEntry?, child: DirEntry?, next: DirEntry?, firstCluster: int,
      metadata: EntryMetaData)

  type Heap = map<DirEntry, Fields>

  /** Entry `d` holds what `s` says, and its children are linked in order below it. */
  ghost predicate MirrorAt(s: State, h: Heap, d: DirEntry)
    requires Keys(s) && d in s.paths
  {
    && d in h
    && h[d].metadata == s.metas[d]
    && (s.chains[d] != [] && h[d].firstCluster == s.chains[d][0])
    && h[d].child == At(s.kids[d], 0)
    && (forall i :: 0 <= i < |s.kids[d]| ==>
          s.kids[d][i] in h && h[s.kids[d][i]].next == At(s.kids[d], i + 1) && h[s.kids[d][i]].parent == d)
  }

  ghost predicate Mirrors(s: State, h: Heap)
    requires Keys(s)
  {
    h.Keys == s.paths.Keys && forall d :: d in s.paths ==> MirrorAt(s, h, d)
  }

  /** Linking a new first child keeps the mirror. */
  lemma AddMirrors(s: State, h: Heap, h': Heap, d: DirEntry, e: DirEntry, m: EntryMetaData, size: u32, chains: Chains)
    requires Tree(s) && Mirrors(s, h) && d in s.paths && e !in s.paths
    requires chains.Keys == Live(s) + {e} && chains[d] != [] && chains[e] != []
    requires forall x :: x in s.paths && x != d ==> chains[x] == s.chains[x]
    requires h' == h[d := h[d].(child := e, firstCluster := chains[d][0], metadata := s.metas[d].(size := size))]
                    [e := Fields(d, null, h[d].child, chains[e][0], m)]
    ensures Keys(Added(s, d, e, m, size, chains)) && Mirrors(Added(s, d, e, m, size, chains), h')
  {
    hide GoodMeta, UpAt, Unique, MirrorAt, DownAt;
    var s' := Added(s, d, e, m, size, chains);
    AddKeys(s, d, e, m, size, chains);
    forall x | x in s'.paths ensures MirrorAt(s', h', x) {
      if x != e {
        assert MirrorAt(s, h, x) && DownAt(s, x);
      }
      AddMirrorAt(s, h, h', d, e, m, size, chains, x);
    }
  }

  lemma AddMirrorAt(s: State, h: Heap, h': Heap, d: DirEntry, e: DirEntry, m: EntryMetaData, size: u32, chains: Chains,
                    x: DirEntry)
    requires Keys(s) && d in s.paths && e !in s.paths && h.Keys == s.paths.Keys
    requires chains.Keys == Live(s) + {e} && chains[d] != [] && chains[e] != []
    requires x == e || (x in s.paths && MirrorAt(s, h, x) && DownAt(s, x) && (x != d ==> chains[x] == s.chains[x]))
    requires h' == h[d := h[d].(child := e, firstCluster := chains[d][0], metadata := s.metas[d].(size := size))]
                    [e := Fields(d, null, h[d].child, chains[e][0], m)]
    ensures Keys(Added(s, d, e, m, size, chains)) && MirrorAt(Added(s, d, e, m, size, chains), h', x)
  {
    hide UpAt, DownAt, MirrorAt, GoodMeta;
    AddKeys(s, d, e, m, size, chains);
    if x == d {
      AddMirrorDir(s, h, h', d, e, m, size, chains);
    } else if x != e {
      AddMirrorOther(s, h, h', d, e, m, size, chains, x);
    } else {
      AddMirrorNew(s, h, h', d, e, m, size, chains);
    }
  }

  lemma AddMirrorNew(s: State, h: Heap, h': Heap, d: DirEntry, e: DirEntry, m: EntryMetaData, size: u32, chains: Chains)
    requires Keys(s) && d in s.paths && e !in s.paths && d in h && Keys(Added(s, d, e, m, size, chains)) && e in chains
    requires chains[e] != []
    requires e in h' && h'[e] == Fields(d, null, h[d].child, chains[e][0], m)
    ensures MirrorAt(Added(s, d, e, m, size, chains), h', e)
  {
  }

  lemma AddMirrorOther(s: State, h: Heap, h': Heap, d: DirEntry, e: DirEntry, m: EntryMetaData, size: u32,
                       chains: Chains, x: DirEntry)
    requires Keys(s) && d in s.paths && e !in s.paths && h.Keys == s.paths.Keys && Keys(Added(s, d, e, m, size, chains))
    requires chains[d] != [] && chains[e] != []
    requires x in s.paths && x != d && x != e && MirrorAt(s, h, x) && chains[x] == s.chains[x]
    requires h' == h[d := h[d].(child := e, firstCluster := chains[d][0], metadata := s.metas[d].(size := size))]
                    [e := Fields(d, null, h[d].child, chains[e][0], m)]
    ensures MirrorAt(Added(s, d, e, m, size, chains), h', x)
  {
    var ks := s.kids[x];
    forall i | 0 <= i < |ks| ensures ks[i] in h' && h'[ks[i]].next == At(ks, i + 1) && h'[ks[i]].parent == x {
      assert ks[i] in h && h[ks[i]].next == At(ks, i + 1);
    }
  }

  lemma AddMirrorDir(s: State, h: Heap, h': Heap, d: DirEntry, e: DirEntry, m: EntryMetaData, size: u32, chains: Chains)
    requires Keys(s) && d in s.paths && e !in s.paths && h.Keys == s.paths.Keys && Keys(Added(s, d, e, m, size, chains))
    requires chains[d] != [] && chains[e] != [] && MirrorAt(s, h, d) && DownAt(s, d)
    requires h' == h[d := h[d].(child := e, firstCluster := chains[d][0], metadata := s.metas[d].(size := size))]
                    [e := Fields(d, null, h[d].child, chains[e][0], m)]
    ensures MirrorAt(Added(s, d, e, m, size, chains), h', d)
  {
    var ks, ks' := s.kids[d], [e] + s.kids[d];
    forall i | 0 <= i < |ks'| ensures ks'[i] in h' && h'[ks'[i]].next == At(ks', i + 1) && h'[ks'[i]].parent == d {
      if i > 0 {
        assert ks'[i] == ks[i - 1] && ks[i - 1] in s.parents;
        assert h[ks[i - 1]].next == At(ks, i);
      }
    }
  }

  /** Heap with `e` linked as first child of `d`, whose chain is now `ds` and whose size `size`. */
  ghost function HeapAdded(h: Heap, d: DirEntry, e: DirEntry, m: EntryMetaData, size: u32, ds: seq<int>,
                           cs: seq<int>): Heap
    requires d in h && ds != [] && cs != []
  {
    h[d := h[d].(child := e, firstCluster := ds[0], metadata := h[d].metadata.(size := size))]
     [e := Fields(d, null, h[d].child, cs[0], m)]
  }

  ghost function WithFirst(h: Heap, d: DirEntry, first: int): Heap
    requires d in h
  {
    h[d := h[d].(firstCluster := first)]
  }

  ghost function WithSize(h: Heap, d: DirEntry, size: u32): Heap
    requires d in h
  {
    h[d := h[d].(metadata := h[d].metadata.(size := size))]
  }

  ghost function WithNode(h: Heap, d: DirEntry, e: DirEntry, m: EntryMetaData, first: int): Heap
    requires d in h
  {
    h[d := h[d].(child := e)][e := Fields(d, null, h[d].child, first, m)]
  }

  lemma NodeFirst(h: Heap, d: DirEntry, e: DirEntry, m: EntryMetaData, first: int)
    requires d in h
    ensures e in WithNode(h, d, e, m, 0)
    ensures WithFirst(WithNode(h, d, e, m, 0), e, first) == WithNode(h, d, e, m, first)
  {
  }

  lemma AddedInSteps(h: Heap, d: DirEntry, e: DirEntry, m: EntryMetaData, size: u32, ds: seq<int>, cs: seq<int>)
    requires d in h && ds != [] && cs != []
    ensures WithNode(WithFirst(WithSize(h, d, size), d, ds[0]), d, e, m, cs[0]) == HeapAdded(h, d, e, m, size, ds, cs)
  {
  }

  /** `s'` is `s` with `e` as the first child of `d`: only the chains of `d` and `e` are new. */
  ghost predicate ChildAdded(s: State, d: DirEntry, e: DirEntry, m: EntryMetaData, s': State) {
    && Keys(s) && d in s.paths && d in s.metas && e in s'.metas && ShortNamed(m, s'.metas[e])
    && d in s.chains && d in s'.chains && e in s'.chains
    && s' == Added(s, d, e, s'.metas[e], (s.metas[d].size + EntrySize(m)) % TWO_32, s'.chains)
    && s'.chains == WithChain(WithChain(s.chains, d, s'.chains[d]), e, s'.chains[e])
    && |s'.chains[e]| == ClustersFor(m.size)
    && |s'.chains[d]| == GrownLength(|s.chains[d]|, s.metas[d].size, EntrySize(m))
    && CommonPrefix(s.chains[d], s'.chains[d])
  }

  /** The same metadata with the short name made from the name. */
  predicate ShortNamed(m: EntryMetaData, m': EntryMetaData) {
    && GoodName(m.name)
    && m' == m.(shortName := ShortNameOf(m.name), nameChecksum := Checksum(ShortNameOf(m.name)))
  }

  lemma ChildNamed(s: State, d: DirEntry, e: DirEntry, m: EntryMetaData, s': State)
    requires ChildAdded(s, d, e, m, s')
    ensures e in s'.metas && GoodName(m.name)
    ensures s'.metas[e].name == m.name && s'.metas[e].shortName == ShortNameOf(m.name)
  {
    hide Keys, Added, EntrySize, WithChain, ClustersFor, GrownLength, CommonPrefix, GoodName;
  }

  /** Length of a directory's chain after add_child_entry: it is asked to grow only when the new entry
      runs past the cluster the old size ends in. */
  function GrownLength(had: nat, size: u32, extra: nat): nat {
    if size % BYTES_PER_CLUSTER + extra > BYTES_PER_CLUSTER then
        LengthAsCoded(had, ClustersFor((size + extra) % TWO_32)) else had
  }

  /** The clusters that add_child_entry asks for are there. */
  predicate GrowOk(had: nat, size: u32, extra: nat, free: nat) {
    size % BYTES_PER_CLUSTER + extra > BYTES_PER_CLUSTER ==>
      var n := (size + extra) % TWO_32;
      n <= MAX_SIZE && GrowthAsCoded(had, ClustersFor(n)) <= free
  }

  predicate AddOk(had: nat, size: u32, extra: nat, childSize: u32, free: nat) {
    && GrowOk(had, size, extra, free)
    && childSize <= MAX_SIZE && GrownLength(had, size, extra) + ClustersFor(childSize) <= free + had
  }

  lemma CanAddNow(s: State, d: DirEntry, e: DirEntry, m: EntryMetaData, m': EntryMetaData, chains: Chains)
    requires Tree(s) && d in s.paths && s.metas[d].isDir && e !in s.paths && GoodMeta(m') && ShortNamed(m, m')
    requires forall x :: x in s.paths ==> s.paths[x] != s.paths[d] + [m.name]
    requires chains.Keys == s.paths.Keys + {e}
    ensures CanAdd(s, d, e, m', chains)
  {
    hide GoodMeta, Up, Down, Unique;
  }

  lemma AddedShape(s: State, d: DirEntry, e: DirEntry, m: EntryMetaData, m': EntryMetaData, ds: seq<int>, cs: seq<int>,
                   s': State)
    requires Keys(s) && d in s.paths && d in s.chains && e !in s.paths && ShortNamed(m, m')
    requires |cs| == ClustersFor(m.size) && CommonPrefix(s.chains[d], ds)
    requires |ds| == GrownLength(|s.chains[d]|, s.metas[d].size, EntrySize(m))
    requires s' == Added(s, d, e, m', (s.metas[d].size + EntrySize(m)) % TWO_32,
             WithChain(WithChain(s.chains, d, ds), e, cs))
    ensures ChildAdded(s, d, e, m, s')
    ensures s'.root == s.root && s'.chains == WithChain(WithChain(s.chains, d, ds), e, cs)
    ensures e in s'.chains && s'.chains[e] == cs && d in s'.chains && s'.chains[d] == ds
  {
    hide EntrySize, GrownLength, ClustersFor, CommonPrefix, ShortNamed;
  }

  lemma AddedMirrors(s: State, h: Heap, d: DirEntry, e: DirEntry, m: EntryMetaData, size: u32, ds: seq<int>,
                     cs: seq<int>, s': State)
    requires Tree(s) && Mirrors(s, h) && d in s.paths && e !in s.paths && d in h && ds != [] && cs != []
    requires s' == Added(s, d, e, m, size, WithChain(WithChain(s.chains, d, ds), e, cs))
    ensures Keys(s') && Mirrors(s', HeapAdded(h, d, e, m, size, ds, cs))
    ensures HeapAdded(h, d, e, m, size, ds, cs).Keys == h.Keys + {e}
  {
    hide GoodMeta, Tree, Mirrors, Added, WithChain, HeapAdded;
    EntryFacts(s, h, d);
    TwoChains(s.chains, d, ds, e, cs);
    HeapAddedIs(h, d, e, m, size, ds, cs);
    assert Live(s) == s.chains.Keys by { SameLive(s); }
    AddMirrors(s, h, HeapAdded(h, d, e, m, size, ds, cs), d, e, m, size, WithChain(WithChain(s.chains, d, ds), e, cs));
  }

  lemma SameLive(s: State)
    requires Tree(s)
    ensures Live(s) == s.chains.Keys
  {
  }

  lemma TwoChains(chains: Chains, d: DirEntry, ds: seq<int>, e: DirEntry, cs: seq<int>)
    requires d in chains && e !in chains
    ensures var chains' := WithChain(WithChain(chains, d, ds), e, cs);
            && chains'.Keys == chains.Keys + {e} && chains'[d] == ds && chains'[e] == cs
            && forall x :: x in chains && x != d ==> chains'[x] == chains[x]
  {
  }

  lemma HeapAddedIs(h: Heap, d: DirEntry, e: DirEntry, m: EntryMetaData, size: u32, ds: seq<int>, cs: seq<int>)
    requires d in h && ds != [] && cs != []
    ensures HeapAdded(h, d, e, m, size, ds, cs) ==
            h[d := h[d].(child := e, firstCluster := ds[0], metadata := h[d].metadata.(size := size))]
             [e := Fields(d, null, h[d].child, cs[0], m)]
    ensures HeapAdded(h, d, e, m, size, ds, cs).Keys == h.Keys + {e}
  {
  }

  /** add_child_entry on values: tree and mirror, once the chains are laid. */
  lemma AddDone(s: State, h: Heap, d: DirEntry, e: DirEntry, m: EntryMetaData, m': EntryMetaData,
                ds: seq<int>, cs: seq<int>, s': State)
    requires Tree(s) && Mirrors(s, h) && d in s.paths && s.metas[d].isDir && e !in s.paths
    requires GoodMeta(m') && ShortNamed(m, m') && ds != [] && cs != [] && d in h && d in s.chains
    requires forall x :: x in s.paths ==> s.paths[x] != s.paths[d] + [m.name]
    requires |cs| == ClustersFor(m.size) && CommonPrefix(s.chains[d], ds)
    requires |ds| == GrownLength(|s.chains[d]|, h[d].metadata.size, EntrySize(m))
    requires s' == Added(s, d, e, m', (h[d].metadata.size + EntrySize(m)) % TWO_32,
             WithChain(WithChain(s.chains, d, ds), e, cs))
    ensures Keys(s') && Tree(s')
    ensures Mirrors(s', HeapAdded(h, d, e, m', (h[d].metadata.size + EntrySize(m)) % TWO_32, ds, cs))
    ensures s'.root == s.root && s'.chains == WithChain(WithChain(s.chains, d, ds), e, cs)
    ensures ChildAdded(s, d, e, m, s')
    ensures HeapAdded(h, d, e, m', (h[d].metadata.size + EntrySize(m)) % TWO_32, ds, cs).Keys == h.Keys + {e}
    ensures e in s'.chains && s'.chains[e] == cs && d in s'.chains && s'.chains[d] == ds
    ensures RootFirst(s) ==> RootFirst(s')
  {
    hide GoodMeta, UpAt, DownAt, Unique, MirrorAt, EntrySize, GrownLength, ClustersFor, CommonPrefix, RootFirst,
         ShortNamed, Up, Down, ChildAdded, HeapAdded;
    var chains := WithChain(WithChain(s.chains, d, ds), e, cs);
    var size := (h[d].metadata.size + EntrySize(m)) % TWO_32;
    EntryFacts(s, h, d);
    hide Mirrors;
    CanAddNow(s, d, e, m, m', chains);
    AddedShape(s, d, e, m, m', ds, cs, s');
    AddKeepsTree(s, d, e, m', size, chains);
    AddedMirrors(s, h, d, e, m', size, ds, cs, s');
    RootKeptIf(s, d, ds, s');
  }

  lemma MadeGood(m: EntryMetaData, short: seq<u8>)
    requires GoodName(m.name) && short == ShortNameOf(m.name)
    ensures GoodMeta(m.(shortName := short, nameChecksum := Checksum(short)))
  {
  }

  lemma EntryFacts(s: State, h: Heap, d: DirEntry)
    requires Tree(s) && Mirrors(s, h) && d in s.paths
    ensures Keys(s) && d in h && d in s.chains && d in s.metas && d in s.kids
    ensures s.chains[d] != [] && h[d].firstCluster == s.chains[d][0] && h[d].metadata == s.metas[d]
    ensures h[d].child == At(s.kids[d], 0)
    ensures h.Keys == s.paths.Keys == s.chains.Keys
  {
    assert MirrorAt(s, h, d);
  }

  lemma EntrySizeBound(m: EntryMetaData)
    requires GoodName(m.name)
    ensures 64 <= EntrySize(m) <= 672
  {
  }
}
