/** Removing entries from the directory tree, on values. */
module FsRemove {
  import opened Entries
  import opened Cluster
  import opened DirStream
  import opened FsState
  import Layout

  // ---- one childless entry ----

  /** Heap after the `j`-th child of `d` is taken out of the list `ks`. */
  ghost function LinksCut(h: Heap, d: DirEntry, ks: seq<DirEntry>, j: nat): Heap
    requires d in h && j < |ks| && (forall k :: k in ks ==> k in h)
  {
    if j == 0 then h[d := h[d].(child := At(ks, 1))] else h[ks[j - 1] := h[ks[j - 1]].(next := At(ks, j + 1))]
  }

  /** Heap after that child is unlinked and freed. */
  ghost function Unlinked(h: Heap, d: DirEntry, ks: seq<DirEntry>, j: nat, first: int): Heap
    requires d in h && j < |ks| && (forall k :: k in ks ==> k in h)
  {
    WithFirst(LinksCut(h, d, ks, j), d, first) - {ks[j]}
  }

  ghost predicate CanDrop(s: State, h: Heap, d: DirEntry, c: DirEntry, j: nat)
  {
    && Tree(s) && Mirrors(s, h)
    && c in s.parents && s.parents[c] == d && d in s.paths && s.kids[c] == []
    && j < |s.kids[d]| && s.kids[d][j] == c
  }

  lemma DropMirrors(s: State, h: Heap, d: DirEntry, c: DirEntry, j: nat, ds: seq<int>, chains: Chains, s': State)
    requires CanDrop(s, h, d, c, j) && ds != [] && d in h && (forall k :: k in s.kids[d] ==> k in h)
    requires chains.Keys == Live(s) - {c} && d in chains && chains[d] == ds
    requires forall x :: x in chains && x != d ==> chains[x] == s.chains[x]
    requires s' == Keep(s, Live(s) - {c}, d, s.kids[d][..j] + s.kids[d][j + 1..], chains)
    ensures Keys(s') && Mirrors(s', Unlinked(h, d, s.kids[d], j, ds[0]))
  {
    hide GoodMeta, UpAt, DownAt, Unique, MirrorAt, Unlinked;
    ParentOf(s, c);
    DropKeys(s, d, c, chains, s');
    var h' := Unlinked(h, d, s.kids[d], j, ds[0]);
    assert h'.Keys == s'.paths.Keys by { UnlinkedKeys(h, d, s.kids[d], j, ds[0]); }
    forall x | x in s'.paths ensures MirrorAt(s', h', x) {
      assert MirrorAt(s, h, x) && DownAt(s, x) && DownAt(s, d) && MirrorAt(s, h, d);
      DropMirrorAt(s, h, d, c, j, ds, chains, s', x);
    }
  }

  lemma UnlinkedKeys(h: Heap, d: DirEntry, ks: seq<DirEntry>, j: nat, first: int)
    requires d in h && j < |ks| && (forall k :: k in ks ==> k in h)
    ensures Unlinked(h, d, ks, j, first).Keys == h.Keys - {ks[j]}
  {
  }

  lemma DropKeys(s: State, d: DirEntry, c: DirEntry, chains: Chains, s': State)
    requires Keys(s) && c in s.parents && chains.Keys == Live(s) - {c}
    requires exists ks :: s' == Keep(s, Live(s) - {c}, d, ks, chains)
    ensures Keys(s') && s'.paths.Keys == Live(s) - {c}
  {
  }

  lemma DropMirrorAt(s: State, h: Heap, d: DirEntry, c: DirEntry, j: nat, ds: seq<int>, chains: Chains, s': State,
                     x: DirEntry)
    requires Keys(s) && Keys(s') && d in s.paths && x in s.paths && x in s'.paths && x != c && ds != []
    requires h.Keys == s.paths.Keys && d in h && (forall k :: k in s.kids[d] ==> k in h)
    requires j < |s.kids[d]| && s.kids[d][j] == c && c != d
    requires MirrorAt(s, h, x) && DownAt(s, x) && DownAt(s, d) && MirrorAt(s, h, d)
    requires d in chains && chains[d] == ds && (x in chains && (x != d ==> chains[x] == s.chains[x]))
    requires s' == Keep(s, Live(s) - {c}, d, s.kids[d][..j] + s.kids[d][j + 1..], chains)
    ensures MirrorAt(s', Unlinked(h, d, s.kids[d], j, ds[0]), x)
  {
    hide MirrorAt, DownAt, Unlinked, Keys;
    if x == d {
      DropMirrorDir(s, h, d, c, j, ds, chains, s');
    } else {
      DropMirrorOther(s, h, d, c, j, ds, chains, s', x);
    }
  }

  lemma DropMirrorDir(s: State, h: Heap, d: DirEntry, c: DirEntry, j: nat, ds: seq<int>, chains: Chains, s': State)
    requires Keys(s) && Keys(s') && d in s.paths && d in s'.paths && ds != []
    requires h.Keys == s.paths.Keys && d in h && (forall k :: k in s.kids[d] ==> k in h)
    requires j < |s.kids[d]| && s.kids[d][j] == c && c != d && DownAt(s, d) && MirrorAt(s, h, d)
    requires d in chains && chains[d] == ds
    requires s' == Keep(s, Live(s) - {c}, d, s.kids[d][..j] + s.kids[d][j + 1..], chains)
    ensures MirrorAt(s', Unlinked(h, d, s.kids[d], j, ds[0]), d)
  {
    hide DownAt;
    LinksWithout(s, h, d, j, ds[0]);
    hide Unlinked;
  }

  lemma DropMirrorOther(s: State, h: Heap, d: DirEntry, c: DirEntry, j: nat, ds: seq<int>, chains: Chains, s': State,
                        x: DirEntry)
    requires Keys(s) && Keys(s') && d in s.paths && x in s.paths && x in s'.paths && x != c && x != d && ds != []
    requires h.Keys == s.paths.Keys && d in h && (forall k :: k in s.kids[d] ==> k in h)
    requires j < |s.kids[d]| && s.kids[d][j] == c && c != d
    requires MirrorAt(s, h, x) && DownAt(s, x) && DownAt(s, d)
    requires x in chains && chains[x] == s.chains[x]
    requires s' == Keep(s, Live(s) - {c}, d, s.kids[d][..j] + s.kids[d][j + 1..], chains)
    ensures MirrorAt(s', Unlinked(h, d, s.kids[d], j, ds[0]), x)
  {
    hide Unlinked;
    var h' := Unlinked(h, d, s.kids[d], j, ds[0]);
    UnlinkedSame(h, d, s.kids[d], j, ds[0], x);
    forall i | 0 <= i < |s.kids[x]|
      ensures s.kids[x][i] in h' && h'[s.kids[x][i]].next == At(s.kids[x], i + 1) && h'[s.kids[x][i]].parent == x
    {
      var k := s.kids[x][i];
      assert k in s.parents && s.parents[k] == x && k !in s.kids[d];
      UnlinkedSame(h, d, s.kids[d], j, ds[0], k);
    }
  }

  /** Unlinking touches the directory, its children, and no other entry. */
  lemma UnlinkedSame(h: Heap, d: DirEntry, ks: seq<DirEntry>, j: nat, first: int, y: DirEntry)
    requires d in h && j < |ks| && (forall k :: k in ks ==> k in h) && y in h && y != ks[j]
    ensures var h' := Unlinked(h, d, ks, j, first);
            && y in h' && h'[y].parent == h[y].parent && (y !in ks ==> h'[y].next == h[y].next)
            && (y != d ==> h'[y] == h[y].(next := h'[y].next))
  {
  }

  lemma UnlinkedNext(h: Heap, d: DirEntry, ks: seq<DirEntry>, j: nat, first: int, k: nat)
    requires d in h && (forall x :: x in ks ==> x in h) && NoRepeats(ks)
    requires j < |ks| && k < |ks| && k != j
    ensures var h' := Unlinked(h, d, ks, j, first);
            ks[k] in h' && h'[ks[k]].next == if k + 1 == j then At(ks, j + 1) else h[ks[k]].next
  {
  }

  lemma UnlinkedDir(h: Heap, d: DirEntry, ks: seq<DirEntry>, j: nat, first: int)
    requires d in h && j < |ks| && ks[j] != d && (forall k :: k in ks ==> k in h) && h[d].child == At(ks, 0)
    ensures var h', ks' := Unlinked(h, d, ks, j, first), ks[..j] + ks[j + 1..];
            && d in h' && h'[d].child == At(ks', 0) && h'[d].metadata == h[d].metadata
            && h'[d].firstCluster == first
  {
  }

  lemma LinksWithout(s: State, h: Heap, d: DirEntry, j: nat, first: int)
    requires Keys(s) && d in s.paths && h.Keys == s.paths.Keys && j < |s.kids[d]|
    requires DownAt(s, d) && MirrorAt(s, h, d) && s.kids[d][j] != d && (forall k :: k in s.kids[d] ==> k in h)
    ensures var ks, h' := s.kids[d], Unlinked(h, d, s.kids[d], j, first);
            var ks' := ks[..j] + ks[j + 1..];
            d in h' && h'[d].child == At(ks', 0) && h'[d].metadata == h[d].metadata && h'[d].firstCluster == first &&
            forall i :: 0 <= i < |ks'| ==> ks'[i] in h' && h'[ks'[i]].next == At(ks', i + 1) && h'[ks'[i]].parent == d
  {
    hide DownAt, NoRepeats;
    var ks, ks' := s.kids[d], s.kids[d][..j] + s.kids[d][j + 1..];
    var h' := Unlinked(h, d, ks, j, first);
    assert NoRepeats(ks) by { KidsFacts(s, d); }
    UnlinkedDir(h, d, ks, j, first);
    hide Unlinked;
    forall i | 0 <= i < |ks'| ensures ks'[i] in h' && h'[ks'[i]].next == At(ks', i + 1) && h'[ks'[i]].parent == d {
      LinkWithout(h, d, ks, j, first, i);
    }
  }

  lemma LinkWithout(h: Heap, d: DirEntry, ks: seq<DirEntry>, j: nat, first: int, i: nat)
    requires d in h && j < |ks| && i < |ks| - 1 && NoRepeats(ks) && (forall k :: k in ks ==> k in h)
    requires forall k :: 0 <= k < |ks| ==> h[ks[k]].next == At(ks, k + 1) && h[ks[k]].parent == d
    ensures var h', ks' := Unlinked(h, d, ks, j, first), ks[..j] + ks[j + 1..];
            ks'[i] in h' && h'[ks'[i]].next == At(ks', i + 1) && h'[ks'[i]].parent == d
  {
    hide Unlinked;
    var k := if i < j then i else i + 1;
    assert ks[k] != ks[j];
    UnlinkedNext(h, d, ks, j, first, k);
    UnlinkedSame(h, d, ks, j, first, ks[k]);
  }

  lemma KidsFacts(s: State, d: DirEntry)
    requires Keys(s) && d in s.paths && DownAt(s, d)
    ensures NoRepeats(s.kids[d])
  {
  }

  /** What unlinking the `j`-th entry of `ks`, the children of `d`, needs to know. */
  ghost predicate CanUnlink(h: Heap, chains: Chains, d: DirEntry, ks: seq<DirEntry>, j: nat) {
    && j < |ks| && NoRepeats(ks) && d !in ks && d in h && (forall k :: k in ks ==> k in h)
    && h[d].child == At(ks, 0)
    && (forall i :: 0 <= i < |ks| ==> ks[i] in h && h[ks[i]].next == At(ks, i + 1))
    && GoodName(h[ks[j]].metadata.name)
    && ks[j] in chains && chains[ks[j]] != [] && h[ks[j]].firstCluster == chains[ks[j]][0]
    && d in chains && chains[d] != [] && h[d].firstCluster == chains[d][0]
  }

  lemma LeafFacts(s: State, h: Heap, d: DirEntry, c: DirEntry) returns (j: nat)
    requires Tree(s) && Mirrors(s, h) && c in s.parents && s.parents[c] == d
    ensures Keys(s) && c in s.paths && d in s.paths && d in s.kids && c != d && c in s.kids[d]
    ensures CanUnlink(h, s.chains, d, s.kids[d], j)
    ensures j < |s.kids[d]| && s.kids[d][j] == c && d in h && (forall k :: k in s.kids[d] ==> k in h)
  {
    hide Checksum, GoodShortName, Unique;
    ParentOf(s, c);
    assert MirrorAt(s, h, d) && MirrorAt(s, h, c) && UpAt(s, c);
    if d in s.kids[d] {
      assert DownAt(s, d);
      ParentOf(s, d);
      assert false;
    }
    if c == d {
      assert false;
    }
    j :| 0 <= j < |s.kids[d]| && s.kids[d][j] == c;
  }

  lemma CutFacts(h: Heap, d: DirEntry, ks: seq<DirEntry>, j: nat)
    requires d in h && d !in ks && j < |ks| && (forall k :: k in ks ==> k in h) && NoRepeats(ks)
    ensures var h1 := LinksCut(h, d, ks, j);
            d in h1 && ks[j] in h1 && h1[d].firstCluster == h[d].firstCluster && h1[d].metadata == h[d].metadata &&
            h1[ks[j]].firstCluster == h[ks[j]].firstCluster
  {
  }

  /** `s'` is `s` without the childless `c`; only the chain of its directory `d` may have changed. */
  ghost predicate LeafGone(s: State, d: DirEntry, c: DirEntry, s': State) {
    && Keys(s) && d in s.kids && c in s.kids[d] && d in s'.chains && d in s.chains && c in s.metas
    && s' == Keep(s, Live(s) - {c}, d, Without(s.kids[d], c), WithChain(s.chains, d, s'.chains[d]) - {c})
  }

  lemma LeafDone(s: State, h: Heap, d: DirEntry, c: DirEntry, j: nat, ds: seq<int>, s': State)
    requires CanDrop(s, h, d, c, j) && ds != [] && d in h && (forall k :: k in s.kids[d] ==> k in h) && c in s.kids[d]
    requires s' == Keep(s, Live(s) - {c}, d, Without(s.kids[d], c), WithChain(s.chains, d, ds) - {c})
    ensures Keys(s') && Tree(s') && Mirrors(s', Unlinked(h, d, s.kids[d], j, ds[0]))
    ensures s'.root == s.root && s'.chains == WithChain(s.chains, d, ds) - {c} && d in s'.chains && s'.chains[d] == ds
    ensures LeafGone(s, d, c, s')
    ensures Unlinked(h, d, s.kids[d], j, ds[0]).Keys <= h.Keys
  {
    hide GoodMeta, UpAt, DownAt, Unique, MirrorAt, Unlinked, Without;
    ParentOf(s, c);
    WithoutAt(s.kids[d], j);
    var chains := WithChain(s.chains, d, ds) - {c};
    DropLeaf(s, d, c, Live(s) - {c}, chains);
    DropMirrors(s, h, d, c, j, ds, chains, s');
    UnlinkedKeys(h, d, s.kids[d], j, ds[0]);
  }

  // ---- a whole subtree, child by child ----

  /** Entries left once the subtrees of the first `i` entries of `ks` are gone. */
  ghost function Cut(s: State, ks: seq<DirEntry>, i: nat): set<DirEntry>
    requires i <= |ks| && (forall k :: k in ks ==> k in s.paths)
  {
    set x | x in s.paths && (forall j :: 0 <= j < i ==> !Under(s, ks[j], x))
  }

  /** No chain changed but that of `d`. */
  ghost predicate OthersKeep(chains: Chains, d: DirEntry, chains': Chains) {
    forall x :: x in chains' && x != d ==> x in chains && chains'[x] == chains[x]
  }

  /** `s` with the first `i` children of `c` gone. */
  ghost predicate Shorn(s: State, c: DirEntry, i: nat, s': State) {
    && Keys(s) && c in s.paths && i <= |s.kids[c]| && (forall k :: k in s.kids[c] ==> k in s.paths)
    && s' == Keep(s, Cut(s, s.kids[c], i), c, s.kids[c][i..], s'.chains)
  }

  /** `s` with the subtree of `c`, a child of `d`, gone. */
  ghost predicate Pruned(s: State, d: DirEntry, c: DirEntry, s': State) {
    && Keys(s) && c in s.paths && d in s.kids && c in s.kids[d]
    && s' == Keep(s, Live(s) - UnderSet(s, c), d, Without(s.kids[d], c), s'.chains)
  }

  lemma KidFacts(s: State, c: DirEntry, i: nat)
    requires Tree(s) && c in s.paths && i < |s.kids[c]|
    ensures var k := s.kids[c][i];
            && k in s.parents && s.parents[k] == c && k in s.paths && |s.paths[k]| == |s.paths[c]| + 1
            && s.paths[c] <= s.paths[k] && s.metas[c].isDir && k != c
  {
    hide GoodMeta, Unique;
    assert DownAt(s, c);
    ParentOf(s, s.kids[c][i]);
  }

  /** A child not yet reached, and the directory itself, are still there. */
  lemma NotCut(s: State, c: DirEntry, i: nat)
    requires Tree(s) && c in s.paths && i <= |s.kids[c]| && (forall k :: k in s.kids[c] ==> k in s.paths)
    ensures c in Cut(s, s.kids[c], i)
    ensures forall j :: i <= j < |s.kids[c]| ==> s.kids[c][j] in Cut(s, s.kids[c], i)
  {
    hide GoodMeta;
    var ks := s.kids[c];
    assert DownAt(s, c);
    forall j | 0 <= j < i ensures !Under(s, ks[j], c) {
      KidFacts(s, c, j);
    }
    forall j, k | 0 <= k < i <= j < |ks| ensures !Under(s, ks[k], ks[j]) {
      KidFacts(s, c, j);
      KidFacts(s, c, k);
      assert ks[k] != ks[j];
      assert s.paths[ks[k]] != s.paths[ks[j]];
    }
  }

  lemma ShornKid(s: State, c: DirEntry, i: nat, s1: State)
    requires Tree(s) && Shorn(s, c, i, s1) && i < |s.kids[c]|
    ensures var k := s.kids[c][i];
            && c in s1.kids && s1.kids[c] == s.kids[c][i..]
            && k in s1.paths && k in s1.parents && s1.parents[k] == c
            && UnderSet(s1, k) < UnderSet(s, c)
  {
    hide GoodMeta, Unique;
    NotCut(s, c, i);
    KidFacts(s, c, i);
    var k := s.kids[c][i];
    forall x | x in UnderSet(s1, k) ensures x in UnderSet(s, c) {
      assert s.paths[c] <= s.paths[k] <= s.paths[x];
    }
    assert c in UnderSet(s, c) && c !in UnderSet(s1, k);
  }

  /** The parent of `c` outlives the children of `c`. */
  lemma ShornParent(s: State, c: DirEntry, i: nat, s1: State)
    requires Tree(s) && c in s.parents && Shorn(s, c, i, s1)
    ensures var d := s.parents[c];
            && d in s1.paths && c in s1.paths && c in s1.parents && s1.parents[c] == d
            && d in s1.kids && s1.kids[d] == s.kids[d] && c in s1.kids[d] && c != d
  {
    hide GoodMeta, Unique, Up, Down;
    ParentOf(s, c);
    NotCut(s, c, i);
    var d := s.parents[c];
    forall j | 0 <= j < i ensures !Under(s, s.kids[c][j], d) {
      KidFacts(s, c, j);
    }
  }

  lemma KeptLive(s: State, live: set<DirEntry>, c: DirEntry, ks: seq<DirEntry>, chains: Chains)
    requires Keys(s) && live <= Live(s)
    ensures Live(Keep(s, live, c, ks, chains)) == live
    ensures forall x :: x in live ==> Keep(s, live, c, ks, chains).paths[x] == s.paths[x]
  {
  }

  lemma KeepTwice(s: State, l1: set<DirEntry>, c: DirEntry, k1: seq<DirEntry>, ch1: Chains,
                  l2: set<DirEntry>, d: DirEntry, k2: seq<DirEntry>, ch2: Chains)
    requires Keys(s) && Keys(Keep(s, l1, c, k1, ch1)) && l2 <= l1 && (c == d || c !in l2)
    ensures Keep(Keep(s, l1, c, k1, ch1), l2, d, k2, ch2) == Keep(s, l2, d, k2, ch2)
  {
    hide Keys;
  }

  lemma ShornStep(s: State, c: DirEntry, i: nat, s1: State, s2: State)
    requires Tree(s) && Shorn(s, c, i, s1) && i < |s.kids[c]| && Keys(s1)
    requires Pruned(s1, c, s.kids[c][i], s2)
    ensures Shorn(s, c, i + 1, s2)
  {
    hide GoodMeta, Unique, Up, Down, Keep;
    var ks := s.kids[c];
    NotCut(s, c, i);
    ShornKid(s, c, i, s1);
    KeptLive(s, Cut(s, ks, i), c, ks[i..], s1.chains);
    assert s1.kids[c] == ks[i..] && ks[i..][0] == ks[i];
    assert Live(s1) == Cut(s, ks, i);
    assert Live(s1) - UnderSet(s1, ks[i]) == Cut(s, ks, i + 1);
    assert Without(ks[i..], ks[i]) == ks[i + 1..];
    KeepTwice(s, Cut(s, ks, i), c, ks[i..], s1.chains, Cut(s, ks, i + 1), c, ks[i + 1..], s2.chains);
  }

  lemma ShornStart(s: State, c: DirEntry)
    requires Tree(s) && c in s.paths
    ensures Shorn(s, c, 0, s) && OthersKeep(s.chains, c, s.chains)
  {
    hide GoodMeta, Unique, Up;
    assert DownAt(s, c);
    assert Cut(s, s.kids[c], 0) == Live(s);
    assert s.kids[c][0..] == s.kids[c];
  }

  /** With all its children gone, `c` goes, and with it exactly its subtree. */
  lemma ShornEnd(s: State, d: DirEntry, c: DirEntry, s1: State, s2: State)
    requires Tree(s) && c in s.parents && s.parents[c] == d && Shorn(s, c, |s.kids[c]|, s1) && Keys(s1)
    requires d in s1.kids && c in s1.kids[d] && s2 == Keep(s1, Live(s1) - {c}, d, Without(s1.kids[d], c), s2.chains)
    ensures Pruned(s, d, c, s2)
  {
    hide GoodMeta, Unique, Up, Down, Keep, Without;
    ParentOf(s, c);
    var n := |s.kids[c]|;
    ShornParent(s, c, n, s1);
    KeptLive(s, Cut(s, s.kids[c], n), c, s.kids[c][n..], s1.chains);
    CutAll(s, c);
    KeepTwice(s, Cut(s, s.kids[c], n), c, s.kids[c][n..], s1.chains,
              Live(s) - UnderSet(s, c), d, Without(s.kids[d], c), s2.chains);
  }

  lemma CutAll(s: State, c: DirEntry)
    requires Tree(s) && c in s.paths && (forall k :: k in s.kids[c] ==> k in s.paths)
    ensures Cut(s, s.kids[c], |s.kids[c]|) - {c} == Live(s) - UnderSet(s, c)
  {
    hide GoodMeta, Unique;
    var ks := s.kids[c];
    forall x | x in s.paths
      ensures x in Cut(s, ks, |ks|) - {c} <==> x !in UnderSet(s, c)
    {
      if x in UnderSet(s, c) && x != c {
        BelowChild(s, c, x);
        var k :| k in ks && k in s.paths && Under(s, k, x);
        var j :| 0 <= j < |ks| && ks[j] == k;
      } else if x !in UnderSet(s, c) {
        forall j | 0 <= j < |ks| ensures !Under(s, ks[j], x) {
          KidFacts(s, c, j);
        }
      }
    }
  }

  // ---- the recursion ----

  lemma MirrorKid(s: State, h: Heap, d: DirEntry, j: nat)
    requires Tree(s) && Mirrors(s, h) && d in s.kids && j < |s.kids[d]|
    ensures var k := s.kids[d][j]; k in h && h[k].next == At(s.kids[d], j + 1)
  {
    hide Up, Down, Unique;
    assert MirrorAt(s, h, d);
  }

  /** Before child `i` of `c` is removed. */
  lemma NextKid(s: State, c: DirEntry, i: nat, s1: State, h1: Heap)
    requires Tree(s) && Shorn(s, c, i, s1) && c in s.kids && i < |s.kids[c]| && Tree(s1) && Mirrors(s1, h1)
    ensures var k := s.kids[c][i];
            && k in s1.parents && s1.parents[k] == c && k in s1.paths && UnderSet(s1, k) < UnderSet(s, c)
            && k in h1 && h1[k].next == At(s.kids[c], i + 1)
  {
    hide Tree, Mirrors, UnderSet, Shorn;
    ShornKid(s, c, i, s1);
    MirrorKid(s1, h1, c, 0);
  }

  lemma KidGone(s: State, c: DirEntry, i: nat, s1: State, s2: State)
    requires Tree(s) && Shorn(s, c, i, s1) && c in s.kids && i < |s.kids[c]| && Tree(s1)
    requires OthersKeep(s.chains, c, s1.chains)
    requires Pruned(s1, c, s.kids[c][i], s2) && OthersKeep(s1.chains, c, s2.chains)
    ensures Shorn(s, c, i + 1, s2) && OthersKeep(s.chains, c, s2.chains)
  {
    hide Up, Down, Unique, Shorn, Pruned;
    ShornStep(s, c, i, s1, s2);
  }

  /** `s` with everything below `c` gone. */
  ghost predicate AllShorn(s: State, c: DirEntry, s': State) {
    c in s.kids && Shorn(s, c, |s.kids[c]|, s')
  }

  lemma AtKid(ks: seq<DirEntry>, i: nat, c: DirEntry)
    requires At(ks, i) == c
    ensures i < |ks| && ks[i] == c
  {
  }

  /** The end of the list has been reached. */
  lemma ShornAll(s: State, c: DirEntry, i: nat, s1: State)
    requires c in s.kids && i <= |s.kids[c]| && At(s.kids[c], i) == null && Shorn(s, c, i, s1)
    ensures AllShorn(s, c, s1)
  {
    hide Shorn;
  }

  lemma AllKidsGone(s: State, d: DirEntry, c: DirEntry, s1: State)
    requires Tree(s) && c in s.parents && s.parents[c] == d && AllShorn(s, c, s1) && Tree(s1)
    ensures c in s1.parents && s1.parents[c] == d && c in s1.kids && s1.kids[c] == []
  {
    hide GoodMeta, Unique, Up, Down;
    ShornParent(s, c, |s.kids[c]|, s1);
  }

  lemma SubtreeGone(s: State, d: DirEntry, c: DirEntry, s1: State, s2: State)
    requires Tree(s) && c in s.parents && s.parents[c] == d && AllShorn(s, c, s1) && Tree(s1)
    requires OthersKeep(s.chains, c, s1.chains) && LeafGone(s1, d, c, s2)
    ensures Pruned(s, d, c, s2) && OthersKeep(s.chains, d, s2.chains)
    ensures d in s.chains && d in s1.chains && s1.chains[d] == s.chains[d]
    ensures d in s1.metas && d in s.metas && s1.metas[d] == s.metas[d] && c in s1.metas && c in s.metas
    ensures s1.metas[c] == s.metas[c]
  {
    hide GoodMeta, Unique, Up, Down, Shorn;
    ParentOf(s, c);
    ShornParent(s, c, |s.kids[c]|, s1);
    ShornEnd(s, d, c, s1, s2);
    ShornMetas(s, c, |s.kids[c]|, s1, d);
    ShornMetas(s, c, |s.kids[c]|, s1, c);
  }

  lemma ShornMetas(s: State, c: DirEntry, i: nat, s1: State, x: DirEntry)
    requires Shorn(s, c, i, s1) && Keys(s1) && x in s1.paths
    ensures x in s.metas && x in s1.metas && s1.metas[x] == s.metas[x]
  {
  }

  /** Only directories have children. */
  lemma FileHasNoKids(s: State, c: DirEntry)
    requires Tree(s) && c in s.paths && !s.metas[c].isDir
    ensures AllShorn(s, c, s) && OthersKeep(s.chains, c, s.chains)
  {
    hide GoodMeta, Unique;
    if s.kids[c] != [] {
      KidFacts(s, c, 0);
      assert false;
    }
    ShornStart(s, c);
  }

  // ---- the root ----

  lemma RootLive(s: State)
    requires Tree(s)
    ensures s.root in s.paths && s.paths[s.root] == []
  {
  }

  /** With everything below the root gone, the root alone is left. */
  lemma OnlyRootLeft(s: State, s1: State)
    requires Tree(s) && Tree(s1) && AllShorn(s, s.root, s1)
    ensures Live(s1) == {s.root} && s1.chains.Keys == {s.root}
  {
    hide GoodMeta, Unique, Down;
    var c := s.root;
    NotCut(s, c, |s.kids[c]|);
    CutAll(s, c);
    forall x | x in s.paths ensures x in UnderSet(s, c) {
      assert s.paths[c] == [] <= s.paths[x];
    }
    KeptLive(s, Cut(s, s.kids[c], |s.kids[c]|), c, s.kids[c][|s.kids[c]|..], s1.chains);
  }

  lemma RootOwnsAll(fat: seq<int>, owners: seq<DirEntry?>, chains: Chains, root: DirEntry)
    requires |fat| == Layout.FAT_LENGTH && |owners| == Layout.N_CLUSTERS && Ownership(fat, owners, chains)
    requires chains.Keys == {root}
    ensures FreeCount(fat) + |chains[root]| == Layout.N_CLUSTERS - 2
  {
    ChainOf(fat, owners, chains, root);
    CellCount(chains[root]);
    hide Ownership, IsChain, Cells, ClustersOf;
    Conservation(fat, owners, chains);
    OneOwner(chains, root);
  }

  lemma OneOwner(chains: Chains, root: DirEntry)
    requires chains.Keys == {root}
    ensures ClustersOf(chains) == Cells(chains[root])
  {
    forall k | k in ClustersOf(chains) ensures k in Cells(chains[root]) {
      var e :| e in chains && k in chains[e];
      assert e in chains.Keys;
    }
    forall k | k in Cells(chains[root]) ensures k in ClustersOf(chains) {
      assert root in chains && k in chains[root];
    }
  }
}
