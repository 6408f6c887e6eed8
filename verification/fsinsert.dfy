/** Insertion by path: when it succeeds, and when it keeps sizes and chains exact (dbfat.c). */
module FsInsert {
  import opened Layout
  import opened Entries
  import opened Cluster
  import opened DirStream
  import opened FsState
  import opened FsRemove
  import opened FsRoom
  import opened FsPath
  import Words

  /** The chain of an updated entry: only a file's is rebuilt. */
  predicate UpdateOk(m: EntryMetaData, had: nat, dm: DBMetaData, free: nat) {
    m.isDir || (dm.size <= MAX_SIZE && GrowthAsCoded(had, ClustersFor(dm.size)) <= free)
  }

  function UpdatedLength(m: EntryMetaData, had: nat, dm: DBMetaData): nat {
    if m.isDir then had else LengthAsCoded(had, ClustersFor(dm.size))
  }

  ghost predicate CanUpdate(s: State, c: DirEntry, dm: DBMetaData, free: nat) {
    c in s.metas && c in s.chains && UpdateOk(s.metas[c], |s.chains[c]|, dm, free)
  }

  /** `s'` is `s` with the metadata and the chain of `c` updated. */
  ghost predicate EntryUpdated(s: State, free: nat, c: DirEntry, dm: DBMetaData, s': State, free': nat, ds: seq<int>) {
    && c in s.metas && c in s.chains && ds != []
    && s' == Updated(s, c, UpdatedMeta(s.metas[c], dm), ds)
    && |ds| == UpdatedLength(s.metas[c], |s.chains[c]|, dm) && CommonPrefix(s.chains[c], ds)
    && free' + |ds| == free + |s.chains[c]|
  }

  // ---- one new entry ----

  /** A directory that can take one more entry with at most one more cluster. */
  ghost predicate HasRoom(s: State, d: DirEntry) {
    d in s.metas && d in s.chains && s.metas[d].size + 672 <= MAX_SIZE &&
        s.metas[d].size / BYTES_PER_CLUSTER <= |s.chains[d]|
  }

  lemma AddOkIn(had: nat, size: Words.u32, extra: nat, childSize: Words.u32, free: nat)
    requires size + 672 <= MAX_SIZE && size / BYTES_PER_CLUSTER <= had && 64 <= extra <= 672
    requires childSize <= MAX_SIZE && 1 + ClustersFor(childSize) <= free
    ensures AddOk(had, size, extra, childSize, free) && GrownLength(had, size, extra) <= had + 1
  {
    var q, r := size / BYTES_PER_CLUSTER, size % BYTES_PER_CLUSTER;
    assert size + extra == BYTES_PER_CLUSTER * q + (r + extra);
    if r + extra > BYTES_PER_CLUSTER {
      assert ClustersFor(size + extra) == q + 2;
    }
  }

  /** `e` is new in `s`, made from `m`. */
  ghost predicate NewEntry(s: State, e: DirEntry, m: EntryMetaData) {
    && e in s.kids && s.kids[e] == [] && e in s.metas && ShortNamed(m, s.metas[e])
    && e in s.chains && |s.chains[e]| == ClustersFor(m.size)
  }

  /** A path component can be filled: `child` is what stands there now. */
  ghost predicate Placeable(s: State, free: nat, d: DirEntry, child: DirEntry?, m: EntryMetaData) {
    (child == null || Steady(s)) && HasRoom(s, d) && m.size <= MAX_SIZE && 1 + ClustersFor(m.size) <= free
  }

  ghost predicate Tight(s: State, d: DirEntry, child: DirEntry?, m: EntryMetaData) {
    && child == null && Exact(s) && d in s.metas && m.size <= MAX_SIZE && (m.isDir ==> m.size == 64)
    && s.metas[d].size + 672 <= MAX_SIZE && !(s.metas[d].size > 0 && s.metas[d].size % BYTES_PER_CLUSTER == 0)
  }

  /** Of the entries there before only `d` has changed: it has the new first child `e` and room for it. */
  ghost predicate OnlyGrew(s: State, d: DirEntry, s': State, e: DirEntry) {
    && d in s.metas && d in s.kids && d in s.chains && d in s'.metas && d in s'.kids && d in s'.chains && e in s'.metas
    && s'.metas[d] == s.metas[d].(size := (s.metas[d].size + EntrySize(s'.metas[e])) % Words.TWO_32)
    && s'.kids[d] == [e] + s.kids[d]
    && |s'.chains[d]| == GrownLength(|s.chains[d]|, s.metas[d].size, EntrySize(s'.metas[e]))
    && (forall y :: y in s.paths && y != d ==>
          && y in s.metas && y in s'.metas && s'.metas[y] == s.metas[y]
          && y in s.kids && y in s'.kids && s'.kids[y] == s.kids[y]
          && y in s.chains && y in s'.chains && s'.chains[y] == s.chains[y])
  }

  /** Outcome of filling one component of a path with a new entry. */
  ghost predicate Placed(s: State, free: nat, d: DirEntry, child: DirEntry?, m: EntryMetaData, s': State, free': nat,
                         e: DirEntry) {
    && StepDone(s, d, m.name, m.isDir, s', e, null) && NewEntry(s', e, m)
    && (Placeable(s, free, d, child, m) ==> free' + 1 + ClustersFor(m.size) >= free)
    && (Tight(s, d, child, m) ==> Exact(s'))
    && (child == null ==> OnlyGrew(s, d, s', e))
  }

  lemma SameSize(m: EntryMetaData, m': EntryMetaData)
    requires ShortNamed(m, m')
    ensures EntrySize(m) == EntrySize(m')
  {
    hide GoodName, ShortNameOf, Checksum;
  }

  lemma AddedOnlyGrew(s: State, d: DirEntry, e: DirEntry, m: EntryMetaData, s': State)
    requires Keys(s) && ChildAdded(s, d, e, m, s') && e !in s.paths
    ensures OnlyGrew(s, d, s', e)
  {
    hide GrownLength, CommonPrefix, ClustersFor, ShortNamed, EntrySize;
    SameSize(m, s'.metas[e]);
  }

  lemma PlaceableAdds(s: State, free: nat, d: DirEntry, child: DirEntry?, m: EntryMetaData)
    requires Placeable(s, free, d, child, m) && GoodName(m.name)
    ensures d in s.chains && d in s.metas
    ensures AddOk(|s.chains[d]|, s.metas[d].size, EntrySize(m), m.size, free)
    ensures GrownLength(|s.chains[d]|, s.metas[d].size, EntrySize(m)) <= |s.chains[d]| + 1
  {
    hide Steady, EntrySize, AddOk, GrownLength, ClustersFor;
    EntrySizeBound(m);
    AddOkIn(|s.chains[d]|, s.metas[d].size, EntrySize(m), m.size, free);
  }

  lemma PlacedNew(s: State, free: nat, d: DirEntry, m: EntryMetaData, s': State, free': nat, e: DirEntry)
    requires Tree(s) && Tree(s') && d in s.paths && s.metas[d].isDir && GoodName(m.name) && e !in s.paths
    requires forall x :: x in s.paths ==> s.paths[x] != s.paths[d] + [m.name]
    requires ChildAdded(s, d, e, m, s')
    requires free' + |s'.chains[e]| + |s'.chains[d]| == free + |s.chains[d]|
    ensures Placed(s, free, d, null, m, s', free', e)
  {
    hide Up, Down, Unique, Exact, Steady, StepDone, EntrySize, ClustersFor, GrownLength, CommonPrefix, Added,
         Placeable, Tight, OnlyGrew;
    StepAdded(s, d, e, m, s');
    AddedOnlyGrew(s, d, e, m, s');
    if Placeable(s, free, d, null, m) {
      PlaceableAdds(s, free, d, null, m);
    }
    if Tight(s, d, null, m) {
      EntrySizeBound(m);
      TightFacts(s, d, null, m);
      AddKeepsExact(s, d, e, m, s');
    }
  }

  lemma TightFacts(s: State, d: DirEntry, child: DirEntry?, m: EntryMetaData)
    requires Tight(s, d, child, m)
    ensures Exact(s) && d in s.metas && m.size <= MAX_SIZE && (m.isDir ==> m.size == 64)
    ensures s.metas[d].size + 672 <= MAX_SIZE && !(s.metas[d].size > 0 && s.metas[d].size % BYTES_PER_CLUSTER == 0)
  {
  }

  lemma PlaceableAfter(s: State, free: nat, d: DirEntry, c: DirEntry, m: EntryMetaData, s1: State, free1: nat, ok: bool)
    requires Tree(s) && c in s.parents && s.parents[c] == d && Smooth(s, free, s1, free1, ok)
    requires ok ==> Tree(s1) && Pruned(s, d, c, s1)
    requires Placeable(s, free, d, c, m)
    ensures ok && Placeable(s1, free1, d, null, m)
  {
    hide GoodMeta, Up, Down, Unique, Room, Without;
    PrunedPaths(s, d, c, s1);
    ParentOf(s, c);
    assert SteadyAt(s1, d);
  }

  lemma PlacedOver(s: State, free: nat, d: DirEntry, c: DirEntry, m: EntryMetaData, s1: State, free1: nat,
                   s2: State, free2: nat, e: DirEntry)
    requires Tree(s) && c in s.parents && s.parents[c] == d && c in s.metas && s.metas[c].name == m.name
    requires s.metas[c].isDir != m.isDir
    requires Tree(s1) && Pruned(s, d, c, s1) && OthersKeep(s.chains, d, s1.chains) && Smooth(s, free, s1, free1, true)
    requires Placed(s1, free1, d, null, m, s2, free2, e) && e !in s.paths
    ensures Placed(s, free, d, c, m, s2, free2, e)
  {
    hide Tree, StepDone, Placeable, NewEntry, ClustersFor, Pruned, Exact, Smooth, OthersKeep, OnlyGrew;
    StepReplaced(s, d, c, s1, s2, m.name, m.isDir, e);
    if Placeable(s, free, d, c, m) {
      PlaceableAfter(s, free, d, c, m, s1, free1, true);
      SmoothFree(s, free, s1, free1, d, c, m);
    }
  }

  lemma SmoothFree(s: State, free: nat, s1: State, free1: nat, d: DirEntry, c: DirEntry, m: EntryMetaData)
    requires Smooth(s, free, s1, free1, true) && Placeable(s, free, d, c, m)
    ensures free <= free1
  {
    hide Steady;
  }

  // ---- a whole path ----

  /** Enough for an insertion not to abort: steady directories with room, and free clusters. */
  ghost predicate Ready(s: State, comps: seq<Name>, dm: DBMetaData, free: nat) {
    && Steady(s) && dm.size <= MAX_SIZE && 2 * |comps| + ClustersFor(dm.size) <= free
    && (forall d :: d in s.paths && d in s.metas && s.metas[d].isDir && s.paths[d] < comps ==>
        s.metas[d].size + 672 <= MAX_SIZE)
  }

  /** Enough for an insertion to keep sizes and chains exact: nothing is replaced, no directory on the way
      is at a nonzero multiple of the cluster size, and a file already there grows by at most one cluster. */
  ghost predicate Clean(s: State, comps: seq<Name>, dm: DBMetaData) {
    && Keys(s) && Exact(s) && dm.size <= MAX_SIZE
    && GoneAlong(s, comps, dm.isDir, |comps|) == {}
    && (forall d :: d in s.paths && s.metas[d].isDir && s.paths[d] < comps ==>
          s.metas[d].size + 672 <= MAX_SIZE && !(s.metas[d].size > 0 && s.metas[d].size % BYTES_PER_CLUSTER == 0))
    && (forall x :: x in s.paths && !s.metas[x].isDir && s.paths[x] == comps ==>
          ClustersFor(dm.size) <= ClustersFor(s.metas[x].size) + 1)
  }

  /** Until a component is missing nothing changes; after that every directory on the way is new and empty. */
  ghost predicate NewOrSame(s0: State, s: State, cur: DirEntry) {
    s == s0 || (cur !in s0.paths && EmptyDir(s, cur))
  }

  ghost predicate EmptyDir(s: State, d: DirEntry) {
    && d in s.kids && s.kids[d] == [] && d in s.metas && s.metas[d].size == 64 && d in s.chains
    && |s.chains[d]| == 1
  }

  /** Directory `d` holds `k` alone, and has the size and the cluster for it. */
  ghost predicate OneChild(s: State, d: DirEntry, k: DirEntry) {
    && d in s.kids && s.kids[d] == [k] && d in s.metas && k in s.metas && d in s.chains
    && s.metas[d].size == 64 + EntrySize(s.metas[k]) && |s.chains[d]| == 1
  }

  /** What is new on the way to `cur` has its stamps; above `cur` every new directory holds the next one alone. */
  ghost predicate WayMade(s0: State, s: State, cur: DirEntry, rev: Rev) {
    forall y :: y in s.paths && y !in s0.paths ==>
      y in s.metas && Stamped(s.metas[y], rev) && (y == cur || exists k :: k in s.metas && OneChild(s, y, k))
  }

  lemma WayMadeFirst(s0: State, d: DirEntry, name: Name, isDir: bool, s': State, e: DirEntry, rev: Rev)
    requires StepDone(s0, d, name, isDir, s', e, null) && Stamped(s'.metas[e], rev)
    ensures WayMade(s0, s', e, rev)
  {
    hide Aside, Kept, Gone;
  }

  lemma NewDirFilled(s: State, d: DirEntry, s': State, e: DirEntry, rev: Rev)
    requires EmptyDir(s, d) && OnlyGrew(s, d, s', e) && Stamped(s.metas[d], rev) && GoodName(s'.metas[e].name)
    ensures OneChild(s', d, e) && Stamped(s'.metas[d], rev)
  {
    hide EntrySize;
    EntrySizeBound(s'.metas[e]);
  }

  lemma StillOneChild(s: State, d: DirEntry, s': State, e: DirEntry, y: DirEntry, k: DirEntry)
    requires Keys(s) && OnlyGrew(s, d, s', e) && y in s.paths && y != d && OneChild(s, y, k)
    ensures OneChild(s', y, k)
  {
  }

  lemma WayMadeNext(s0: State, s: State, cur: DirEntry, m: EntryMetaData, s': State, e: DirEntry, rev: Rev)
    requires WayMade(s0, s, cur, rev) && StepDone(s, cur, m.name, m.isDir, s', e, null) && NewEntry(s', e, m)
    requires cur !in s0.paths && EmptyDir(s, cur) && OnlyGrew(s, cur, s', e) && Stamped(m, rev)
    ensures WayMade(s0, s', e, rev)
  {
    hide Aside, Kept, Gone, EmptyDir, OnlyGrew, OneChild, EntrySize, ShortNameOf;
    NewDirFilled(s, cur, s', e, rev);
    forall y | y in s'.paths && y !in s0.paths && y != e
      ensures y in s'.metas && Stamped(s'.metas[y], rev) && exists k :: k in s'.metas && OneChild(s', y, k)
    {
      if y != cur {
        var k :| k in s.metas && OneChild(s, y, k);
        StillOneChild(s, cur, s', e, y, k);
        GrewAside(s, cur, s', e, y);
      }
    }
  }

  lemma GrewAside(s: State, d: DirEntry, s': State, e: DirEntry, y: DirEntry)
    requires OnlyGrew(s, d, s', e) && y in s.paths && y != d
    ensures y in s.metas && y in s'.metas && s'.metas[y] == s.metas[y]
  {
  }

  /** Filling the next component goes on making the way. */
  lemma WayMadeStep(s0: State, s: State, free: nat, cur: DirEntry, child: DirEntry?, m: EntryMetaData, s': State,
                    free': nat, e: DirEntry, rev: Rev)
    requires WayMade(s0, s, cur, rev) && NewOrSame(s0, s, cur) && Placed(s, free, cur, child, m, s', free', e)
    requires (child != null ==> s == s0) && Stamped(m, rev)
    ensures WayMade(s0, s', e, rev)
  {
    hide WayMade, EmptyDir, OnlyGrew, StepDone, Exact, Placeable, Tight, ShortNameOf;
    assert e in s'.metas && Stamped(s'.metas[e], rev);
    if s == s0 {
      WayMadeFirst(s0, cur, m.name, m.isDir, s', e, rev);
    } else {
      WayMadeNext(s0, s, cur, m, s', e, rev);
    }
  }

  lemma NothingMade(s: State, cur: DirEntry, rev: Rev)
    ensures WayMade(s, s, cur, rev)
  {
  }

  lemma NoChildYet(s0: State, s: State, cur: DirEntry, child: DirEntry)
    requires Tree(s) && NewOrSame(s0, s, cur) && child in s.parents && s.parents[child] == cur
    ensures s == s0
  {
    hide Up, Unique, GoodMeta;
    ParentOf(s, child);
  }

  /** `i` components have been seen to, and more are to come. */
  ghost predicate OnWay(s0: State, free0: nat, comps: seq<Name>, dm: DBMetaData, i: nat, s: State, free: nat,
                        cur: DirEntry) {
    && i < |comps| && Along(s0, comps, dm.isDir, i, s, cur, null) && s.metas[cur].isDir
    && NewOrSame(s0, s, cur) && WayMade(s0, s, cur, dm.rev)
    && (Ready(s0, comps, dm, free0) ==> free + 2 * i >= free0)
    && (Clean(s0, comps, dm) ==> Exact(s))
  }

  lemma WayStart(s: State, free: nat, comps: seq<Name>, dm: DBMetaData)
    requires Tree(s) && comps != []
    ensures OnWay(s, free, comps, dm, 0, s, free, s.root)
  {
    hide Ready, Along, GoneAlong, Exact, Down, Unique, GoodMeta, WayMade;
    AlongStart(s, comps, dm.isDir);
    NothingMade(s, s.root, dm.rev);
  }

  lemma WayDir(s0: State, free0: nat, comps: seq<Name>, dm: DBMetaData, i: nat, s: State, free: nat, cur: DirEntry)
    requires OnWay(s0, free0, comps, dm, i, s, free, cur)
    ensures Keys(s) && cur in s.paths && cur in s.metas && s.metas[cur].isDir
    ensures s.paths[cur] + [comps[i]] == comps[..i + 1]
  {
    hide Ready, Kept, GoneAlong, Exact, Clean;
  }

  lemma WayPlaceable(s0: State, free0: nat, comps: seq<Name>, dm: DBMetaData, i: nat, s: State, free: nat,
                     cur: DirEntry,
                     child: DirEntry?, m: EntryMetaData)
    requires OnWay(s0, free0, comps, dm, i, s, free, cur) && Ready(s0, comps, dm, free0) && Tree(s)
    requires child == null || (child in s.parents && s.parents[child] == cur)
    requires m.size <= MAX_SIZE && (m.size == 64 || m.size == dm.size)
    ensures Placeable(s, free, cur, child, m)
  {
    hide Kept, GoneAlong, Exact, Clean, SteadyAt, Up, Down, Unique;
    assert ClustersFor(64) == 1;
    if s == s0 {
      assert comps[..i] < comps;
      assert SteadyAt(s0, cur);
      SteadyRoom(s0, cur);
    } else if child != null {
      ParentOf(s, child);
      assert false;
    }
  }

  lemma SteadyRoom(s: State, d: DirEntry)
    requires SteadyAt(s, d)
    ensures d in s.chains && d in s.metas && s.metas[d].size / BYTES_PER_CLUSTER <= |s.chains[d]|
  {
  }

  lemma WayTight(s0: State, free0: nat, comps: seq<Name>, dm: DBMetaData, i: nat, s: State, free: nat, cur: DirEntry,
                 child: DirEntry?, m: EntryMetaData)
    requires OnWay(s0, free0, comps, dm, i, s, free, cur) && Clean(s0, comps, dm) && Tree(s)
    requires child != null ==>
               && child in s.parents && s.parents[child] == cur && child in s.metas
               && s.metas[child].name == comps[i]
    requires child != null ==> s.metas[child].isDir != Want(comps, dm.isDir, i + 1)
    requires m.size <= MAX_SIZE && (m.isDir ==> m.size == 64)
    ensures Tight(s, cur, child, m)
  {
    hide Kept, GoneAlong, Exact, Ready, Up, Down, Unique;
    if child != null {
      ParentOf(s, child);
      if s == s0 {
        assert s.paths[child] == comps[..i + 1];
        ClashGone(s0, comps, dm.isDir, i + 1, child);
        assert false;
      } else {
        assert false;
      }
    }
    if s == s0 {
      assert comps[..i] < comps;
    }
  }

  lemma WayUnchanged(s0: State, free0: nat, comps: seq<Name>, dm: DBMetaData, i: nat, s: State, free: nat,
                     cur: DirEntry, child: DirEntry)
    requires OnWay(s0, free0, comps, dm, i, s, free, cur) && Tree(s) && child in s.parents && s.parents[child] == cur
    ensures s == s0
  {
    hide Along, Exact, Clean, Ready, WayMade, NewOrSame, Tree;
    NoChildYet(s0, s, cur, child);
  }

  /** What filling the next component with `m` needs. */
  lemma WayNew(s0: State, free0: nat, comps: seq<Name>, dm: DBMetaData, i: nat, s: State, free: nat, cur: DirEntry,
               child: DirEntry?, m: EntryMetaData)
    requires OnWay(s0, free0, comps, dm, i, s, free, cur) && Tree(s)
    requires child != null ==>
               && child in s.parents && s.parents[child] == cur && child in s.metas
               && s.metas[child].name == comps[i]
    requires child != null ==> s.metas[child].isDir != Want(comps, dm.isDir, i + 1)
    requires m.size == 64 || (m.size == dm.size && !m.isDir)
    ensures Ready(s0, comps, dm, free0) ==> Placeable(s, free, cur, child, m)
    ensures Clean(s0, comps, dm) ==> Tight(s, cur, child, m)
    ensures child != null ==> s == s0
  {
    hide OnWay, Tree, Placeable, Tight, Want;
    LastFits(s0, free0, comps, dm);
    if child != null {
      WayUnchanged(s0, free0, comps, dm, i, s, free, cur, child);
    }
    if Ready(s0, comps, dm, free0) {
      WayPlaceable(s0, free0, comps, dm, i, s, free, cur, child, m);
    }
    if Clean(s0, comps, dm) {
      WayTight(s0, free0, comps, dm, i, s, free, cur, child, m);
    }
  }

  lemma LastFits(s0: State, free0: nat, comps: seq<Name>, dm: DBMetaData)
    ensures Ready(s0, comps, dm, free0) || Clean(s0, comps, dm) ==> dm.size <= MAX_SIZE
  {
    hide Steady, Exact, GoneAlong;
  }

  lemma ClashGone(s: State, comps: seq<Name>, isDir: bool, i: nat, c: DirEntry)
    requires Keys(s) && 1 <= i <= |comps| && c in s.paths && s.paths[c] == comps[..i]
    requires s.metas[c].isDir != Want(comps, isDir, i)
    ensures c in GoneAlong(s, comps, isDir, |comps|)
  {
    assert c in Gone(s, comps[..i], Want(comps, isDir, i));
  }

  /** The component is a directory already: nothing changes yet. */
  lemma WayFound(s0: State, free0: nat, comps: seq<Name>, dm: DBMetaData, i: nat, s: State, free: nat, cur: DirEntry,
                 c: DirEntry)
    requires OnWay(s0, free0, comps, dm, i, s, free, cur) && Tree(s0) && Tree(s) && i + 1 < |comps|
    requires c in s.parents && s.parents[c] == cur && c in s.metas && s.metas[c].name == comps[i] && s.metas[c].isDir
    ensures OnWay(s0, free0, comps, dm, i + 1, s, free, c)
  {
    hide Along, StepDone, Exact, Clean, Ready, Up, Down, Unique;
    NoChildYet(s0, s, cur, c);
    StepFound(s, cur, c);
    NothingMade(s, c, dm.rev);
    AlongStep(s0, comps, dm.isDir, i, s, s, cur, c, null);
  }

  /** The component is filled with a new directory. */
  lemma WayPlaced(s0: State, free0: nat, comps: seq<Name>, dm: DBMetaData, i: nat, s: State, free: nat, cur: DirEntry,
                  child: DirEntry?, m: EntryMetaData, s': State, free': nat, e: DirEntry)
    requires OnWay(s0, free0, comps, dm, i, s, free, cur) && Tree(s0) && i + 1 < |comps| && e !in s0.paths
    requires Placed(s, free, cur, child, m, s', free', e) && m.name == comps[i] && m.isDir && m.size == 64
    requires Ready(s0, comps, dm, free0) ==> Placeable(s, free, cur, child, m)
    requires Clean(s0, comps, dm) ==> Tight(s, cur, child, m)
    requires (child != null ==> s == s0) && Stamped(m, dm.rev)
    ensures OnWay(s0, free0, comps, dm, i + 1, s', free', e)
  {
    hide Along, StepDone, Exact, Clean, Ready, Tree, Placeable, Tight, WayMade, OnlyGrew;
    WayMadeStep(s0, s, free, cur, child, m, s', free', e, dm.rev);
    AlongStep(s0, comps, dm.isDir, i, s, s', cur, e, null);
    assert ClustersFor(64) == 1;
    ShortNamedFields(m, s'.metas[e]);
  }

  // ---- the end of the path ----

  /** The length of the chain of the entry put at the end of the path. */
  ghost predicate ChainMade(s0: State, dm: DBMetaData, s: State, r: DirEntry) {
    && r in s.chains && (r in s0.paths ==> r in s0.metas && r in s0.chains)
    && |s.chains[r]| == (if r in s0.paths then UpdatedLength(s0.metas[r], |s0.chains[r]|, dm)
                         else ClustersFor(if dm.isDir then 64 else dm.size))
  }

  /** The entry put at the end of the path, if it is a new one, has nothing below it. */
  ghost predicate EndMade(s0: State, dm: DBMetaData, s: State, r: DirEntry) {
    r !in s0.paths ==>
      r in s.kids && s.kids[r] == [] && r in s.metas && s.metas[r].size == if dm.isDir then 64 else dm.size
  }

  /** What add_file_entry does: `r` stands at `comps` and carries the metadata received; missing directories
      above it are new, with the same stamps, and each holds the next one alone; entries of the other kind on the way
      are gone with all below them; directories above may have a new size and chain; nothing else changed. */
  ghost predicate Inserted(s0: State, comps: seq<Name>, dm: DBMetaData, s: State, r: DirEntry) {
    && Along(s0, comps, dm.isDir, |comps|, s, r, if r in s0.paths then r else null)
    && HasMeta(s.metas[r], dm) && ChainMade(s0, dm, s, r) && WayMade(s0, s, r, dm.rev) && EndMade(s0, dm, s, r)
  }

  /** The entry has this name, and the short name made from it. */
  ghost predicate NamedBy(s: State, e: DirEntry, name: Name) {
    e in s.metas && GoodName(name) && s.metas[e].name == name && s.metas[e].shortName == ShortNameOf(name)
  }

  lemma InsertedAt(s0: State, comps: seq<Name>, dm: DBMetaData, s: State, r: DirEntry)
    requires Inserted(s0, comps, dm, s, r)
    ensures r in s.paths && s.paths[r] == comps
  {
    hide Keys, Kept, Aside, Want, GoneAlong, ChainMade, HasMeta, WayMade, EndMade;
    assert comps[..|comps|] == comps;
  }

  lemma RootNotThere(s: State, comps: seq<Name>, r: DirEntry)
    requires Tree(s) && comps != [] && r in s.paths && s.paths[r] == comps
    ensures r in s.parents
  {
    hide Down, Unique, GoodMeta;
  }

  /** The entry has the last component for a name. */
  lemma InsertedNamed(s0: State, comps: seq<Name>, dm: DBMetaData, s: State, r: DirEntry)
    requires Inserted(s0, comps, dm, s, r) && Tree(s) && comps != []
    ensures NamedBy(s, r, comps[|comps| - 1])
  {
    hide GoodName, ShortNameOf, Tree, Checksum;
    InsertedAt(s0, comps, dm, s, r);
    RootNotThere(s, comps, r);
    ParentOf(s, r);
    ShortNamesMade(s, r);
  }

  lemma LastPlaced(s0: State, free0: nat, comps: seq<Name>, dm: DBMetaData, i: nat, s: State, free: nat, cur: DirEntry,
                   child: DirEntry?, m: EntryMetaData, s': State, free': nat, e: DirEntry)
    requires OnWay(s0, free0, comps, dm, i, s, free, cur) && Tree(s0) && i + 1 == |comps| && e !in s0.paths
    requires Placed(s, free, cur, child, m, s', free', e)
    requires m == NewMeta(comps[i], dm.isDir, if dm.isDir then 64 else dm.size, dm.rev)
    requires Clean(s0, comps, dm) ==> Tight(s, cur, child, m)
    requires child != null ==> s == s0
    ensures Inserted(s0, comps, dm, s', e)
    ensures Clean(s0, comps, dm) ==> Exact(s')
  {
    hide Along, StepDone, Exact, Clean, Ready, Tree, Placeable, Tight, WayMade, OnlyGrew;
    WayMadeStep(s0, s, free, cur, child, m, s', free', e, dm.rev);
    AlongStep(s0, comps, dm.isDir, i, s, s', cur, e, null);
    ShortNamedFields(m, s'.metas[e]);
  }

  /** An update keeps sizes and chains exact if and only if a file grows by at most one cluster. */
  lemma UpdateKeepsExact(s: State, c: DirEntry, dm: DBMetaData, ds: seq<int>, s': State)
    requires Tree(s) && Exact(s) && c in s.metas && c in s.chains
    requires s' == Updated(s, c, UpdatedMeta(s.metas[c], dm), ds)
    requires |ds| == UpdatedLength(s.metas[c], |s.chains[c]|, dm) && (!s.metas[c].isDir ==> dm.size <= MAX_SIZE)
    ensures Exact(s') <==> s.metas[c].isDir || ClustersFor(dm.size) <= ClustersFor(s.metas[c].size) + 1
  {
    hide Tree, ClustersFor, EntrySize, LengthAsCoded;
    assert ExactAt(s, c);
    GrowthExact(|s.chains[c]|, ClustersFor(dm.size));
    forall x | x in s'.metas && (x != c || s.metas[c].isDir) ensures ExactAt(s', x) {
      UpdatedRoom(s, c, dm, ds, s', x);
    }
    UpdatedRoom(s, c, dm, ds, s', c);
    assert Exact(s') <==> ExactAt(s', c);
  }

  lemma UpdatedRoom(s: State, c: DirEntry, dm: DBMetaData, ds: seq<int>, s': State, x: DirEntry)
    requires Exact(s) && c in s.metas && c in s.chains && x in s.metas
    requires s' == Updated(s, c, UpdatedMeta(s.metas[c], dm), ds)
    ensures ExactAt(s, x) && DirKnown(s', x) && Room(s'.metas, s'.kids[x]) == Room(s.metas, s.kids[x])
  {
    hide ClustersFor, EntrySize;
    assert ExactAt(s, x);
    forall k | k in s.kids[x] ensures EntrySize(s.metas[k]) == EntrySize(s'.metas[k]) {
      SameRoom(s.metas[k], s'.metas[k]);
    }
    RoomSame(s.metas, s'.metas, s.kids[x]);
  }

  lemma WayUpdatable(s0: State, free0: nat, comps: seq<Name>, dm: DBMetaData, i: nat, s: State, free: nat,
                     cur: DirEntry, c: DirEntry)
    requires OnWay(s0, free0, comps, dm, i, s, free, cur) && Tree(s) && i + 1 == |comps|
    requires c in s.parents && s.parents[c] == cur
    ensures Ready(s0, comps, dm, free0) ==> CanUpdate(s, c, dm, free)
  {
    hide Along, Exact, Clean, Steady, Up, Down, Unique, ClustersFor;
    assert GrowthAsCoded(|s.chains[c]|, ClustersFor(dm.size)) <= ClustersFor(dm.size);
  }

  lemma UpdateChain(s: State, free: nat, c: DirEntry, dm: DBMetaData, s': State, free': nat, ds: seq<int>)
    requires EntryUpdated(s, free, c, dm, s', free', ds)
    ensures c in s.paths ==> ChainMade(s, dm, s', c)
  {
    hide UpdatedLength, CommonPrefix, UpdatedMeta;
  }

  lemma UpdateMade(s: State, free: nat, c: DirEntry, dm: DBMetaData, s': State, free': nat, ds: seq<int>)
    requires EntryUpdated(s, free, c, dm, s', free', ds) && c in s.paths
    ensures WayMade(s, s', c, dm.rev) && EndMade(s, dm, s', c)
  {
    hide UpdatedLength, CommonPrefix, UpdatedMeta;
  }

  lemma LastUpdated(s0: State, free0: nat, comps: seq<Name>, dm: DBMetaData, i: nat, s: State, free: nat,
                    cur: DirEntry, c: DirEntry,
                    s': State, free': nat, ds: seq<int>)
    requires OnWay(s0, free0, comps, dm, i, s, free, cur) && Tree(s0) && Tree(s) && i + 1 == |comps|
    requires c in s.parents && s.parents[c] == cur && c in s.metas && s.metas[c].name == comps[i]
    requires s.metas[c].isDir == dm.isDir
    requires EntryUpdated(s, free, c, dm, s', free', ds)
    ensures Inserted(s0, comps, dm, s', c)
    ensures Clean(s0, comps, dm) ==> Exact(s')
  {
    hide Along, StepDone, Exact, Ready, Up, Down, Unique, HasMeta, Clean, Updated, UpdatedLength, CommonPrefix,
         ChainMade, WayMade, EndMade;
    NoChildYet(s0, s, cur, c);
    ParentOf(s, c);
    UpdateMade(s, free, c, dm, s', free', ds);
    StepUpdated(s, cur, c, dm, ds, s');
    UpdateChain(s, free, c, dm, s', free', ds);
    AlongStep(s0, comps, dm.isDir, i, s, s', cur, c, c);
    if Clean(s0, comps, dm) {
      WayDir(s0, free0, comps, dm, i, s, free, cur);
      assert comps[..i + 1] == comps;
      CleanUpdate(s0, comps, dm, c);
      UpdateKeepsExact(s, c, dm, ds, s');
    }
  }

  lemma CleanUpdate(s: State, comps: seq<Name>, dm: DBMetaData, c: DirEntry)
    requires Clean(s, comps, dm) && c in s.paths && s.paths[c] == comps
    ensures Exact(s) && dm.size <= MAX_SIZE
    ensures !s.metas[c].isDir ==> ClustersFor(dm.size) <= ClustersFor(s.metas[c].size) + 1
  {
  }

  /** Some live entry stands at `path`. */
  ghost predicate Present(s: State, path: seq<Name>) {
    exists x :: x in s.paths && s.paths[x] == path
  }

  lemma {:induction false} AncestorLive(s: State, x: DirEntry, i: nat)
    requires Tree(s) && x in s.paths && i <= |s.paths[x]|
    ensures Present(s, s.paths[x][..i])
    decreases |s.paths[x]|
  {
    hide GoodMeta, Down, Unique;
    if i == |s.paths[x]| {
      assert s.paths[x][..i] == s.paths[x];
    } else {
      assert x != s.root;
      ParentOf(s, x);
      AncestorLive(s, s.parents[x], i);
      assert s.paths[x][..i] == s.paths[s.parents[x]][..i];
    }
  }

  /** Insertion as an update of the map from paths to entries: the path leads to the result and nothing else; every
      path above it leads to a directory; any other path leads somewhere exactly when it did before and was not
      at or below an entry of the other kind. What is not replaced stays where it was; above the path only sizes and
      chains of directories may differ, and anything else is the same entry on the same clusters. */
  lemma InsertView(s0: State, comps: seq<Name>, dm: DBMetaData, s: State, r: DirEntry)
    requires Tree(s0) && Tree(s) && Inserted(s0, comps, dm, s, r)
    ensures r in s.paths && forall x :: x in s.paths && s.paths[x] == comps ==> x == r
    ensures forall i :: 0 <= i < |comps| ==> Present(s, comps[..i])
    ensures forall x :: x in s.paths && s.paths[x] < comps ==> s.metas[x].isDir
    ensures forall q :: (forall i :: 1 <= i <= |comps| ==> q != comps[..i]) ==>
              (Present(s, q) <==>
                 exists x :: x in s0.paths && s0.paths[x] == q && x !in GoneAlong(s0, comps, dm.isDir, |comps|))
    ensures forall x :: x in s0.paths && x !in GoneAlong(s0, comps, dm.isDir, |comps|) ==>
              && x in s.paths && s.paths[x] == s0.paths[x]
              && (x != r ==> Unchanged(s0.metas[x], s.metas[x]))
              && (x != r && !(s0.paths[x] < comps) ==> SameEntry(s0, s, x))
  {
    hide GoodMeta, Up, Down, GoneAlong, HasMeta, ChainMade;
    assert comps[..|comps|] == comps;
    forall i | 0 <= i < |comps| ensures Present(s, comps[..i]) {
      AncestorLive(s, r, i);
    }
    forall x | x in s.paths && s.paths[x] < comps ensures s.metas[x].isDir {
      AboveIsDir(s, x, r);
    }
  }

  // ---- removal by path ----

  /** What remove_file_entry does: it removes an entry of the root, and nothing else. */
  ghost predicate RemovedAsCoded(s: State, comps: seq<Name>, s': State) {
    && ((|comps| != 1 || forall x :: x in s.paths ==> s.paths[x] != comps) ==> s' == s)
    && (forall c :: |comps| == 1 && c in s.paths && s.paths[c] == comps ==>
          Pruned(s, s.root, c, s') && OthersKeep(s.chains, s.root, s'.chains) && Trimmed(s, s.root, c, s'))
  }

  /** So nothing is left at the path exactly when the path has one component, or nothing was there. */
  lemma RemovalMeetsIntent(s: State, comps: seq<Name>, s': State)
    requires Tree(s) && Keys(s') && comps != [] && RemovedAsCoded(s, comps, s')
    ensures (forall x :: x in s'.paths ==> s'.paths[x] != comps) <==>
            (|comps| == 1 || forall x :: x in s.paths ==> s.paths[x] != comps)
  {
    hide OthersKeep, Trimmed, Up, Down, Unique, Pruned;
    if |comps| == 1 && exists c :: c in s.paths && s.paths[c] == comps {
      var c :| c in s.paths && s.paths[c] == comps;
      ChildOfRoot(s, c);
      PrunedPaths(s, s.root, c, s');
    }
  }

  lemma ChildOfRoot(s: State, c: DirEntry)
    requires Tree(s) && c in s.paths && |s.paths[c]| == 1
    ensures c in s.parents && s.parents[c] == s.root
  {
    hide GoodMeta, Down;
    assert c != s.root;
    ParentOf(s, c);
    assert s.paths[s.parents[c]] == [];
  }

  /** A whole removal by path of two components leaves the tree as it is. */
  lemma DeepRemovalFails(s: State, d: DirEntry, c: DirEntry, s': State)
    requires Tree(s) && Keys(s') && c in s.parents && s.parents[c] == d && d in s.parents && s.parents[d] == s.root
    requires c in s.paths && RemovedAsCoded(s, s.paths[c], s')
    ensures s' == s && c in s'.paths
  {
    hide GoodMeta, Down, Unique, Pruned, OthersKeep, Trimmed;
    ParentOf(s, c);
    ParentOf(s, d);
  }

  lemma OneRemoved(s: State, comps: seq<Name>, c: DirEntry, s': State)
    requires Tree(s) && |comps| == 1 && c in s.paths && s.paths[c] == comps
    requires Pruned(s, s.root, c, s') && OthersKeep(s.chains, s.root, s'.chains) && Trimmed(s, s.root, c, s')
    ensures RemovedAsCoded(s, comps, s')
  {
    hide Up, Down, OthersKeep, Trimmed, Pruned;
  }

  lemma NoneRemoved(s: State, comps: seq<Name>)
    requires |comps| != 1 || forall x :: x in s.paths ==> s.paths[x] != comps
    ensures RemovedAsCoded(s, comps, s)
  {
  }

  lemma DeeperChild(s: State, cur: DirEntry, c: DirEntry)
    requires Tree(s) && c in s.parents && s.parents[c] == cur
    ensures c in s.paths && cur in s.paths && UnderSet(s, c) < UnderSet(s, cur)
    ensures c in s.metas && s.paths[c] == s.paths[cur] + [s.metas[c].name]
  {
    hide GoodMeta, Down, Unique;
    ParentOf(s, c);
    forall x | x in UnderSet(s, c) ensures x in UnderSet(s, cur) {
      assert s.paths[cur] <= s.paths[c] <= s.paths[x];
    }
    assert cur in UnderSet(s, cur) && cur !in UnderSet(s, c);
  }
}
