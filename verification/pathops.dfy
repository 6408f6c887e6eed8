/** Adding and removing entries by path (get_child_entry, get_file_path, add_file_entry and
    remove_file_entry of dbfat.c). */
module PathOps {
  import opened Words
  import opened Entries
  import opened Cluster
  import opened DirStream
  import opened FsState
  import opened FsRoom
  import opened FsPath
  import opened FsInsert
  import opened FileTree
  import FsRemove
  import FsBounds

  /** get_child_entry */
  method GetChildEntry(fs: Dbfat, dir: DirEntry, name: Name) returns (c: DirEntry?)
    requires fs.Valid() && dir in fs.st.paths
    ensures c != null ==>
              && c in fs.st.parents && fs.st.parents[c] == dir && c in fs.st.metas
              && fs.st.metas[c].name == name
    ensures c != null ==> c.metadata == fs.st.metas[c]
    ensures c == null ==> forall x :: x in fs.st.paths ==> fs.st.paths[x] != fs.st.paths[dir] + [name]
  {
    hide Tree, RootFirst, Mirrors, Snapshot, FieldsOf, Dbfat.Valid, Keys;
    fs.Facts();
    ghost var s: State, h: Heap := fs.st, fs.heap;
    EntryFacts(s, h, dir);
    SnapshotAt(h, dir);
    c := dir.child;
    ghost var i, ks: seq<DirEntry> := 0, s.kids[dir];
    while c != null
      invariant 0 <= i <= |ks| && c == At(ks, i)
      invariant forall j :: 0 <= j < i ==> ks[j] in s.metas && s.metas[ks[j]].name != name
      decreases |ks| - i
    {
      ListedKid(s, h, dir, i);
      SnapshotAt(h, c);
      if c.metadata.name == name {
        return;
      }
      c := c.next;
      i := i + 1;
    }
    NoSuchChild(s, dir, name);
  }

  lemma ListedKid(s: State, h: Heap, d: DirEntry, i: nat)
    requires Tree(s) && Mirrors(s, h) && d in s.kids && i < |s.kids[d]|
    ensures var k := s.kids[d][i];
            && k in h && h[k].next == At(s.kids[d], i + 1)
            && k in s.parents && s.parents[k] == d && k in s.metas && h[k].metadata == s.metas[k]
  {
    hide Up, Unique, Down;
    FsRemove.MirrorKid(s, h, d, i);
    FsRemove.KidFacts(s, d, i);
    assert MirrorAt(s, h, s.kids[d][i]);
  }

  // ---- get_file_path ----

  /** One step up: the parent pointer, and what the step adds to the text of the path. */
  lemma StepUp(s: State, h: Heap, e: DirEntry, target: DirEntry)
    requires Tree(s) && Mirrors(s, h) && e in s.paths && e != s.root && target in s.paths
    requires s.paths[e] <= s.paths[target]
    ensures e in h && e in s.metas && h[e].metadata == s.metas[e] && h[e].parent != null && h[e].parent in s.paths
    ensures var p, name := h[e].parent, s.metas[e].name;
            && |s.paths[p]| < |s.paths[e]| && s.paths[p] <= s.paths[target]
            && Join(s.paths[e]) == Join(s.paths[p]) + [PATH_SEPARATOR] + name
            && Join(s.paths[p]) <= Join(s.paths[e]) <= Join(s.paths[target])
  {
    hide GoodMeta, Down, Unique, MirrorAt;
    ParentOf(s, e);
    var p, name := s.parents[e], s.metas[e].name;
    assert h[e].parent == p && h[e].metadata == s.metas[e] by { ParentLink(s, h, e); }
    assert s.paths[e][..|s.paths[e]| - 1] == s.paths[p] && s.paths[e][|s.paths[e]| - 1] == name;
    assert s.paths[target][..|s.paths[e]|] == s.paths[e];
    JoinPrefix(s.paths[target], |s.paths[e]|);
  }

  lemma ParentLink(s: State, h: Heap, e: DirEntry)
    requires Tree(s) && Mirrors(s, h) && e in s.parents
    ensures e in h && e in s.metas && h[e].parent == s.parents[e] && h[e].metadata == s.metas[e]
  {
    hide GoodMeta, Down, Unique;
    ParentOf(s, e);
    assert MirrorAt(s, h, s.parents[e]) && MirrorAt(s, h, e);
  }

  /** get_file_path, up to the conversion to UTF-8 */
  method GetFilePath(fs: Dbfat, dirEntry: DirEntry) returns (path: seq<u16>)
    requires fs.Valid() && dirEntry in fs.st.paths
    ensures path == Join(fs.st.paths[dirEntry])
  {
    hide Tree, RootFirst, Mirrors, Snapshot, FieldsOf, Dbfat.Valid, Keys, Join;
    fs.Facts();
    ghost var s: State, h: Heap := fs.st, fs.heap;
    FullPath(fs, dirEntry);
    ghost var full := Join(s.paths[dirEntry]);
    FsRemove.RootLive(s);
    assert Join([]) == [] by { EmptyJoin(); }
    var pathChars: u32 := 0;
    var entry: DirEntry := dirEntry;
    while entry != fs.root
      invariant entry in s.paths && s.paths[entry] <= s.paths[dirEntry]
      invariant pathChars + |Join(s.paths[entry])| == |full|
      decreases |s.paths[entry]|
    {
      StepUp(s, h, entry, dirEntry);
      SnapshotAt(h, entry);
      pathChars := pathChars + (1 + |entry.metadata.name|);
      entry := entry.parent;
    }
    var buf := new u16[pathChars](_ => 0);
    var currentPos := pathChars;
    entry := dirEntry;
    while entry != fs.root
      invariant entry in s.paths && s.paths[entry] <= s.paths[dirEntry]
      invariant currentPos == |Join(s.paths[entry])| <= |full| == buf.Length && buf[currentPos..] == full[currentPos..]
      decreases |s.paths[entry]|
    {
      StepUp(s, h, entry, dirEntry);
      SnapshotAt(h, entry);
      currentPos := currentPos - (1 + |entry.metadata.name|);
      PutName(buf, currentPos, entry.metadata.name, full, Join(s.paths[h[entry].parent]));
      entry := entry.parent;
    }
    path := buf[..];
  }

  /** The separator and the name, written before what is there already. */
  method PutName(buf: array<u16>, at: nat, name: Name, ghost full: seq<u16>, ghost above: seq<u16>)
    requires at == |above| && at + 1 + |name| <= buf.Length == |full| && above + [PATH_SEPARATOR] + name <= full
    requires buf[at + 1 + |name|..] == full[at + 1 + |name|..]
    modifies buf
    ensures buf[at..] == full[at..]
  {
    buf[at] := PATH_SEPARATOR;
    forall i | 0 <= i < |name| {
      buf[at + 1 + i] := name[i];
    }
    forall k | at <= k < |full| ensures buf[k] == full[k] {
      if k < at + 1 + |name| {
        assert full[k] == (above + [PATH_SEPARATOR] + name)[k];
      } else {
        assert buf[k] == buf[at + 1 + |name|..][k - at - 1 - |name|];
      }
    }
  }

  lemma EmptyJoin()
    ensures Join([]) == []
  {
  }

  lemma FullPath(fs: Dbfat, e: DirEntry)
    requires fs.Valid() && e in fs.st.paths
    ensures |Join(fs.st.paths[e])| < TWO_32
  {
    hide Tree, RootFirst, Mirrors, Snapshot, Ownership, Join;
    FsBounds.PathFits(fs.st, fs.table.fat[..], fs.table.dirEntries[..], e);
  }

  // ---- updating an entry that is there ----

  /** Update of an existing entry, on the linked structures. */
  method UpdateLinked(fs: Dbfat, c: DirEntry, dm: DBMetaData, ghost chains: Chains, ghost h: Heap) returns (ok: bool,
                      ghost ds: seq<int>)
    requires fs.table.Valid(chains) && Snapshot(h) && c in h && c in chains && chains[c] != []
    requires chains[c][0] == h[c].firstCluster
    modifies c`metadata, c`firstCluster, fs.table, fs.table.fat, fs.table.dirEntries
    ensures ok <==> UpdateOk(h[c].metadata, |chains[c]|, dm, old(fs.Free()))
    ensures ok ==> fs.Free() + |ds| == old(fs.Free()) + |chains[c]|
    ensures ok ==> ds != [] && fs.table.Valid(WithChain(chains, c, ds))
    ensures ok ==> Snapshot(HeapUpdated(h, c, UpdatedMeta(h[c].metadata, dm), ds[0]))
    ensures ok ==> |ds| == UpdatedLength(h[c].metadata, |chains[c]|, dm) && CommonPrefix(chains[c], ds)
  {
    hide Ownership, Rechained, FreeCount, GrowthAsCoded, ClustersFor, CommonPrefix, LengthAsCoded;
    ghost var fat0: seq<int>, owners0 := fs.table.fat[..], fs.table.dirEntries[..];
    ok, ds := true, chains[c];
    if !c.metadata.isDir {
      c.metadata := c.metadata.(size := dm.size);
      var first;
      ok, first, ds := fs.table.ReallocateClusterChain(c.firstCluster, dm.size, c, chains);
      if !ok {
        return;
      }
      c.firstCluster := first;
      ChainRebuilt(fat0, owners0, fs.table.fat[..], fs.table.dirEntries[..], chains, c, ds);
    } else {
      SameChain(chains, c);
    }
    c.metadata := c.metadata.(wrtDate := WRT_DATE, wrtTime := WRT_TIME);
    c.metadata := c.metadata.(rev := dm.rev);
  }

  lemma LiveChild(s: State, c: DirEntry)
    requires Tree(s) && c in s.parents
    ensures Keys(s) && c in s.paths && c in s.metas && c in s.chains
  {
  }

  lemma UpdateFacts(s: State, h: Heap, c: DirEntry, dm: DBMetaData, free: nat)
    requires Tree(s) && Mirrors(s, h) && c in s.parents
    ensures c in h && c in s.chains && s.chains[c] != [] && s.chains[c][0] == h[c].firstCluster
    ensures CanUpdate(s, c, dm, free) <==> UpdateOk(h[c].metadata, |s.chains[c]|, dm, free)
  {
    EntryFacts(s, h, c);
  }

  lemma NotRoot(s: State, c: DirEntry)
    requires Tree(s) && c in s.parents
    ensures c != s.root
  {
  }

  lemma RootElsewhere(s: State, c: DirEntry, ds: seq<int>, s': State)
    requires RootFirst(s) && c != s.root && s'.root == s.root && s'.chains == WithChain(s.chains, c, ds)
    ensures RootFirst(s')
  {
  }

  lemma UpdateDone(s: State, h: Heap, free: nat, c: DirEntry, dm: DBMetaData, free': nat,
                   ds: seq<int>) returns (s': State, h': Heap)
    requires Tree(s) && Mirrors(s, h) && c in s.parents && c in h && c in s.chains && ds != []
    requires |ds| == UpdatedLength(h[c].metadata, |s.chains[c]|, dm) && CommonPrefix(s.chains[c], ds)
    requires free' + |ds| == free + |s.chains[c]|
    ensures Tree(s') && Mirrors(s', h') && h' == HeapUpdated(h, c, UpdatedMeta(h[c].metadata, dm), ds[0])
    ensures h'.Keys == h.Keys
    ensures s'.root == s.root && s'.chains == WithChain(s.chains, c, ds)
    ensures EntryUpdated(s, free, c, dm, s', free', ds)
    ensures RootFirst(s) ==> RootFirst(s')
  {
    hide Tree, RootFirst, Mirrors, UpdatedLength, CommonPrefix, UpdatedMeta, WithChain;
    LiveChild(s, c);
    EntryFacts(s, h, c);
    s' := Updated(s, c, UpdatedMeta(s.metas[c], dm), ds);
    h' := HeapUpdated(h, c, UpdatedMeta(h[c].metadata, dm), ds[0]);
    UpdateKeeps(s, h, c, dm, ds, s');
    NotRoot(s, c);
    if RootFirst(s) {
      RootElsewhere(s, c, ds, s');
    }
  }

  method UpdateEntry(fs: Dbfat, c: DirEntry, dm: DBMetaData) returns (ok: bool, ghost ds: seq<int>)
    requires fs.Valid() && c in fs.st.parents
    modifies fs`st, fs`heap, c`metadata, c`firstCluster, fs.table, fs.table.fat, fs.table.dirEntries
    ensures ok <==> CanUpdate(old(fs.st), c, dm, old(fs.Free()))
    ensures ok ==> fs.Valid() && fs.heap.Keys == old(fs.heap.Keys)
    ensures ok ==> EntryUpdated(old(fs.st), old(fs.Free()), c, dm, fs.st, fs.Free(), ds)
  {
    hide Tree, RootFirst, Mirrors, Keys, Ownership, Snapshot, Dbfat.Valid, Dbfat.Free, UpdateOk, UpdatedLength,
         UpdatedMeta, CommonPrefix, HeapUpdated, WithChain, CanUpdate, EntryUpdated;
    fs.Facts();
    fs.TableFacts();
    ghost var s0: State, h0: Heap, free0 := fs.st, fs.heap, fs.Free();
    UpdateFacts(s0, h0, c, dm, free0);
    ok, ds := UpdateLinked(fs, c, dm, s0.chains, h0);
    if ok {
      ghost var s1, h1 := UpdateDone(s0, h0, free0, c, dm, fs.Free(), ds);
      fs.SetGhosts(s1, h1);
    }
  }

  // ---- one component of a path ----

  /** Puts a new entry under `cur`, in place of `child` if one of the other kind stands there. */
  method PlaceNew(fs: Dbfat, cur: DirEntry, child: DirEntry?, m: EntryMetaData) returns (e: DirEntry?)
    requires fs.Valid() && cur in fs.st.paths && cur in fs.st.metas && fs.st.metas[cur].isDir && GoodName(m.name)
    requires child == null ==> forall x :: x in fs.st.paths ==> fs.st.paths[x] != fs.st.paths[cur] + [m.name]
    requires child != null ==> child in fs.st.parents && fs.st.parents[child] == cur && child in fs.st.metas &&
                               fs.st.metas[child].name == m.name && fs.st.metas[child].isDir != m.isDir
    modifies fs`st, fs`heap, fs.table, fs.table.fat, fs.table.dirEntries, fs.heap.Keys
    ensures e != null ==> fs.Valid() && fresh(e) && fs.heap.Keys <= old(fs.heap.Keys) + {e}
    ensures e != null ==> Placed(old(fs.st), old(fs.Free()), cur, child, m, fs.st, fs.Free(), e)
    ensures Placeable(old(fs.st), old(fs.Free()), cur, child, m) ==> e != null
  {
    hide Tree, RootFirst, Mirrors, Keys, Ownership, Snapshot, Dbfat.Valid, Dbfat.Free, Placed, Placeable, ChildAdded,
         FsRemove.Pruned, FsRemove.OthersKeep, Trimmed, Smooth, GoodName, AddOk, EntrySize;
    fs.Facts();
    ghost var s0: State, free0 := fs.st, fs.Free();
    if child != null {
      var ok := fs.RemoveChildEntry(cur, child);
      if ok {
        fs.Facts();
      }
      if Placeable(s0, free0, cur, child, m) {
        PlaceableAfter(s0, free0, cur, child, m, fs.st, fs.Free(), ok);
      }
      if !ok {
        return null;
      }
      PrunedPaths(s0, cur, child, fs.st);
      LiveChild(s0, child);
      ParentOf(s0, child);
    }
    ghost var s1: State, free1 := fs.st, fs.Free();
    e := fs.AddChildEntry(cur, m);
    if Placeable(s1, free1, cur, null, m) {
      PlaceableAdds(s1, free1, cur, null, m);
    }
    if e != null {
      fs.Facts();
      PlacedNew(s1, free1, cur, m, fs.st, fs.Free(), e);
      if child != null {
        PlacedOver(s0, free0, cur, child, m, s1, free1, fs.st, fs.Free(), e);
      }
    }
  }

  // ---- add_file_entry ----

  /** The inner loop of both path walks. */
  method NextSeparator(path: seq<u16>, start: u32) returns (end: u32)
    requires start <= |path| < TWO_32 - 1
    ensures start <= end <= |path| && PATH_SEPARATOR !in path[start..end]
    ensures end < |path| ==> path[end] == PATH_SEPARATOR
  {
    end := start;
    while end < |path| && path[end] != PATH_SEPARATOR
      invariant start <= end <= |path| && PATH_SEPARATOR !in path[start..end]
    {
      end := end + 1;
    }
  }

  /** From the start of component `i` the next separator, or the end, is where the component ends. */
  lemma ComponentFound(comps: seq<Name>, i: nat, end: nat)
    requires GoodPath(comps) && i < |comps|
    requires var path, at := Join(comps), |Join(comps[..i])|;
             at + 1 <= end <= |path| && PATH_SEPARATOR !in path[at + 1..end] &&
                 (end < |path| ==> path[end] == PATH_SEPARATOR)
    ensures end == |Join(comps[..i + 1])| && Join(comps)[|Join(comps[..i])| + 1..end] == comps[i]
    ensures end == |Join(comps)| <==> i + 1 == |comps|
    ensures |comps[i]| <= 255 && end == |Join(comps[..i])| + 1 + |comps[i]|
  {
    var path, at, e := Join(comps), |Join(comps[..i])|, |Join(comps[..i + 1])|;
    JoinAt(comps, i);
    assert GoodComp(comps[i]);
    assert end >= e;
    assert end <= e;
  }

  /** Steps into component `name` of `cur`, which is not the last one. */
  method EnterDir(fs: Dbfat, cur: DirEntry, name: Name, rev: Rev, ghost s0: State, ghost free0: nat,
                  ghost comps: seq<Name>,
                  ghost dm: DBMetaData, ghost i: nat)
    returns (e: DirEntry?)
    requires fs.Valid() && Tree(s0) && OnWay(s0, free0, comps, dm, i, fs.st, fs.Free(), cur) && i + 1 < |comps|
    requires GoodName(name) && name == comps[i] && rev == dm.rev
    modifies fs`st, fs`heap, fs.table, fs.table.fat, fs.table.dirEntries, fs.heap.Keys
    ensures e != null ==> fs.Valid() && (fresh(e) || e in old(fs.heap.Keys)) && fs.heap.Keys <= old(fs.heap.Keys) + {e}
    ensures e != null ==> OnWay(s0, free0, comps, dm, i + 1, fs.st, fs.Free(), e)
    ensures Ready(s0, comps, dm, free0) ==> e != null
  {
    hide Tree, RootFirst, OnWay, Placed, Placeable, Ready, Clean, Tight, Dbfat.Valid, Dbfat.Free, GoodName, Mirrors,
         Snapshot, Keys;
    fs.Facts();
    ghost var s: State, free := fs.st, fs.Free();
    WayDir(s0, free0, comps, dm, i, s, free, cur);
    var child := GetChildEntry(fs, cur, name);
    if child != null && child.metadata.isDir {
      e := child;
      LiveChild(s, child);
      WayFound(s0, free0, comps, dm, i, s, free, cur, child);
    } else {
      var m := NewMeta(name, true, 64, rev);
      WayNew(s0, free0, comps, dm, i, s, free, cur, child, m);
      e := PlaceNew(fs, cur, child, m);
      if e != null {
        WayPlaced(s0, free0, comps, dm, i, s, free, cur, child, m, fs.st, fs.Free(), e);
      }
    }
  }

  /** Sees to the last component of the path. */
  method FinishPath(fs: Dbfat, cur: DirEntry, name: Name, dm: DBMetaData, ghost s0: State, ghost free0: nat,
                    ghost comps: seq<Name>,
                    ghost i: nat)
    returns (e: DirEntry?)
    requires fs.Valid() && Tree(s0) && OnWay(s0, free0, comps, dm, i, fs.st, fs.Free(), cur) && i + 1 == |comps|
    requires GoodName(name) && name == comps[i]
    modifies fs`st, fs`heap, fs.table, fs.table.fat, fs.table.dirEntries, fs.heap.Keys
    ensures e != null ==> fs.Valid() && (fresh(e) || e in old(fs.heap.Keys)) && fs.heap.Keys <= old(fs.heap.Keys) + {e}
    ensures e != null ==> Inserted(s0, comps, dm, fs.st, e)
    ensures e != null && Clean(s0, comps, dm) ==> Exact(fs.st)
    ensures Ready(s0, comps, dm, free0) ==> e != null
  {
    hide Tree, RootFirst, OnWay, Placed, Placeable, Ready, Clean, Tight, Dbfat.Valid, Dbfat.Free, GoodName, Mirrors,
         Snapshot, Keys, Inserted, Exact, EntryUpdated, CanUpdate;
    fs.Facts();
    ghost var s: State, free := fs.st, fs.Free();
    WayDir(s0, free0, comps, dm, i, s, free, cur);
    var child := GetChildEntry(fs, cur, name);
    if child != null && child.metadata.isDir == dm.isDir {
      LiveChild(s, child);
      WayUpdatable(s0, free0, comps, dm, i, s, free, cur, child);
      var ok;
      ghost var ds;
      ok, ds := UpdateEntry(fs, child, dm);
      e := if ok then child else null;
      if ok {
        LastUpdated(s0, free0, comps, dm, i, s, free, cur, child, fs.st, fs.Free(), ds);
      }
    } else {
      var m := NewMeta(name, dm.isDir, if dm.isDir then 64 else dm.size, dm.rev);
      WayNew(s0, free0, comps, dm, i, s, free, cur, child, m);
      e := PlaceNew(fs, cur, child, m);
      if e != null {
        LastPlaced(s0, free0, comps, dm, i, s, free, cur, child, m, fs.st, fs.Free(), e);
      }
    }
  }

  /** add_file_entry; null stands for the abort when clusters run out. */
  method AddFileEntry(fs: Dbfat, path: seq<u16>, dm: DBMetaData, ghost comps: seq<Name>) returns (r: DirEntry?)
    requires fs.Valid() && GoodPath(comps) && path == Join(comps) && |path| < TWO_32 - 1
    modifies fs`st, fs`heap, fs.table, fs.table.fat, fs.table.dirEntries, fs.heap.Keys
    ensures r != null ==> fs.Valid() && Inserted(old(fs.st), comps, dm, fs.st, r)
    ensures r != null ==> NamedBy(fs.st, r, comps[|comps| - 1])
    ensures r != null && Clean(old(fs.st), comps, dm) ==> Exact(fs.st)
    ensures Ready(old(fs.st), comps, dm, old(fs.Free())) ==> r != null
  {
    hide Tree, RootFirst, OnWay, Ready, Clean, Dbfat.Valid, Dbfat.Free, Inserted, Exact, Keys, Mirrors, Snapshot,
         GoodPath, GoodName, Join, NamedBy;
    fs.Facts();
    ghost var s0: State, free0 := fs.st, fs.Free();
    PathStart(comps);
    WayStart(s0, free0, comps, dm);
    var pathLastIndex, pathIndex := 0, 1;
    var current: DirEntry := fs.root;
    ghost var i := 0;
    while true
      invariant 0 <= i < |comps| && pathLastIndex == |Join(comps[..i])| && pathIndex == pathLastIndex + 1 <= |path|
      invariant fs.Valid() && OnWay(s0, free0, comps, dm, i, fs.st, fs.Free(), current)
      invariant forall x :: x in fs.heap ==> x in old(fs.heap.Keys) || fresh(x)
      decreases |comps| - i
    {
      pathIndex := NextSeparator(path, pathIndex);
      ComponentFound(comps, i, pathIndex);
      var entryNameChars: u8 := pathIndex - (pathLastIndex + 1);
      var entryName := path[pathLastIndex + 1..pathLastIndex + 1 + entryNameChars];
      GoodComponent(comps, i);
      if pathIndex == |path| {
        r := FinishPath(fs, current, entryName, dm, s0, free0, comps, i);
        if r != null {
          fs.Facts();
          InsertedNamed(s0, comps, dm, fs.st, r);
        }
        return;
      }
      r := EnterDir(fs, current, entryName, dm.rev, s0, free0, comps, dm, i);
      if r == null {
        return;
      }
      pathLastIndex := pathIndex;
      pathIndex := pathIndex + 1;
      current := r;
      i := i + 1;
    }
  }

  lemma PathStart(comps: seq<Name>)
    requires GoodPath(comps)
    ensures comps != [] && |Join(comps[..0])| == 0 && |Join(comps)| >= 1 && Join(comps)[0] == PATH_SEPARATOR
  {
    JoinAt(comps, 0);
  }

  lemma GoodComponent(comps: seq<Name>, i: nat)
    requires GoodPath(comps) && i < |comps|
    ensures GoodName(comps[i])
  {
  }

  // ---- remove_file_entry ----

  lemma FirstFound(comps: seq<Name>)
    requires GoodPath(comps)
    ensures comps != [] && GoodName(comps[0])
    ensures var path, end := Join(comps), |Join(comps[..1])|;
            && 2 <= end <= |path| && path[1..end] == comps[0] && end == 1 + |comps[0]| <= 256
            && (end == |path| <==> |comps| == 1) && (end < |path| ==> path[end] == PATH_SEPARATOR)
            && PATH_SEPARATOR !in path[1..end]
  {
    JoinAt(comps, 0);
    assert GoodComp(comps[0]);
  }

  /** Starting over from the first separator, the cursor stays there. */
  lemma FirstAgain(comps: seq<Name>, start: nat, end: nat)
    requires GoodPath(comps)
    requires var path := Join(comps);
             && start < |path| && (start == 1 || start == |Join(comps[..1])|)
             && start <= end <= |path| && PATH_SEPARATOR !in path[start..end] &&
                 (end < |path| ==> path[end] == PATH_SEPARATOR)
    ensures end == |Join(comps[..1])| && Join(comps)[1..end] == comps[0] && |comps[0]| == end - 1 <= 255
    ensures end == |Join(comps)| <==> |comps| == 1
  {
    hide GoodPath, Join;
    FirstFound(comps);
    var path, e := Join(comps), |Join(comps[..1])|;
    assert end <= e;
    assert end >= e;
  }

  lemma OneComponent(comps: seq<Name>)
    requires |comps| == 1
    ensures comps == [] + [comps[0]]
  {
  }

  lemma FirstMissing(s: State, comps: seq<Name>)
    requires comps != [] && (|comps| > 1 || forall x :: x in s.paths ==> s.paths[x] != [] + [comps[0]])
    ensures RemovedAsCoded(s, comps, s)
  {
    assert |comps| == 1 ==> comps == [] + [comps[0]];
    NoneRemoved(s, comps);
  }

  /** The walk of remove_file_entry: the entry to remove and its directory, or null where the walk ends early.
      The path cursor never passes the first separator: the first component is looked for again and again, one
      level further down each time, so an entry is only reached when the path has one component. */
  method FindForRemoval(fs: Dbfat, path: seq<u16>, ghost comps: seq<Name>)
    returns (current: DirEntry, child: DirEntry?)
    requires fs.Valid() && GoodPath(comps) && path == Join(comps) && |path| < TWO_32 - 1
    ensures child == null ==> RemovedAsCoded(fs.st, comps, fs.st)
    ensures child != null ==>
              && |comps| == 1 && current == fs.st.root && child in fs.st.parents && fs.st.parents[child] == current
              && child in fs.st.paths && fs.st.paths[child] == comps
  {
    hide Tree, RootFirst, Dbfat.Valid, Keys, Mirrors, Snapshot, GoodPath, GoodName, Join, RemovedAsCoded, UnderSet;
    fs.Facts();
    ghost var s: State := fs.st;
    FsRemove.RootLive(s);
    FirstFound(comps);
    var pathLastIndex, pathIndex := 0, 1;
    current, child := fs.root, null;
    while pathIndex < |path|
      invariant current in s.paths && 1 <= pathIndex < |path|
      invariant (pathIndex == 1 && current == s.root) || (|comps| > 1 && pathIndex == |Join(comps[..1])|)
      decreases UnderSet(s, current)
    {
      ghost var start := pathIndex;
      pathIndex := NextSeparator(path, pathIndex);
      FirstAgain(comps, start, pathIndex);
      var entryNameChars: u8 := pathIndex - (pathLastIndex + 1);
      var entryName := path[pathLastIndex + 1..pathLastIndex + 1 + entryNameChars];
      child := GetChildEntry(fs, current, entryName);
      if child == null || (pathIndex < |path| && !child.metadata.isDir) {
        FirstMissing(s, comps);
        child := null;
        return;
      }
      DeeperChild(s, current, child);
      if pathIndex == |path| {
        OneComponent(comps);
        return;
      }
      current := child;
    }
  }

  /** remove_file_entry */
  method RemoveFileEntry(fs: Dbfat, path: seq<u16>, ghost comps: seq<Name>) returns (ok: bool)
    requires fs.Valid() && GoodPath(comps) && path == Join(comps) && |path| < TWO_32 - 1
    modifies fs`st, fs`heap, fs.table, fs.table.fat, fs.table.dirEntries, fs.heap.Keys
    ensures ok ==> fs.Valid() && RemovedAsCoded(old(fs.st), comps, fs.st)
    ensures Smooth(old(fs.st), old(fs.Free()), fs.st, fs.Free(), ok)
  {
    hide Tree, RootFirst, Dbfat.Valid, Dbfat.Free, Keys, Mirrors, Snapshot, GoodPath, Join, FsRemove.Pruned, Smooth,
         RemovedAsCoded, FsRemove.OthersKeep, Trimmed;
    fs.Facts();
    ghost var s0: State := fs.st;
    SmoothStart(s0, fs.Free());
    var current, child := FindForRemoval(fs, path, comps);
    ok := true;
    if child != null {
      ok := fs.RemoveChildEntry(current, child);
      if ok {
        OneRemoved(s0, comps, child, fs.st);
      }
    }
  }
}
