/** Paths: what adding and removing by path mean for the tree, on values (dbfat.c). */
module FsPath {
  import opened Words
  import opened Entries
  import opened DirStream
  import opened FsState
  import Cluster
  import FsRemove

  const PATH_SEPARATOR: u16 := 0x2F

  /** struct DBMetaData */
  datatype DBMetaData = DBMetaData(isDir: bool, size: u32, mtime: u32, rev: Rev)

  predicate GoodComp(name: Name) {
    GoodName(name) && PATH_SEPARATOR !in name
  }

  predicate GoodPath(comps: seq<Name>) {
    comps != [] && forall i :: 0 <= i < |comps| ==> GoodComp(comps[i])
  }

  /** A path as text: a separator before every component. */
  function Join(comps: seq<Name>): seq<u16> {
    if comps == [] then [] else Join(comps[..|comps| - 1]) + [PATH_SEPARATOR] + comps[|comps| - 1]
  }

  lemma {:induction false} JoinPrefix(comps: seq<Name>, i: nat)
    requires i <= |comps|
    ensures Join(comps[..i]) <= Join(comps)
  {
    if i < |comps| {
      var most := comps[..|comps| - 1];
      assert comps[..i] == most[..i];
      JoinPrefix(most, i);
    } else {
      assert comps[..i] == comps;
    }
  }

  /** Component `i` stands between the ends of the first `i` and the first `i + 1` components, behind a slash. */
  lemma JoinAt(comps: seq<Name>, i: nat)
    requires i < |comps|
    ensures var path, at, end := Join(comps), |Join(comps[..i])|, |Join(comps[..i + 1])|;
            && end <= |path| && end == at + 1 + |comps[i]|
            && path[at] == 0x2F && path[at + 1..end] == comps[i]
            && (i + 1 < |comps| ==> end < |path| && path[end] == 0x2F)
            && (i + 1 == |comps| ==> end == |path|)
  {
    JoinStep(comps, i);
    JoinPrefix(comps, i + 1);
    if i + 1 < |comps| {
      JoinStep(comps, i + 1);
      JoinPrefix(comps, i + 2);
    } else {
      assert comps[..i + 1] == comps;
    }
  }

  lemma JoinStep(comps: seq<Name>, i: nat)
    requires i < |comps|
    ensures Join(comps[..i + 1]) == Join(comps[..i]) + [PATH_SEPARATOR] + comps[i]
  {
    assert comps[..i + 1][..i] == comps[..i] && comps[..i + 1][i] == comps[i];
  }

  // ---- one component ----

  /** Entries that go because the entry at `path` has the other kind: it and everything below it. */
  ghost function Gone(s: State, path: seq<Name>, isDir: bool): set<DirEntry>
    requires Keys(s)
  {
    set x | x in s.paths && path <= s.paths[x] &&
            exists c :: c in s.paths && s.paths[c] == path && s.metas[c].isDir != isDir
  }

  /** The same entry, but for the recorded size of a directory. */
  predicate Unchanged(m: EntryMetaData, m': EntryMetaData) {
    m' == m || (m.isDir && m' == m.(size := m'.size))
  }

  /** Entries of `s` are those of `s0` without `gone`, and they are as they were, but for `e` (if any). */
  ghost predicate Kept(s0: State, gone: set<DirEntry>, s: State, e: DirEntry?)
    requires Keys(s0) && Keys(s)
  {
    && s.root == s0.root
    && (forall x :: x in s0.paths ==> (x in s.paths <==> x !in gone))
    && (forall x :: x in s0.paths && x in s.paths ==> s.paths[x] == s0.paths[x])
    && (forall x :: x in s0.paths && x in s.paths && x != e ==> Unchanged(s0.metas[x], s.metas[x]))
  }

  /** The same metadata on the same clusters. */
  ghost predicate SameEntry(s0: State, s: State, x: DirEntry) {
    && x in s0.metas && x in s.metas && s.metas[x] == s0.metas[x]
    && x in s0.chains && x in s.chains && s.chains[x] == s0.chains[x]
  }

  /** Entries that do not stand above `path` are the same, but for `e` (if any). */
  ghost predicate Aside(s0: State, path: seq<Name>, s: State, e: DirEntry?) {
    forall x :: x in s0.paths && x in s.paths && x != e && !(s0.paths[x] < path) ==> SameEntry(s0, s, x)
  }

  /** `e` is now the entry `name` of directory `d`, of the kind asked for; it alone may be new, and its
      metadata alone may have been replaced (`upd` names it then). */
  ghost predicate StepDone(s: State, d: DirEntry, name: Name, isDir: bool, s': State, e: DirEntry, upd: DirEntry?) {
    && Keys(s) && Keys(s') && d in s.paths && e in s'.paths
    && s'.paths[e] == s.paths[d] + [name] && s'.metas[e].isDir == isDir
    && Kept(s, Gone(s, s.paths[d] + [name], isDir), s', upd) && Aside(s, s.paths[d] + [name], s', upd)
    && (forall y :: y in s'.paths && y !in s.paths ==> y == e)
  }

  lemma StepFound(s: State, d: DirEntry, c: DirEntry)
    requires Tree(s) && c in s.parents && s.parents[c] == d
    ensures c in s.metas && StepDone(s, d, s.metas[c].name, s.metas[c].isDir, s, c, null)
  {
    hide GoodMeta, Down;
    ParentOf(s, c);
  }

  lemma NothingGone(s: State, path: seq<Name>, isDir: bool)
    requires Keys(s) && forall x :: x in s.paths && s.paths[x] == path ==> s.metas[x].isDir == isDir
    ensures Gone(s, path, isDir) == {}
  {
  }

  lemma AddedAside(s: State, d: DirEntry, e: DirEntry, m: EntryMetaData, s': State)
    requires Keys(s) && Keys(s') && ChildAdded(s, d, e, m, s') && e !in s.paths
    ensures Aside(s, s.paths[d] + [m.name], s', null)
  {
    hide Cluster.CommonPrefix, GrownLength, Cluster.ClustersFor, EntrySize, ShortNamed;
    forall x | x in s.paths && x != d ensures SameEntry(s, s', x) {
    }
    assert s.paths[d] < s.paths[d] + [m.name];
  }

  lemma StepAdded(s: State, d: DirEntry, e: DirEntry, m: EntryMetaData, s': State)
    requires Keys(s) && Keys(s') && ChildAdded(s, d, e, m, s') && e !in s.paths && s.metas[d].isDir
    requires forall x :: x in s.paths ==> s.paths[x] != s.paths[d] + [m.name]
    ensures StepDone(s, d, m.name, m.isDir, s', e, null)
    ensures s'.kids[e] == [] && ShortNamed(m, s'.metas[e])
  {
    hide Cluster.CommonPrefix, GrownLength, Cluster.ClustersFor, EntrySize, ShortNamed, Keys, Aside;
    AddedAside(s, d, e, m, s');
    NothingGone(s, s.paths[d] + [m.name], m.isDir);
    ShortNamedFields(m, s'.metas[e]);
  }

  lemma ShortNamedFields(m: EntryMetaData, m': EntryMetaData)
    requires ShortNamed(m, m')
    ensures m'.isDir == m.isDir && m'.name == m.name && m'.size == m.size && m'.rev == m.rev
    ensures m'.wrtDate == m.wrtDate && m'.wrtTime == m.wrtTime
  {
  }

  lemma GoneUnder(s: State, c: DirEntry, isDir: bool)
    requires Keys(s) && c in s.paths && s.metas[c].isDir != isDir
    ensures Gone(s, s.paths[c], isDir) == UnderSet(s, c)
  {
  }

  /** The entry of the other kind is removed first. */
  lemma StepReplaced(s: State, d: DirEntry, c: DirEntry, s1: State, s2: State, name: Name, isDir: bool, e: DirEntry)
    requires Tree(s) && c in s.parents && s.parents[c] == d && FsRemove.Pruned(s, d, c, s1) && Tree(s1)
    requires c in s.metas && s.metas[c].name == name && s.metas[c].isDir != isDir
    requires FsRemove.OthersKeep(s.chains, d, s1.chains)
    requires StepDone(s1, d, name, isDir, s2, e, null) && e !in s.paths
    ensures StepDone(s, d, name, isDir, s2, e, null)
  {
    hide GoodMeta, Up, Down, Unique, Gone, UnderSet, FsRemove.Pruned, StepDone, Aside, FsRemove.OthersKeep;
    ParentOf(s, c);
    PrunedPaths(s, d, c, s1);
    NothingGone(s1, s.paths[c], isDir);
    GoneUnder(s, c, isDir);
    PrunedAside(s, d, s1, name);
    StepAfter(s, d, name, isDir, s1, s2, e, UnderSet(s, c));
  }

  lemma PrunedAside(s: State, d: DirEntry, s1: State, name: Name)
    requires Keys(s) && Keys(s1) && d in s.paths && FsRemove.OthersKeep(s.chains, d, s1.chains)
    requires forall x :: x in s1.paths && x in s.paths ==> s1.metas[x] == s.metas[x]
    ensures Aside(s, s.paths[d] + [name], s1, null)
  {
  }

  lemma AsideTwice(s0: State, s1: State, s2: State, path: seq<Name>, path1: seq<Name>, upd: DirEntry?)
    requires Aside(s0, path, s1, null) && Aside(s1, path1, s2, upd) && path1 <= path
    requires forall x :: x in s0.paths && x in s2.paths ==> x in s1.paths
    requires forall x :: x in s0.paths && x in s1.paths ==> s1.paths[x] == s0.paths[x]
    ensures Aside(s0, path, s2, upd)
  {
  }

  lemma StepAfter(s: State, d: DirEntry, name: Name, isDir: bool, s1: State, s2: State, e: DirEntry,
                  gone: set<DirEntry>)
    requires Keys(s) && Keys(s1) && d in s.paths && d in s1.paths && e !in s.paths && s1.root == s.root
    requires Live(s1) == Live(s) - gone
    requires forall x :: x in s1.paths ==> s1.paths[x] == s.paths[x] && s1.metas[x] == s.metas[x]
    requires Aside(s, s.paths[d] + [name], s1, null)
    requires Gone(s, s.paths[d] + [name], isDir) == gone && Gone(s1, s.paths[d] + [name], isDir) == {}
    requires StepDone(s1, d, name, isDir, s2, e, null)
    ensures StepDone(s, d, name, isDir, s2, e, null)
  {
    hide Gone, Unchanged, Aside;
    AsideTwice(s, s1, s2, s.paths[d] + [name], s.paths[d] + [name], null);
  }

  lemma PrunedPaths(s: State, d: DirEntry, c: DirEntry, s1: State)
    requires Tree(s) && c in s.parents && s.parents[c] == d && FsRemove.Pruned(s, d, c, s1) && Keys(s1)
    ensures d in s.paths && d in s1.paths && c in s.paths && s1.root == s.root
    ensures Live(s1) == Live(s) - UnderSet(s, c)
    ensures forall x :: x in s1.paths ==> s1.paths[x] == s.paths[x] && s1.metas[x] == s.metas[x]
    ensures forall x :: x in s1.paths ==> s1.paths[x] != s.paths[c]
  {
    hide GoodMeta, Down, Without;
    ParentOf(s, c);
    assert !Under(s, c, d);
    FsRemove.KeptLive(s, Live(s) - UnderSet(s, c), d, Without(s.kids[d], c), s1.chains);
  }

  // ---- a whole path ----

  /** Kind that component `i` (from 1) of the path must have. */
  predicate Want(comps: seq<Name>, isDir: bool, i: nat) {
    i < |comps| || isDir
  }

  ghost function GoneAlong(s: State, comps: seq<Name>, isDir: bool, n: nat): set<DirEntry>
    requires Keys(s) && n <= |comps|
  {
    set x | x in s.paths && exists i :: 1 <= i <= n && x in Gone(s, comps[..i], Want(comps, isDir, i))
  }

  /** The first `n` components have been seen to; `cur` is the entry reached. */
  ghost predicate Along(s0: State, comps: seq<Name>, isDir: bool, n: nat, s: State, cur: DirEntry, upd: DirEntry?) {
    && Keys(s0) && Keys(s) && n <= |comps| && cur in s.paths && s.paths[cur] == comps[..n]
    && (n > 0 ==> s.metas[cur].isDir == Want(comps, isDir, n))
    && Kept(s0, GoneAlong(s0, comps, isDir, n), s, upd) && Aside(s0, comps, s, upd)
    && (forall y :: y in s.paths && y !in s0.paths ==>
          exists i :: 1 <= i <= n && s.paths[y] == comps[..i] && s.metas[y].isDir == Want(comps, isDir, i))
  }

  /** What lies above an entry is a directory. */
  lemma {:induction false} AboveIsDir(s: State, a: DirEntry, x: DirEntry)
    requires Tree(s) && a in s.paths && x in s.paths && s.paths[a] < s.paths[x]
    ensures s.metas[a].isDir
    decreases |s.paths[x]|
  {
    hide GoodMeta, Down;
    if x == s.root {
      assert false;
    }
    ParentOf(s, x);
    var p := s.parents[x];
    if s.paths[a] == s.paths[p] {
      assert a == p;
    } else {
      AboveIsDir(s, a, p);
    }
  }

  /** An entry of the other kind on the path, further down, is still there. */
  lemma ClashStill(s0: State, comps: seq<Name>, isDir: bool, n: nat, c: DirEntry)
    requires Tree(s0) && n < |comps| && c in s0.paths && s0.paths[c] == comps[..n + 1]
    ensures c !in GoneAlong(s0, comps, isDir, n)
  {
    hide GoodMeta, Up, Down;
    forall i | 1 <= i <= n ensures c !in Gone(s0, comps[..i], Want(comps, isDir, i)) {
      forall a | a in s0.paths && s0.paths[a] == comps[..i] ensures s0.metas[a].isDir {
        assert comps[..i] < comps[..n + 1];
        AboveIsDir(s0, a, c);
      }
    }
  }

  lemma GoneSame(s0: State, comps: seq<Name>, isDir: bool, n: nat, s: State, cur: DirEntry, x: DirEntry)
    requires Tree(s0) && Along(s0, comps, isDir, n, s, cur, null) && n < |comps| && x in s0.paths && x in s.paths
    ensures var w := Want(comps, isDir, n + 1); x in Gone(s, comps[..n + 1], w) <==> x in Gone(s0, comps[..n + 1], w)
  {
    hide Tree, GoneAlong, Aside;
    var path, w := comps[..n + 1], Want(comps, isDir, n + 1);
    if x in Gone(s, path, w) {
      var c :| c in s.paths && s.paths[c] == path && s.metas[c].isDir != w;
      assert c in s0.paths;
    }
    if x in Gone(s0, path, w) {
      var c :| c in s0.paths && s0.paths[c] == path && s0.metas[c].isDir != w;
      ClashStill(s0, comps, isDir, n, c);
    }
  }

  lemma AlongStart(s: State, comps: seq<Name>, isDir: bool)
    requires Tree(s)
    ensures Along(s, comps, isDir, 0, s, s.root, null)
  {
    hide GoodMeta, Down, Unique;
    assert GoneAlong(s, comps, isDir, 0) == {};
  }

  lemma KeptTwice(s0: State, g0: set<DirEntry>, s: State, g1: set<DirEntry>, s': State, g: set<DirEntry>,
                  upd: DirEntry?)
    requires Keys(s0) && Keys(s) && Keys(s') && Kept(s0, g0, s, null) && Kept(s, g1, s', upd)
    requires forall x :: x in s0.paths ==> (x in g <==> x in g0 || (x in s.paths && x in g1))
    requires forall x :: x in s0.paths && x in s'.paths ==> x in s.paths
    ensures Kept(s0, g, s', upd)
  {
  }

  lemma GoneBoth(s0: State, comps: seq<Name>, isDir: bool, n: nat, s: State, cur: DirEntry, x: DirEntry)
    requires Tree(s0) && Along(s0, comps, isDir, n, s, cur, null) && n < |comps| && x in s0.paths
    ensures x in GoneAlong(s0, comps, isDir, n + 1) <==>
            x in GoneAlong(s0, comps, isDir, n) ||
                (x in s.paths && x in Gone(s, comps[..n + 1], Want(comps, isDir, n + 1)))
  {
    hide GoneAlong, Gone, Unchanged, Aside;
    GoneNext(s0, comps, isDir, n, x);
    if x in s.paths {
      GoneSame(s0, comps, isDir, n, s, cur, x);
    }
  }

  lemma AlongGone(s0: State, comps: seq<Name>, isDir: bool, n: nat, s: State, s': State, cur: DirEntry, e: DirEntry,
                  upd: DirEntry?)
    requires Tree(s0) && Along(s0, comps, isDir, n, s, cur, null) && n < |comps|
    requires StepDone(s, cur, comps[n], Want(comps, isDir, n + 1), s', e, upd) && (e in s0.paths ==> e in s.paths)
    ensures Kept(s0, GoneAlong(s0, comps, isDir, n + 1), s', upd)
  {
    hide Tree, GoneAlong, Gone, Kept, Aside;
    forall x | x in s0.paths
      ensures x in GoneAlong(s0, comps, isDir, n + 1) <==>
              x in GoneAlong(s0, comps, isDir, n) ||
                  (x in s.paths && x in Gone(s, comps[..n + 1], Want(comps, isDir, n + 1)))
    {
      GoneBoth(s0, comps, isDir, n, s, cur, x);
    }
    assert s.paths[cur] + [comps[n]] == comps[..n + 1];
    KeptTwice(s0, GoneAlong(s0, comps, isDir, n), s, Gone(s, comps[..n + 1], Want(comps, isDir, n + 1)), s',
              GoneAlong(s0, comps, isDir, n + 1), upd);
  }

  lemma GoneNext(s: State, comps: seq<Name>, isDir: bool, n: nat, x: DirEntry)
    requires Keys(s) && n < |comps| && x in s.paths
    ensures x in GoneAlong(s, comps, isDir, n + 1) <==>
            x in GoneAlong(s, comps, isDir, n) || x in Gone(s, comps[..n + 1], Want(comps, isDir, n + 1))
  {
    hide Gone;
    if x in GoneAlong(s, comps, isDir, n + 1) {
      var i :| 1 <= i <= n + 1 && x in Gone(s, comps[..i], Want(comps, isDir, i));
      assert i <= n ==> x in GoneAlong(s, comps, isDir, n);
    }
  }

  lemma NextPrefix(comps: seq<Name>, n: nat)
    requires n < |comps|
    ensures comps[..n] + [comps[n]] == comps[..n + 1] && comps[..n + 1] <= comps
  {
  }

  lemma KeptEntry(s0: State, gone: set<DirEntry>, s: State, e: DirEntry?, x: DirEntry)
    requires Keys(s0) && Keys(s) && Kept(s0, gone, s, e) && x in s0.paths && x in s.paths
    ensures s.paths[x] == s0.paths[x] && (x != e ==> s.metas[x].isDir == s0.metas[x].isDir)
  {
  }

  lemma AlongAside(s0: State, comps: seq<Name>, isDir: bool, n: nat, s: State, s': State, cur: DirEntry, e: DirEntry,
                   upd: DirEntry?)
    requires Along(s0, comps, isDir, n, s, cur, null) && n < |comps|
    requires StepDone(s, cur, comps[n], Want(comps, isDir, n + 1), s', e, upd) && (e in s0.paths ==> e in s.paths)
    ensures Aside(s0, comps, s', upd)
  {
    hide GoneAlong, Gone, Want, Aside, Kept;
    NextPrefix(comps, n);
    forall x | x in s0.paths && x in s.paths ensures s.paths[x] == s0.paths[x] {
      KeptEntry(s0, GoneAlong(s0, comps, isDir, n), s, null, x);
    }
    AsideTwice(s0, s, s', comps, comps[..n + 1], upd);
  }

  lemma AlongNew(s0: State, comps: seq<Name>, isDir: bool, n: nat, s: State, s': State, cur: DirEntry, e: DirEntry,
                 upd: DirEntry?, y: DirEntry)
    requires Along(s0, comps, isDir, n, s, cur, null) && n < |comps|
    requires StepDone(s, cur, comps[n], Want(comps, isDir, n + 1), s', e, upd)
    requires y in s'.paths && y !in s0.paths && y != upd
    ensures exists i :: 1 <= i <= n + 1 && s'.paths[y] == comps[..i] && s'.metas[y].isDir == Want(comps, isDir, i)
  {
    hide GoneAlong, Gone, Want, Aside, Kept;
    if y == e {
      NextPrefix(comps, n);
    } else {
      var i :| 1 <= i <= n && s.paths[y] == comps[..i] && s.metas[y].isDir == Want(comps, isDir, i);
      KeptEntry(s, Gone(s, s.paths[cur] + [comps[n]], Want(comps, isDir, n + 1)), s', upd, y);
    }
  }

  /** One more component. */
  lemma AlongStep(s0: State, comps: seq<Name>, isDir: bool, n: nat, s: State, s': State, cur: DirEntry, e: DirEntry,
                  upd: DirEntry?)
    requires Tree(s0) && Along(s0, comps, isDir, n, s, cur, null) && n < |comps|
    requires StepDone(s, cur, comps[n], Want(comps, isDir, n + 1), s', e, upd) && (e in s0.paths ==> e in s.paths)
    requires upd == null || upd in s0.paths
    ensures Along(s0, comps, isDir, n + 1, s', e, upd)
  {
    hide Tree, GoneAlong, Gone, Kept, Aside;
    AlongGone(s0, comps, isDir, n, s, s', cur, e, upd);
    AlongAside(s0, comps, isDir, n, s, s', cur, e, upd);
    NextPrefix(comps, n);
    forall y | y in s'.paths && y !in s0.paths
      ensures exists i :: 1 <= i <= n + 1 && s'.paths[y] == comps[..i] && s'.metas[y].isDir == Want(comps, isDir, i)
    {
      AlongNew(s0, comps, isDir, n, s, s', cur, e, upd, y);
    }
  }

  // ---- lookup ----

  lemma LastApart(p: seq<Name>, a: Name, q: seq<Name>, b: Name)
    requires p + [a] == q + [b]
    ensures p == q && a == b
  {
    assert (p + [a])[..|p|] == p && (q + [b])[..|q|] == q;
    assert (p + [a])[|p|] == a && (q + [b])[|q|] == b;
  }

  lemma NoSuchChild(s: State, d: DirEntry, name: Name)
    requires Tree(s) && d in s.paths
    requires forall k :: k in s.kids[d] ==> k in s.metas && s.metas[k].name != name
    ensures forall x :: x in s.paths ==> s.paths[x] != s.paths[d] + [name]
  {
    hide GoodMeta, Down;
    forall x | x in s.paths && s.paths[x] == s.paths[d] + [name] ensures false {
      assert x != s.root;
      ParentOf(s, x);
      LastApart(s.paths[s.parents[x]], s.metas[x].name, s.paths[d], name);
    }
  }

  // ---- new metadata ----

  const WRT_DATE: u16 := 0x089E
  const WRT_TIME: u16 := 0

  /** Metadata of a new entry; its short name is made later. */
  function NewMeta(name: Name, isDir: bool, size: u32, rev: Rev): EntryMetaData {
    EntryMetaData(size, WRT_DATE, WRT_TIME, isDir, 0, [], name, rev)
  }

  function UpdatedMeta(m: EntryMetaData, dm: DBMetaData): EntryMetaData {
    m.(size := if m.isDir then m.size else dm.size, wrtDate := WRT_DATE, wrtTime := WRT_TIME, rev := dm.rev)
  }

  /** The entry carries the metadata received. */
  predicate HasMeta(m: EntryMetaData, dm: DBMetaData) {
    m.isDir == dm.isDir && (!m.isDir ==> m.size == dm.size) && Stamped(m, dm.rev)
  }

  /** The stamps of what was added or updated: the revision received, and the date and time of the stubs. */
  predicate Stamped(m: EntryMetaData, rev: Rev) {
    m.rev == rev && m.wrtDate == 0x089E && m.wrtTime == 0
  }

  // ---- updating an entry in place ----

  ghost function Updated(s: State, c: DirEntry, m: EntryMetaData, ds: seq<int>): State {
    State(s.root, s.paths, s.parents, s.kids, s.metas[c := m], Cluster.WithChain(s.chains, c, ds))
  }

  ghost function HeapUpdated(h: Heap, c: DirEntry, m: EntryMetaData, first: int): Heap
    requires c in h
  {
    h[c := h[c].(metadata := m, firstCluster := first)]
  }

  lemma UpdateKeeps(s: State, h: Heap, c: DirEntry, dm: DBMetaData, ds: seq<int>, s': State)
    requires Tree(s) && Mirrors(s, h) && c in s.parents && c in h && c in s.metas && ds != []
    requires s' == Updated(s, c, UpdatedMeta(s.metas[c], dm), ds)
    ensures Tree(s') && Mirrors(s', HeapUpdated(h, c, UpdatedMeta(s.metas[c], dm), ds[0]))
    ensures s'.root == s.root && s'.chains == Cluster.WithChain(s.chains, c, ds)
  {
    hide GoodMeta, UpAt, DownAt, Unique, MirrorAt;
    var h' := HeapUpdated(h, c, UpdatedMeta(s.metas[c], dm), ds[0]);
    assert Unique(s') by { DropUnique(s, s'); }
    forall x | x in s'.parents ensures UpAt(s', x) {
      assert UpAt(s, x);
      UpdateUpAt(s, c, dm, ds, s', x);
    }
    forall x | x in s'.paths ensures DownAt(s', x) && MirrorAt(s', h', x) {
      assert DownAt(s, x) && MirrorAt(s, h, x);
      UpdateAt(s, h, c, dm, ds, s', x);
    }
  }

  lemma UpdatedTree(s: State, c: DirEntry, dm: DBMetaData, ds: seq<int>, s': State)
    requires Tree(s) && c in s.parents && c in s.metas && s' == Updated(s, c, UpdatedMeta(s.metas[c], dm), ds)
    ensures Tree(s')
  {
    hide GoodMeta, UpAt, DownAt, Unique, UpdatedMeta;
    assert Unique(s') by { DropUnique(s, s'); }
    UpdatedKeys(s, c, UpdatedMeta(s.metas[c], dm), ds, s');
    forall x | x in s'.parents ensures UpAt(s', x) {
      assert UpAt(s, x);
      UpdateUpAt(s, c, dm, ds, s', x);
    }
    forall x | x in s'.paths ensures DownAt(s', x) {
      assert DownAt(s, x);
      UpdatedDownAt(s, c, UpdatedMeta(s.metas[c], dm), ds, s', x);
    }
  }

  lemma UpdatedKeys(s: State, c: DirEntry, m: EntryMetaData, ds: seq<int>, s': State)
    requires Keys(s) && c in s.parents && s' == Updated(s, c, m, ds)
    ensures Keys(s')
  {
  }

  lemma UpdatedDownAt(s: State, c: DirEntry, m: EntryMetaData, ds: seq<int>, s': State, x: DirEntry)
    requires Keys(s) && Keys(s') && s' == Updated(s, c, m, ds) && x in s.paths && DownAt(s, x)
    ensures DownAt(s', x)
  {
  }

  lemma UpdateUpAt(s: State, c: DirEntry, dm: DBMetaData, ds: seq<int>, s': State, x: DirEntry)
    requires Keys(s) && c in s.metas && s' == Updated(s, c, UpdatedMeta(s.metas[c], dm), ds) && Keys(s')
    requires x in s.parents && UpAt(s, x)
    ensures UpAt(s', x)
  {
  }

  lemma UpdateAt(s: State, h: Heap, c: DirEntry, dm: DBMetaData, ds: seq<int>, s': State, x: DirEntry)
    requires Keys(s) && c in s.metas && c in h && ds != [] && s' == Updated(s, c, UpdatedMeta(s.metas[c], dm), ds)
    requires Keys(s')
    requires x in s.paths && DownAt(s, x) && MirrorAt(s, h, x)
    ensures DownAt(s', x) && MirrorAt(s', HeapUpdated(h, c, UpdatedMeta(s.metas[c], dm), ds[0]), x)
  {
  }

  lemma StepUpdated(s: State, d: DirEntry, c: DirEntry, dm: DBMetaData, ds: seq<int>, s': State)
    requires Tree(s) && c in s.parents && s.parents[c] == d && c in s.metas && s.metas[c].isDir == dm.isDir
    requires s' == Updated(s, c, UpdatedMeta(s.metas[c], dm), ds)
    ensures StepDone(s, d, s.metas[c].name, dm.isDir, s', c, c) && HasMeta(s'.metas[c], dm)
  {
    hide GoodMeta, Down, UpAt, Aside, Kept;
    ParentOf(s, c);
    assert Keys(s');
    NothingGone(s, s.paths[c], dm.isDir);
    UpdatedOthers(s, c, UpdatedMeta(s.metas[c], dm), ds, s', s.paths[c]);
  }

  lemma UpdatedOthers(s: State, c: DirEntry, m: EntryMetaData, ds: seq<int>, s': State, path: seq<Name>)
    requires Keys(s) && Keys(s') && c in s.paths && s' == Updated(s, c, m, ds)
    ensures Kept(s, {}, s', c) && Aside(s, path, s', c)
  {
  }
}
