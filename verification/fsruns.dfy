/** Whole runs of additions, removals and updates, and what one removal gives back (dbfat.c). */
module FsRuns {
  import opened Words
  import opened Layout
  import opened Entries
  import opened Cluster
  import opened DirStream
  import opened FsState
  import opened FsRemove
  import opened FsRoom
  import opened FsPath
  import opened FsCover
  import opened FsImage
  import opened Scratch
  import opened FileTree
  import opened Mount
  import FsInsert
  import PathOps

  /** One call of add_child_entry, of remove_child_entry, or of the part of add_file_entry that updates an entry. */
  datatype Call =
    | Add(dir: DirEntry, entry: DirEntry, meta: EntryMetaData)
    | Remove(dir: DirEntry, entry: DirEntry)
    | Update(entry: DirEntry, dm: DBMetaData)

  /** The addition is one that add_file_entry makes, and the sizes stay below the limit. */
  ghost predicate Sized(s: State, d: DirEntry, m: EntryMetaData) {
    && Keys(s) && d in s.paths && s.metas[d].isDir && GoodName(m.name)
    && (forall x :: x in s.paths ==> s.paths[x] != s.paths[d] + [m.name])
    && (m.isDir ==> m.size == 64) && s.metas[d].size + EntrySize(m) <= MAX_SIZE
  }

  ghost predicate AddStep(s: State, d: DirEntry, e: DirEntry, m: EntryMetaData, s': State) {
    && Sized(s, d, m) && m.size <= MAX_SIZE && e !in s.paths && ChildAdded(s, d, e, m, s')
    && GoodMeta(s'.metas[e]) && s'.chains[e] != [] && s'.chains[d] != []
  }

  ghost predicate RemoveStep(s: State, d: DirEntry, c: DirEntry, s': State) {
    && c in s.parents && s.parents[c] == d && Keys(s')
    && Pruned(s, d, c, s') && OthersKeep(s.chains, d, s'.chains) && Trimmed(s, d, c, s') && s'.chains[d] != []
  }

  ghost predicate UpdateStep(s: State, c: DirEntry, dm: DBMetaData, s': State) {
    && c in s.parents && Refreshed(s, c, dm, s') && s.metas[c].isDir == dm.isDir
    && (!dm.isDir ==> dm.size <= MAX_SIZE) && s.chains[c] != [] && s'.chains[c] != []
  }

  /** What one call does. */
  ghost predicate Step(s: State, call: Call, s': State) {
    match call
    case Add(d, e, m) => AddStep(s, d, e, m, s')
    case Remove(d, c) => RemoveStep(s, d, c, s')
    case Update(c, dm) => UpdateStep(s, c, dm, s')
  }

  ghost predicate Run(states: seq<State>, calls: seq<Call>) {
    && |states| == |calls| + 1 && StartState(states[0])
    && forall i :: 0 <= i < |calls| ==> Step(states[i], calls[i], states[i + 1])
  }

  // ---- the linked tree makes such steps ----

  /** What a caller asks for. */
  datatype Op =
    | AddOp(dir: DirEntry, meta: EntryMetaData)
    | RemoveOp(dir: DirEntry, entry: DirEntry)
    | UpdateOp(entry: DirEntry, dm: DBMetaData)

  ghost predicate Allowed(s: State, op: Op) {
    match op
    case AddOp(d, m) => Sized(s, d, m)
    case RemoveOp(d, c) => c in s.parents && s.parents[c] == d
    case UpdateOp(c, dm) => c in s.parents && c in s.metas && s.metas[c].isDir == dm.isDir
  }

  /** `call` is `op`, with the entry that an addition has made. */
  ghost predicate Made(op: Op, call: Call) {
    match op
    case AddOp(d, m) => call.Add? && call.dir == d && call.meta == m
    case RemoveOp(d, c) => call == Remove(d, c)
    case UpdateOp(c, dm) => call == Update(c, dm)
  }

  method ApplyAdd(fs: Dbfat, d: DirEntry, m: EntryMetaData) returns (e: DirEntry?)
    requires fs.Valid() && Sized(fs.st, d, m)
    modifies fs`st, fs`heap, fs.table, fs.table.fat, fs.table.dirEntries, d
    ensures e != null ==> fs.Valid() && AddStep(old(fs.st), d, e, m, fs.st)
    ensures e != null ==> fresh(e) && fs.heap.Keys == old(fs.heap.Keys) + {e}
  {
    hide Tree, RootFirst, Mirrors, Snapshot, Dbfat.Valid, Dbfat.Free, ChildAdded, EntrySize, AddOk, AddStep;
    fs.Facts();
    ghost var s: State, free := fs.st, fs.Free();
    LiveEntry(s, fs.heap, d);
    e := fs.AddChildEntry(d, m);
    if e != null {
      fs.Facts();
      SizeGranted(|s.chains[d]|, s.metas[d].size, EntrySize(m), m.size, free);
      AddedNow(s, d, e, m, fs.st, fs.heap);
    }
  }

  method ApplyUpdate(fs: Dbfat, c: DirEntry, dm: DBMetaData) returns (ok: bool)
    requires fs.Valid() && c in fs.st.parents && c in fs.st.metas && fs.st.metas[c].isDir == dm.isDir
    modifies fs`st, fs`heap, fs.table, fs.table.fat, fs.table.dirEntries, c
    ensures ok ==> fs.Valid() && UpdateStep(old(fs.st), c, dm, fs.st) && fs.heap.Keys == old(fs.heap.Keys)
  {
    hide Tree, RootFirst, Mirrors, Snapshot, Dbfat.Valid, Dbfat.Free, FsInsert.CanUpdate, FsInsert.EntryUpdated,
         UpdateStep;
    fs.Facts();
    ghost var s: State, h: Heap, free := fs.st, fs.heap, fs.Free();
    LiveEntry(s, h, c);
    ghost var ds;
    ok, ds := PathOps.UpdateEntry(fs, c, dm);
    if ok {
      ChangedNow(s, h, free, c, dm, fs.st, fs.Free(), ds);
    }
  }

  method ApplyRemove(fs: Dbfat, d: DirEntry, c: DirEntry) returns (ok: bool)
    requires fs.Valid() && c in fs.st.parents && fs.st.parents[c] == d
    modifies fs`st, fs`heap, fs.table, fs.table.fat, fs.table.dirEntries, fs.heap.Keys
    ensures ok ==> fs.Valid() && RemoveStep(old(fs.st), d, c, fs.st) && fs.heap.Keys <= old(fs.heap.Keys)
  {
    hide Tree, RootFirst, Mirrors, Snapshot, Dbfat.Valid, Dbfat.Free, Pruned, OthersKeep, Trimmed, Smooth, RemoveStep;
    fs.Facts();
    ghost var s: State := fs.st;
    ok := fs.RemoveChildEntry(d, c);
    if ok {
      fs.Facts();
      RemovedNow(s, d, c, fs.st, fs.heap);
    }
  }

  /** Every operation that does not abort is a step of a run. */
  method Apply(fs: Dbfat, op: Op) returns (ok: bool, ghost call: Call)
    requires fs.Valid() && Allowed(fs.st, op)
    modifies fs`st, fs`heap, fs.table, fs.table.fat, fs.table.dirEntries, fs.heap.Keys
    ensures ok ==> fs.Valid() && Made(op, call) && Step(old(fs.st), call, fs.st)
    ensures ok ==> forall e :: e in fs.heap.Keys ==> e in old(fs.heap.Keys) || fresh(e)
  {
    hide Tree, RootFirst, Mirrors, Snapshot, Dbfat.Valid, Dbfat.Free, AddStep, RemoveStep, UpdateStep, Sized, Keys;
    fs.Facts();
    if op.AddOp? {
      SizedDir(fs.st, op.dir, op.meta);
      LiveEntry(fs.st, fs.heap, op.dir);
      var e := ApplyAdd(fs, op.dir, op.meta);
      ok, call := e != null, Add(op.dir, if e == null then op.dir else e, op.meta);
    } else if op.RemoveOp? {
      ok := ApplyRemove(fs, op.dir, op.entry);
      call := Remove(op.dir, op.entry);
    } else {
      LiveEntry(fs.st, fs.heap, op.entry);
      ok := ApplyUpdate(fs, op.entry, op.dm);
      call := Update(op.entry, op.dm);
    }
  }

  lemma SizedDir(s: State, d: DirEntry, m: EntryMetaData)
    requires Sized(s, d, m)
    ensures d in s.paths
  {
  }

  lemma LiveEntry(s: State, h: Heap, c: DirEntry)
    requires Tree(s) && Mirrors(s, h) && (c in s.parents || c in s.paths)
    ensures c in h && c in s.paths && c in s.metas && c in s.chains && s.chains[c] != []
  {
    EntryFacts(s, h, c);
  }

  lemma SizeGranted(had: nat, size: u32, extra: nat, childSize: u32, free: nat)
    requires AddOk(had, size, extra, childSize, free)
    ensures childSize <= MAX_SIZE
  {
  }

  lemma AddedNow(s: State, d: DirEntry, e: DirEntry, m: EntryMetaData, s': State, h': Heap)
    requires Tree(s) && Sized(s, d, m) && m.size <= MAX_SIZE && e !in s.paths && ChildAdded(s, d, e, m, s')
    requires Tree(s') && Mirrors(s', h')
    ensures AddStep(s, d, e, m, s')
  {
    hide Up, Down, Unique, GoodMeta, Mirrors, EntrySize, ClustersFor, GrownLength, CommonPrefix;
    assert d in s'.paths && e in s'.paths && e in s'.parents;
    EntryFacts(s', h', d);
    EntryFacts(s', h', e);
    NewMetaGood(s', e);
  }

  lemma NewMetaGood(s: State, e: DirEntry)
    requires Tree(s) && e in s.parents
    ensures e in s.metas && GoodMeta(s.metas[e])
  {
    hide GoodMeta;
    assert UpAt(s, e);
  }

  lemma RemovedNow(s: State, d: DirEntry, c: DirEntry, s': State, h': Heap)
    requires Tree(s) && c in s.parents && s.parents[c] == d && Pruned(s, d, c, s')
    requires OthersKeep(s.chains, d, s'.chains) && Trimmed(s, d, c, s') && Tree(s') && Mirrors(s', h')
    ensures RemoveStep(s, d, c, s')
  {
    hide Up, Down, Unique, Mirrors, Pruned, OthersKeep, Trimmed;
    PrunedPaths(s, d, c, s');
    EntryFacts(s', h', d);
  }

  lemma ChangedNow(s: State, h: Heap, free: nat, c: DirEntry, dm: DBMetaData, s': State, free': nat, ds: seq<int>)
    requires Tree(s) && Mirrors(s, h) && c in s.parents && c in s.metas && s.metas[c].isDir == dm.isDir
    requires FsInsert.EntryUpdated(s, free, c, dm, s', free', ds) && FsInsert.CanUpdate(s, c, dm, free)
    ensures UpdateStep(s, c, dm, s')
  {
    hide Tree, Mirrors, FsInsert.UpdatedLength, CommonPrefix, UpdatedMeta, ClustersFor, GrowthAsCoded;
    LiveEntry(s, h, c);
  }

  // ---- what every call keeps ----

  lemma AdditionTree(s: State, d: DirEntry, e: DirEntry, m: EntryMetaData, s': State)
    requires Tree(s) && AddStep(s, d, e, m, s')
    ensures Tree(s')
  {
    hide Up, Down, Unique, EntrySize, ClustersFor, GrownLength, GoodMeta, CommonPrefix, Added, WithChain;
    AddedFromParts(s, d, e, m, s');
    ShortNamedFields(m, s'.metas[e]);
    assert CanAdd(s, d, e, s'.metas[e], s'.chains);
    AddKeepsTree(s, d, e, s'.metas[e], (s.metas[d].size + EntrySize(m)) % TWO_32, s'.chains);
  }

  lemma AddedFromParts(s: State, d: DirEntry, e: DirEntry, m: EntryMetaData, s': State)
    requires Keys(s) && d in s.paths && ChildAdded(s, d, e, m, s') && e !in s.paths
    ensures s'.chains.Keys == s.paths.Keys + {e}
  {
    hide EntrySize, ClustersFor, GrownLength, CommonPrefix, Added;
  }

  /** Every call leaves a tree. */
  lemma StepTree(s: State, call: Call, s': State)
    requires Tree(s) && Step(s, call, s')
    ensures Tree(s')
  {
    hide Tree, AddStep, Pruned, OthersKeep, Trimmed;
    match call
    case Add(d, e, m) => AdditionTree(s, d, e, m, s');
    case Remove(d, c) => PrunedTree(s, d, c, s');
    case Update(c, dm) => UpdatedTree(s, c, dm, s'.chains[c], s');
  }

  /** The root directory stays where the boot sector says. */
  lemma StepRoot(s: State, call: Call, s': State)
    requires Tree(s) && RootFirst(s) && Step(s, call, s')
    ensures RootFirst(s')
  {
    hide EntrySize, ClustersFor, GrownLength, ShrunkLength, FsInsert.UpdatedLength, CommonPrefix, Up, Down, Unique,
         GoodMeta, Pruned;
    match call
    case Add(d, e, m) => RootKept(s, d, s'.chains[d], s');
    case Remove(d, c) =>
      PrunedPaths(s, d, c, s');
      RootKept(s, d, s'.chains[d], s');
    case Update(c, dm) => RootKept(s, c, s'.chains[c], s');
  }

  // ---- exact runs ----

  /** No directory at a nonzero multiple of the cluster size gets an entry, no file grows by more than one cluster,
      nothing is removed. */
  ghost predicate Plain(s: State, call: Call) {
    match call
    case Add(d, e, m) => d in s.metas && !(s.metas[d].size > 0 && s.metas[d].size % BYTES_PER_CLUSTER == 0)
    case Remove(_, _) => false
    case Update(c, dm) =>
      c in s.metas && (dm.isDir || ClustersFor(dm.size) <= ClustersFor(s.metas[c].size) + 1)
  }

  lemma PlainKeepsExact(s: State, call: Call, s': State)
    requires Tree(s) && Exact(s) && Plain(s, call) && Step(s, call, s')
    ensures Exact(s')
  {
    hide Exact, Tree, EntrySize, GoodMeta, ChildAdded, Refreshed, ClustersFor;
    match call
    case Add(d, e, m) => AddKeepsExact(s, d, e, m, s');
    case Update(c, dm) =>
      RefreshedIs(s, c, dm, s');
      FsInsert.UpdateKeepsExact(s, c, dm, s'.chains[c], s');
    case _ =>
  }

  lemma RefreshedIs(s: State, c: DirEntry, dm: DBMetaData, s': State)
    requires Refreshed(s, c, dm, s')
    ensures c in s.metas && c in s.chains && c in s'.chains
    ensures s' == Updated(s, c, UpdatedMeta(s.metas[c], dm), s'.chains[c])
    ensures |s'.chains[c]| == FsInsert.UpdatedLength(s.metas[c], |s.chains[c]|, dm)
  {
  }

  /** In every state of every run of such calls every directory records exactly its contents, and every entry has
      exactly the clusters its size needs. */
  lemma {:induction false} RunExact(states: seq<State>, calls: seq<Call>, n: nat)
    requires Run(states, calls) && n < |states| && forall i :: 0 <= i < n ==> Plain(states[i], calls[i])
    ensures Tree(states[n]) && Exact(states[n]) && RootFirst(states[n])
  {
    hide Tree, Exact, RootFirst, Plain, Step, StartState;
    if n == 0 {
      StartFacts(states[0]);
    } else {
      RunExact(states, calls, n - 1);
      assert states[n - 1 + 1] == states[n];
      StepTree(states[n - 1], calls[n - 1], states[n]);
      StepRoot(states[n - 1], calls[n - 1], states[n]);
      PlainKeepsExact(states[n - 1], calls[n - 1], states[n]);
    }
  }

  /** The mount round trip over such runs: what is left to ask is that no name overruns the scratch buffer. */
  lemma RunMounts(states: seq<State>, calls: seq<Call>, n: nat, fat: seq<int>, owners: seq<DirEntry?>, src: Source)
    requires Run(states, calls) && n < |states| && Sound(states[n], fat, owners)
    requires forall i :: 0 <= i < n ==> Plain(states[i], calls[i])
    ensures states[n].root in states[n].paths
    ensures MountImage(ImageOf(states[n], fat, owners, src)) == NodeOf(states[n], states[n].root, src) <==>
            AllFit(states[n])
  {
    hide Run, Exact, RootFirst, ImageOf, Sound, Plain, Covered, AllFit;
    RunExact(states, calls, n);
    ExactIsCovered(states[n]);
    MountRead(states[n], fat, owners, src);
  }

  // ---- names ----

  ghost predicate ShortCall(call: Call) {
    call.Add? ==> |call.meta.name| <= MAX_WINDOW_NAME
  }

  lemma StepShort(s: State, call: Call, s': State)
    requires Tree(s) && ShortTree(s) && Step(s, call, s') && ShortCall(call)
    ensures ShortTree(s')
  {
    hide Up, Down, Unique, EntrySize, ClustersFor, GrownLength, ShrunkLength, FsInsert.UpdatedLength, CommonPrefix,
         GoodMeta, Pruned;
    if call.Remove? {
      PrunedPaths(s, call.dir, call.entry, s');
    }
  }

  /** When no call names an entry with more than 208 characters, no sector ever overruns. */
  lemma {:induction false} RunFits(states: seq<State>, calls: seq<Call>, n: nat)
    requires Run(states, calls) && n < |states| && forall i :: 0 <= i < n ==> ShortCall(calls[i])
    ensures Tree(states[n]) && ShortTree(states[n]) && AllFit(states[n])
  {
    hide Tree, ShortTree, Step, StartState, AllFit, ShortCall;
    if n == 0 {
      StartFacts(states[0]);
      StartShort(states[0]);
    } else {
      RunFits(states, calls, n - 1);
      assert states[n - 1 + 1] == states[n];
      StepTree(states[n - 1], calls[n - 1], states[n]);
      StepShort(states[n - 1], calls[n - 1], states[n]);
    }
    ShortTreeFits(states[n]);
  }

  lemma StartShort(s: State)
    requires StartState(s)
    ensures ShortTree(s)
  {
  }

  // ---- runs of any calls ----

  /** What a call has to meet to keep every chain long enough: the directory that gets an entry has the clusters for
      it afterwards, and a file grows by at most one cluster. */
  ghost predicate Holds(s: State, call: Call) {
    match call
    case Add(d, e, m) =>
      && DirKnown(s, d)
      && Base(s, d) + Room(s.metas, s.kids[d]) + EntrySize(m) <=
         GrownLength(|s.chains[d]|, s.metas[d].size, EntrySize(m)) * BYTES_PER_CLUSTER
    case Remove(_, _) => true
    case Update(c, dm) => dm.isDir || (c in s.chains && ClustersFor(dm.size) <= |s.chains[c]| + 1)
  }

  /** The recorded size of a directory is not topped up to a multiple of the cluster size without a cluster to
      spare. */
  ghost predicate Spares(s: State, call: Call) {
    call.Add? ==>
      && DirKnown(s, call.dir)
      && (s.metas[call.dir].size % BYTES_PER_CLUSTER + EntrySize(call.meta) != BYTES_PER_CLUSTER ||
          |s.chains[call.dir]| > s.metas[call.dir].size / BYTES_PER_CLUSTER)
  }

  /** From a steady and covered state a call leaves a covered one exactly when it holds, and a steady one exactly when
      it spares. */
  lemma StepKeeps(s: State, call: Call, s': State)
    requires Tree(s) && Steady(s) && Covered(s) && Step(s, call, s')
    ensures Covered(s') <==> Holds(s, call)
    ensures Steady(s') <==> Spares(s, call)
  {
    hide Steady, Covered, Tree, EntrySize, GoodMeta, ChildAdded, Pruned, OthersKeep, Trimmed, DirKnown, GrownLength,
         Room, Base, Refreshed, ClustersFor;
    match call
    case Add(d, e, m) =>
      AddKeepsCovered(s, d, e, m, s');
      AddKeepsSteady(s, d, e, m, s');
    case Remove(d, c) =>
      PrunedTree(s, d, c, s');
      RemovalKeepsCovered(s, d, c, s');
    case Update(c, dm) =>
      RefreshedIs(s, c, dm, s');
      UpdateKeepsCovered(s, c, dm, s');
  }

  /** So it is over whole runs of additions, removals and updates in any order. */
  lemma {:induction false} RunCovered(states: seq<State>, calls: seq<Call>, n: nat)
    requires Run(states, calls) && n < |states|
    requires forall i :: 0 <= i < n ==> Holds(states[i], calls[i]) && Spares(states[i], calls[i])
    ensures Tree(states[n]) && Steady(states[n]) && Covered(states[n]) && RootFirst(states[n])
  {
    hide Tree, Steady, Covered, Exact, RootFirst, Holds, Spares, Step, StartState;
    if n == 0 {
      StartFacts(states[0]);
      ExactIsSteady(states[0]);
      ExactIsCovered(states[0]);
    } else {
      RunCovered(states, calls, n - 1);
      assert states[n - 1 + 1] == states[n];
      StepTree(states[n - 1], calls[n - 1], states[n]);
      StepRoot(states[n - 1], calls[n - 1], states[n]);
      StepKeeps(states[n - 1], calls[n - 1], states[n]);
    }
  }

  /** After a run in which every call held and spared, the next call leaves a disk from which the whole tree is read
      back if and only if it holds and no child of a directory overruns. */
  lemma NextMounts(states: seq<State>, calls: seq<Call>, n: nat, fat: seq<int>, owners: seq<DirEntry?>, src: Source)
    requires Run(states, calls) && n < |calls| && Sound(states[n + 1], fat, owners)
    requires forall i :: 0 <= i < n ==> Holds(states[i], calls[i]) && Spares(states[i], calls[i])
    ensures var s := states[n + 1];
            && s.root in s.paths
            && (MountImage(ImageOf(s, fat, owners, src)) == NodeOf(s, s.root, src) <==>
                Holds(states[n], calls[n]) && AllFit(s))
  {
    hide Steady, Covered, AllFit, RootFirst, Holds, Spares, Step, StartState, ImageOf, Sound, NodeOf, Tree;
    RunCovered(states, calls, n);
    StepRoot(states[n], calls[n], states[n + 1]);
    StepKeeps(states[n], calls[n], states[n + 1]);
    MountRead(states[n + 1], fat, owners, src);
  }

  /** The run that loses an entry: from a root of 32832 bytes in two clusters 96 bytes are removed, and 96 added. */
  lemma EntryLost(s: State, c: DirEntry, s1: State, e: DirEntry, m: EntryMetaData, s2: State, fat: seq<int>,
                  owners: seq<DirEntry?>, src: Source)
    requires Tree(s) && RootFirst(s) && Exact(s) && s.root in s.metas && s.metas[s.root].size == 32832
    requires Step(s, Remove(s.root, c), s1) && Step(s1, Add(s.root, e, m), s2) && Sound(s2, fat, owners)
    requires c in s.metas && EntrySize(s.metas[c]) == EntrySize(m) == 96
    ensures s2.root in s2.paths && s.root in s2.chains
    ensures |s.chains[s.root]| == 2 && |s2.chains[s.root]| == 1
    ensures MountImage(ImageOf(s2, fat, owners, src)) != NodeOf(s2, s2.root, src)
  {
    hide Exact, Covered, AllFit, RootFirst, ImageOf, Sound, NodeOf, Tree, EntrySize, ChildAdded, Pruned, OthersKeep,
         Trimmed, GoodMeta;
    StepTree(s, Remove(s.root, c), s1);
    StepRoot(s, Remove(s.root, c), s1);
    StepRoot(s1, Add(s.root, e, m), s2);
    LostCluster(s, c, s1, e, m, s2);
    MountRead(s2, fat, owners, src);
  }

  /** For the linked tree as it stands. */
  lemma MountNow(fs: Dbfat, src: Source)
    requires fs.Valid() && Sound(fs.st, fs.table.fat[..], fs.table.dirEntries[..])
    ensures fs.root in fs.st.paths
    ensures var image := ImageOf(fs.st, fs.table.fat[..], fs.table.dirEntries[..], src);
            MountImage(image) == NodeOf(fs.st, fs.root, src) <==> Covered(fs.st) && AllFit(fs.st)
  {
    hide Dbfat.Valid, RootFirst, ImageOf, Sound, Tree, Covered, AllFit;
    fs.Facts();
    MountRead(fs.st, fs.table.fat[..], fs.table.dirEntries[..], src);
  }

  // ---- what a removal frees ----

  /** The clusters of the entries in `es`. */
  ghost function ClustersIn(chains: Chains, es: set<DirEntry>): set<int> {
    set x, k | x in es && x in chains && k in chains[x] :: k
  }

  /** The clusters a shortened chain has given up. */
  ghost function CutTail(cs: seq<int>, ds: seq<int>): set<int>
    requires |ds| <= |cs|
  {
    Cells(cs[|ds|..])
  }

  /** Every cell of every chain stands in one place only. */
  ghost predicate Apart(chains: Chains) {
    forall e, x, i, j | e in chains && x in chains && 0 <= i < |chains[e]| && 0 <= j < |chains[x]| ::
      chains[e][i] == chains[x][j] ==> e == x && i == j
  }

  /** A removal frees exactly the chains of the entries that go and what the chain of its directory gives up for its
      new one; from a steady state that is the end it loses. */
  lemma RemovalFrees(s: State, d: DirEntry, c: DirEntry, s': State, fat: seq<int>, owners: seq<DirEntry?>,
                     fat': seq<int>, owners': seq<DirEntry?>)
    requires |fat| == |fat'| == FAT_LENGTH && |owners| == |owners'| == N_CLUSTERS
    requires Tree(s) && c in s.parents && s.parents[c] == d && Keys(s')
    requires Pruned(s, d, c, s') && OthersKeep(s.chains, d, s'.chains) && Trimmed(s, d, c, s')
    requires Ownership(fat, owners, s.chains) && Ownership(fat', owners', s'.chains)
    ensures FreeSet(fat') ==
            FreeSet(fat) + ClustersIn(s.chains, UnderSet(s, c)) + Cells(s.chains[d]) - Cells(s'.chains[d])
    ensures Steady(s) ==>
              && |s'.chains[d]| <= |s.chains[d]|
              && FreeSet(fat') ==
                 FreeSet(fat) + ClustersIn(s.chains, UnderSet(s, c)) + CutTail(s.chains[d], s'.chains[d])
  {
    hide Steady, Tree, Ownership, FreeSet, ShrunkLength, EntrySize, ClustersIn, CutTail, UnderSet, Cells, Pruned,
         CommonPrefix;
    UnderLive(s, c);
    PrunedPaths(s, d, c, s');
    SameKeys(s, s');
    FreedBy(s.chains, s'.chains, d, UnderSet(s, c), fat, owners, fat', owners');
    if Steady(s) {
      SteadyShrinks(s, d, c, 0);
      TailFreed(s.chains, d, s'.chains[d], UnderSet(s, c), fat, owners);
    }
  }

  lemma UnderLive(s: State, c: DirEntry)
    requires Tree(s) && c in s.parents
    ensures c in s.paths && UnderSet(s, c) <= s.chains.Keys
  {
  }

  lemma SameKeys(s: State, s': State)
    requires Tree(s) && Keys(s')
    ensures s.chains.Keys == Live(s) && s'.chains.Keys == Live(s')
  {
  }

  lemma FreedBy(chains: Chains, chains': Chains, d: DirEntry, gone: set<DirEntry>, fat: seq<int>,
                owners: seq<DirEntry?>, fat': seq<int>, owners': seq<DirEntry?>)
    requires |fat| == |fat'| == FAT_LENGTH && |owners| == |owners'| == N_CLUSTERS
    requires Ownership(fat, owners, chains) && Ownership(fat', owners', chains')
    requires d in chains && d in chains' && d !in gone && gone <= chains.Keys
    requires chains'.Keys == chains.Keys - gone && OthersKeep(chains, d, chains')
    ensures FreeSet(fat') == FreeSet(fat) + ClustersIn(chains, gone) + Cells(chains[d]) - Cells(chains'[d])
  {
    hide Ownership, FreeSet, ClustersOf, ClustersIn, Range, Cells, Apart, OthersKeep;
    Conservation(fat, owners, chains);
    Conservation(fat', owners', chains');
    ChainsApart(chains);
    OwnedSplit(chains, d, gone);
    OwnedLeft(chains, chains', d, gone);
    SetsGiveBack(FreeSet(fat), FreeSet(fat'), Range(2, N_CLUSTERS), ClustersIn(chains, chains.Keys - gone - {d}),
                 ClustersIn(chains, gone), Cells(chains[d]), Cells(chains'[d]));
  }

  lemma TailFreed(chains: Chains, d: DirEntry, ds: seq<int>, gone: set<DirEntry>, fat: seq<int>,
                  owners: seq<DirEntry?>)
    requires |fat| == FAT_LENGTH && |owners| == N_CLUSTERS && Ownership(fat, owners, chains)
    requires d in chains && d !in gone && gone <= chains.Keys
    requires |ds| <= |chains[d]| && CommonPrefix(chains[d], ds)
    ensures FreeSet(fat) + ClustersIn(chains, gone) + Cells(chains[d]) - Cells(ds) ==
            FreeSet(fat) + ClustersIn(chains, gone) + CutTail(chains[d], ds)
  {
    hide Ownership, FreeSet, ClustersOf, ClustersIn, Range, Cells, Apart, CutTail, CommonPrefix;
    Conservation(fat, owners, chains);
    ChainsApart(chains);
    OwnedSplit(chains, d, gone);
    TailGivenUp(chains, d, ds);
    TailApart(FreeSet(fat), ClustersIn(chains, gone), Cells(chains[d]), Cells(ds), CutTail(chains[d], ds));
  }

  lemma ChainsApart(chains: Chains)
    requires forall e, x, i, j | e in chains && x in chains && 0 <= i < |chains[e]| && 0 <= j < |chains[x]| ::
               chains[e][i] == chains[x][j] ==> e == x && i == j
    ensures Apart(chains)
  {
  }

  /** The taken clusters: those of other entries, those of the entries that go, those of the directory. */
  lemma OwnedSplit(chains: Chains, d: DirEntry, gone: set<DirEntry>)
    requires Apart(chains) && d in chains && d !in gone && gone <= chains.Keys
    ensures var rest := ClustersIn(chains, chains.Keys - gone - {d});
            && ClustersOf(chains) == rest + ClustersIn(chains, gone) + Cells(chains[d])
            && rest !! ClustersIn(chains, gone) && rest !! Cells(chains[d])
            && ClustersIn(chains, gone) !! Cells(chains[d])
  {
    var rest := ClustersIn(chains, chains.Keys - gone - {d});
    forall k | k in ClustersOf(chains) ensures k in rest + ClustersIn(chains, gone) + Cells(chains[d]) {
      var e :| e in chains && k in chains[e];
      assert e in gone || e == d || e in chains.Keys - gone - {d};
    }
    assert forall k :: k in chains[d] ==> k in ClustersOf(chains);
  }

  lemma OwnedLeft(chains: Chains, chains': Chains, d: DirEntry, gone: set<DirEntry>)
    requires d in chains && d in chains' && d !in gone && gone <= chains.Keys
    requires chains'.Keys == chains.Keys - gone && OthersKeep(chains, d, chains')
    ensures ClustersOf(chains') == ClustersIn(chains, chains.Keys - gone - {d}) + Cells(chains'[d])
  {
    var rest := ClustersIn(chains, chains.Keys - gone - {d});
    forall k | k in ClustersOf(chains') ensures k in rest + Cells(chains'[d]) {
      var e :| e in chains' && k in chains'[e];
      assert e == d || e in chains.Keys - gone - {d};
    }
    forall k | k in rest ensures k in ClustersOf(chains') {
      var e :| e in chains.Keys - gone - {d} && k in chains[e];
      assert k in chains'[e];
    }
    assert forall k :: k in chains'[d] ==> k in ClustersOf(chains');
  }

  lemma TailGivenUp(chains: Chains, d: DirEntry, ds: seq<int>)
    requires Apart(chains) && d in chains && |ds| <= |chains[d]| && CommonPrefix(chains[d], ds)
    ensures Cells(chains[d]) == Cells(ds) + CutTail(chains[d], ds) && Cells(ds) !! CutTail(chains[d], ds)
  {
    var cs := chains[d];
    assert ds == cs[..|ds|];
    assert cs == ds + cs[|ds|..];
  }

  lemma TailApart(free: set<int>, gone: set<int>, had: set<int>, has: set<int>, tail: set<int>)
    requires had == has + tail && has !! tail && free !! had && gone !! had
    ensures free + gone + had - has == free + gone + tail
  {
  }

  lemma SetsGiveBack(free: set<int>, free': set<int>, all: set<int>, rest: set<int>, gone: set<int>, had: set<int>,
                     has: set<int>)
    requires rest !! gone && rest !! had && gone !! had
    requires free + (rest + gone + had) == all && free' + (rest + has) == all
    requires free !! rest + gone + had && free' !! rest + has
    ensures free' == free + gone + had - has && free !! had
  {
    assert forall k :: k in free' ==> k in all;
    assert forall k :: k in free + gone + had ==> k in all;
  }
}
