/** The FAT cluster allocator (cluster.c). */
module Cluster {
  import opened Words
  import opened Layout
  import opened Entries

  /** Cluster chains by the entry that owns them. */
  type Chains = map<DirEntry, seq<int>>

  ghost function WithChain(chains: Chains, e: DirEntry, cs: seq<int>): Chains { chains[e := cs] }

  const MAX_CHAIN := 131072
  /** Sizes above this one make the uint32_t running size of the allocator wrap to zero. */
  const MAX_SIZE := 0xFFFF_8000

  predicate InHeap(c: int) { 2 <= c < N_CLUSTERS }

  ghost predicate Distinct(cs: seq<int>) {
    forall i, j :: 0 <= i < j < |cs| ==> cs[i] != cs[j]
  }

  /** `cs` is an acyclic run of linked data clusters; nothing is said of its last cell. */
  ghost predicate Linked(fat: seq<int>, cs: seq<int>)
    requires |fat| == FAT_LENGTH
  {
    && Distinct(cs)
    && (forall i :: 0 <= i < |cs| ==> InHeap(cs[i]))
    && (forall i :: 0 <= i < |cs| - 1 ==> fat[cs[i]] == cs[i + 1])
  }

  /** A whole chain: linked, nonempty, ended by EOFC. */
  ghost predicate IsChain(fat: seq<int>, cs: seq<int>)
    requires |fat| == FAT_LENGTH
  {
    cs != [] && Linked(fat, cs) && fat[cs[|cs| - 1]] == FAT_EOFC
  }

  ghost predicate Owns(owners: seq<DirEntry?>, e: DirEntry, cs: seq<int>)
    requires |owners| == N_CLUSTERS
  {
    forall i :: 0 <= i < |cs| && InHeap(cs[i]) ==> owners[cs[i]] == e
  }

  /** The ownership invariant: the allocated data clusters are exactly the clusters of the chains,
      each chain is acyclic and ended, and the owner array names the chain of every cluster. */
  ghost predicate Ownership(fat: seq<int>, owners: seq<DirEntry?>, chains: Chains)
    requires |fat| == FAT_LENGTH && |owners| == N_CLUSTERS
  {
    && (forall e :: e in chains ==> IsChain(fat, chains[e]) && Owns(owners, e, chains[e]) && |chains[e]| <= MAX_CHAIN)
    && (forall c :: InHeap(c) && fat[c] != FAT_FREE ==>
          owners[c] != null && owners[c] in chains && c in chains[owners[c]])
    && (forall c :: N_CLUSTERS <= c < FAT_LENGTH ==> fat[c] == FAT_FREE)
  }

  ghost function FreeSet(fat: seq<int>): (s: set<int>)
    requires |fat| == FAT_LENGTH
  {
    set c | 2 <= c < N_CLUSTERS && fat[c] == FAT_FREE
  }

  ghost function FreeCount(fat: seq<int>): nat
    requires |fat| == FAT_LENGTH
  {
    |FreeSet(fat)|
  }

  /** Clusters that `size` bytes need; an empty file still takes one. */
  function ClustersFor(size: u32): (n: nat)
    ensures n >= 1
    ensures size <= MAX_SIZE ==> n <= MAX_CHAIN - 1
  {
    if size == 0 then 1 else CeilDiv(size, BYTES_PER_CLUSTER)
  }

  // ---- lemmas on values ----

  lemma TakeOneFree(fat: seq<int>, c: int, v: u32)
    requires |fat| == FAT_LENGTH && InHeap(c) && fat[c] == FAT_FREE && v != FAT_FREE
    ensures FreeSet(fat[c := v]) == FreeSet(fat) - {c}
    ensures FreeCount(fat[c := v]) == FreeCount(fat) - 1
  {
    assert FreeSet(fat[c := v]) == FreeSet(fat) - {c};
  }

  lemma SameFree(fat: seq<int>, c: int, v: u32)
    requires |fat| == FAT_LENGTH && 0 <= c < FAT_LENGTH && fat[c] != FAT_FREE && v != FAT_FREE
    ensures FreeSet(fat[c := v]) == FreeSet(fat)
  {
  }

  /** Running size of the allocator after `t` more clusters: a uint32_t. */
  function RunningSize(t: nat): u32 {
    if t == 0 then BYTES_PER_CLUSTER else Add32(RunningSize(t - 1), BYTES_PER_CLUSTER)
  }

  lemma {:induction false} RunningSizeClosed(t: nat)
    ensures RunningSize(t) == BYTES_PER_CLUSTER * ((t + 1) % MAX_CHAIN)
  {
    if t > 0 {
      RunningSizeClosed(t - 1);
      NextInRound(t);
    }
  }

  lemma NextInRound(t: nat)
    ensures (t + 1) % MAX_CHAIN == if t % MAX_CHAIN == MAX_CHAIN - 1 then 0 else t % MAX_CHAIN + 1
  {
  }

  /** The guard `current_size < size`: exact while the size fits, always true once it does not. */
  lemma RunningSizeGuard(t: nat, size: u32)
    ensures size > MAX_SIZE ==> RunningSize(t) < size
    ensures size <= MAX_SIZE && t < ClustersFor(size) ==> (RunningSize(t) < size <==> t + 1 < ClustersFor(size))
  {
    RunningSizeClosed(t);
  }

  /** Freed cells: what free_cluster_chain leaves of `fat`. */
  ghost predicate Freed(before: seq<int>, after: seq<int>, cs: seq<int>)
    requires |before| == |after| == FAT_LENGTH
  {
    forall c :: 0 <= c < FAT_LENGTH ==> after[c] == if c in cs then FAT_FREE else before[c]
  }

  /** Where the search stops: the first free cluster at or after the cursor, wrapping once. */
  ghost predicate FirstFree(fat: seq<int>, cursor: int, c: int)
    requires |fat| == FAT_LENGTH && InHeap(cursor)
  {
    && InHeap(c) && fat[c] == FAT_FREE
    && (c >= cursor ==> forall i :: cursor <= i < c ==> fat[i] != FAT_FREE)
    && (c < cursor ==> (forall i :: cursor <= i < N_CLUSTERS ==> fat[i] != FAT_FREE) &&
                       (forall i :: 2 <= i < c ==> fat[i] != FAT_FREE))
  }

  /** `fat` and `owners` differ from the start only in that `cs` has been taken for `e`. */
  ghost predicate Laid(fat0: seq<int>, owners0: seq<DirEntry?>, fat: seq<int>, owners: seq<DirEntry?>,
                       e: DirEntry, cs: seq<int>)
    requires |fat0| == |fat| == FAT_LENGTH && |owners0| == |owners| == N_CLUSTERS
  {
    && Linked(fat, cs) && Owns(owners, e, cs)
    && (forall c :: c in cs ==> fat0[c] == FAT_FREE && fat[c] != FAT_FREE)
    && (forall c :: 0 <= c < FAT_LENGTH && c !in cs ==> fat[c] == fat0[c])
    && (forall c :: InHeap(c) && c !in cs ==> owners[c] == owners0[c])
    && FreeCount(fat) == FreeCount(fat0) - |cs|
  }

  /** The last cell of `cs` points at `next`, which is still free. */
  ghost predicate Pending(fat: seq<int>, cs: seq<int>, next: int)
    requires |fat| == FAT_LENGTH
  {
    && InHeap(next) && fat[next] == FAT_FREE && next !in cs
    && (cs != [] ==> 0 <= cs[|cs| - 1] < FAT_LENGTH && fat[cs[|cs| - 1]] == next)
  }

  lemma LayOne(fat0: seq<int>, owners0: seq<DirEntry?>, fat: seq<int>, owners: seq<DirEntry?>,
               e: DirEntry, cs: seq<int>, next: int)
    requires |fat0| == |fat| == FAT_LENGTH && |owners0| == |owners| == N_CLUSTERS
    requires Laid(fat0, owners0, fat, owners, e, cs)
    requires Pending(fat, cs, next)
    ensures Laid(fat0, owners0, fat[next := FAT_EOFC], owners[next := e], e, cs + [next])
    ensures IsChain(fat[next := FAT_EOFC], cs + [next])
    ensures FreeCount(fat[next := FAT_EOFC]) == FreeCount(fat) - 1
  {
    TakeOneFree(fat, next, FAT_EOFC);
  }

  lemma LaidCount(fat0: seq<int>, owners0: seq<DirEntry?>, fat: seq<int>, owners: seq<DirEntry?>, e: DirEntry,
                  cs: seq<int>)
    requires |fat0| == |fat| == FAT_LENGTH && |owners0| == |owners| == N_CLUSTERS
    requires Laid(fat0, owners0, fat, owners, e, cs)
    ensures FreeCount(fat) == FreeCount(fat0) - |cs| && Linked(fat, cs) && Owns(owners, e, cs)
    ensures Rechained(fat0, owners0, fat, owners, [], cs)
  {
  }

  lemma NothingLaid(fat: seq<int>, owners: seq<DirEntry?>, e: DirEntry)
    requires |fat| == FAT_LENGTH && |owners| == N_CLUSTERS
    ensures Laid(fat, owners, fat, owners, e, []) && RunningSize(0) == BYTES_PER_CLUSTER
    ensures forall size: u32 :: ClustersFor(size) >= 1
  {
  }

  lemma LinkLast(fat0: seq<int>, owners0: seq<DirEntry?>, fat: seq<int>, owners: seq<DirEntry?>,
                 e: DirEntry, cs: seq<int>, c: int)
    requires |fat0| == |fat| == FAT_LENGTH && |owners0| == |owners| == N_CLUSTERS
    requires Laid(fat0, owners0, fat, owners, e, cs) && cs != []
    requires InHeap(c) && fat[c] == FAT_FREE
    ensures Pending(fat[cs[|cs| - 1] := c], cs, c)
    ensures Laid(fat0, owners0, fat[cs[|cs| - 1] := c], owners, e, cs)
    ensures FreeCount(fat[cs[|cs| - 1] := c]) == FreeCount(fat)
  {
    SameFree(fat, cs[|cs| - 1], c);
  }

  /** Clusters added, and length reached, when a chain of `had` clusters is asked to hold `need`:
      the search hands the same free cluster out twice, so growth by k adds (k + 1) / 2. */
  function GrowthAsCoded(had: nat, need: nat): nat {
    if need <= had then 0 else (need - had + 1) / 2
  }

  function LengthAsCoded(had: nat, need: nat): nat {
    if need <= had then need else had + GrowthAsCoded(had, need)
  }

  /** Growth is exact precisely when at most one cluster is added. */
  lemma GrowthExact(had: nat, need: nat)
    requires had >= 1 && need >= 1
    ensures LengthAsCoded(had, need) == need <==> need <= had + 1
  {
  }

  ghost predicate CommonPrefix(cs: seq<int>, ds: seq<int>) {
    forall i :: 0 <= i < |cs| && i < |ds| ==> cs[i] == ds[i]
  }

  /** Extension in progress: `ds` extends `cs`. The last cluster is either still free (`pending`),
      or it points at itself until the next link or the final EOFC overwrites it. */
  ghost predicate Growing(fat0: seq<int>, owners0: seq<DirEntry?>, fat: seq<int>, owners: seq<DirEntry?>,
                          e: DirEntry, cs: seq<int>, ds: seq<int>, pending: bool)
    requires |fat0| == |fat| == FAT_LENGTH && |owners0| == |owners| == N_CLUSTERS
  {
    && cs != [] && cs <= ds && Linked(fat, ds)
    && (forall i :: |cs| <= i < |ds| ==> fat0[ds[i]] == FAT_FREE)
    && (forall c :: 0 <= c < FAT_LENGTH && c !in ds ==> fat[c] == fat0[c])
    && (forall c :: InHeap(c) && c !in ds ==> owners[c] == owners0[c])
    && (pending ==> |cs| < |ds| && fat[ds[|ds| - 1]] == FAT_FREE && Owns(owners, e, ds[..|ds| - 1]))
    && (!pending ==> fat[ds[|ds| - 1]] != FAT_FREE && Owns(owners, e, ds))
    && FreeCount(fat) == FreeCount(fat0) - (|ds| - |cs|) + (if pending then 1 else 0)
  }

  /** Loop state of the reallocation after `t` steps, standing on `next`. */
  ghost predicate Walking(fat0: seq<int>, owners0: seq<DirEntry?>, fat: seq<int>, owners: seq<DirEntry?>, e: DirEntry,
                          cs: seq<int>, ds: seq<int>, pending: bool, extending: bool, t: int, next: int)
    requires |fat0| == |fat| == FAT_LENGTH && |owners0| == |owners| == N_CLUSTERS
  {
    && InHeap(next) && t >= 0 && cs != [] && InHeap(cs[0]) && owners[cs[0]] == e
    && (!extending ==> t < |cs| && next == cs[t] && fat == fat0 && owners == owners0 && ds == cs && !pending)
    && (extending ==>
          && Growing(fat0, owners0, fat, owners, e, cs, ds, pending)
          && t == 2 * |ds| - |cs| - 1 - (if pending then 1 else 0)
          && next == ds[|ds| - 1])
  }

  lemma WalkStart(fat: seq<int>, owners: seq<DirEntry?>, e: DirEntry, cs: seq<int>)
    requires |fat| == FAT_LENGTH && |owners| == N_CLUSTERS && IsChain(fat, cs) && Owns(owners, e, cs)
    ensures cs != [] && InHeap(cs[0]) && Walking(fat, owners, fat, owners, e, cs, cs, false, false, 0, cs[0])
    ensures RunningSize(0) == BYTES_PER_CLUSTER
  {
  }

  lemma StartGrowing(fat: seq<int>, owners: seq<DirEntry?>, e: DirEntry, cs: seq<int>, t: int, next: int)
    requires |fat| == FAT_LENGTH && |owners| == N_CLUSTERS && IsChain(fat, cs) && Owns(owners, e, cs)
    requires Walking(fat, owners, fat, owners, e, cs, cs, false, false, t, next)
    ensures fat[next] == FAT_EOFC ==> Walking(fat, owners, fat, owners, e, cs, cs, false, true, t, next)
    ensures fat[next] != FAT_EOFC ==> Walking(fat, owners, fat, owners, e, cs, cs, false, false, t + 1, fat[next])
  {
    assert t < |cs| - 1 ==> InHeap(cs[t + 1]);
  }

  lemma LinkedCellsTaken(fat: seq<int>, cs: seq<int>)
    requires |fat| == FAT_LENGTH && Linked(fat, cs) && cs != [] && fat[cs[|cs| - 1]] != FAT_FREE
    ensures forall c :: c in cs ==> fat[c] != FAT_FREE
  {
    forall i | 0 <= i < |cs| ensures fat[cs[i]] != FAT_FREE {
      assert i < |cs| - 1 ==> InHeap(cs[i + 1]);
    }
  }

  lemma LinkExtend(fat: seq<int>, cs: seq<int>, c: int)
    requires |fat| == FAT_LENGTH && Linked(fat, cs) && cs != []
    requires InHeap(c) && c !in cs
    ensures Linked(fat[cs[|cs| - 1] := c], cs + [c])
  {
  }

  /** From a marked last cluster, a free one is linked, and stays free for now. */
  lemma GrowOne(fat0: seq<int>, owners0: seq<DirEntry?>, fat: seq<int>, owners: seq<DirEntry?>, e: DirEntry,
                cs: seq<int>, ds: seq<int>, t: int, next: int, c: int)
    requires |fat0| == |fat| == FAT_LENGTH && |owners0| == |owners| == N_CLUSTERS
    requires Walking(fat0, owners0, fat, owners, e, cs, ds, false, true, t, next)
    requires InHeap(c) && fat[c] == FAT_FREE
    ensures Walking(fat0, owners0, fat[next := c], owners[next := e], e, cs, ds + [c], true, true, t + 1, c)
    ensures FreeCount(fat[next := c]) == FreeCount(fat)
  {
    SameFree(fat, next, c);
    LinkedCellsTaken(fat, ds);
    LinkExtend(fat, ds, c);
    assert (ds + [c])[..|ds|] == ds;
  }

  /** From a free last cluster, the search hands it out again: it is linked to itself. */
  lemma GrowSelf(fat0: seq<int>, owners0: seq<DirEntry?>, fat: seq<int>, owners: seq<DirEntry?>, e: DirEntry,
                 cs: seq<int>, ds: seq<int>, t: int, next: int)
    requires |fat0| == |fat| == FAT_LENGTH && |owners0| == |owners| == N_CLUSTERS
    requires Walking(fat0, owners0, fat, owners, e, cs, ds, true, true, t, next)
    ensures Walking(fat0, owners0, fat[next := next], owners[next := e], e, cs, ds, false, true, t + 1, next)
    ensures FreeCount(fat[next := next]) == FreeCount(fat) - 1
  {
    TakeOneFree(fat, next, next);
  }

  /** What the step count says of the clusters found so far. */
  lemma GrowthCount(fat0: seq<int>, owners0: seq<DirEntry?>, fat: seq<int>, owners: seq<DirEntry?>, e: DirEntry,
                    cs: seq<int>, ds: seq<int>, pending: bool, extending: bool, t: int, next: int, need: int)
    requires |fat0| == |fat| == FAT_LENGTH && |owners0| == |owners| == N_CLUSTERS
    requires Walking(fat0, owners0, fat, owners, e, cs, ds, pending, extending, t, next)
    ensures t + 1 == need ==> GrowthAsCoded(|cs|, need) == |ds| - |cs| <= FreeCount(fat0)
    ensures t + 1 == need ==> LengthAsCoded(|cs|, need) == if extending then |ds| else t + 1
    ensures extending && FreeCount(fat) == 0 && t + 1 < need ==> GrowthAsCoded(|cs|, need) > FreeCount(fat0)
    ensures extending && FreeCount(fat) == 0 ==> !pending
  {
    if pending {
      assert next in FreeSet(fat);
    }
  }

  /** The extended chain, once EOFC overwrites whatever its last cluster holds. */
  lemma EndGrowth(fat0: seq<int>, owners0: seq<DirEntry?>, fat: seq<int>, owners: seq<DirEntry?>, chains: Chains,
                  e: DirEntry, ds: seq<int>, pending: bool)
    requires |fat0| == |fat| == FAT_LENGTH && |owners0| == |owners| == N_CLUSTERS
    requires Ownership(fat0, owners0, chains) && e in chains && |ds| <= MAX_CHAIN
    requires Growing(fat0, owners0, fat, owners, e, chains[e], ds, pending)
    ensures var last := ds[|ds| - 1];
            && Ownership(fat[last := FAT_EOFC], owners[last := e], WithChain(chains, e, ds))
            && Rechained(fat0, owners0, fat[last := FAT_EOFC], owners[last := e], chains[e], ds)
  {
    var last := ds[|ds| - 1];
    EndCells(fat0, owners0, fat, owners, e, chains[e], ds, pending);
    RechainedKeepsOwnership(fat0, owners0, fat[last := FAT_EOFC], owners[last := e], chains, e, chains[e], ds);
  }

  lemma EndCells(fat0: seq<int>, owners0: seq<DirEntry?>, fat: seq<int>, owners: seq<DirEntry?>, e: DirEntry,
                 cs: seq<int>, ds: seq<int>, pending: bool)
    requires |fat0| == |fat| == FAT_LENGTH && |owners0| == |owners| == N_CLUSTERS
    requires Growing(fat0, owners0, fat, owners, e, cs, ds, pending)
    ensures var last := ds[|ds| - 1];
            && IsChain(fat[last := FAT_EOFC], ds) && Owns(owners[last := e], e, ds)
            && Rechained(fat0, owners0, fat[last := FAT_EOFC], owners[last := e], cs, ds)
  {
  }

  lemma SuffixIsChain(fat: seq<int>, cs: seq<int>, t: nat)
    requires |fat| == FAT_LENGTH && IsChain(fat, cs) && t < |cs|
    ensures fat[cs[t]] == FAT_EOFC ==> t + 1 == |cs|
    ensures fat[cs[t]] != FAT_EOFC ==> t + 1 < |cs| && IsChain(fat, cs[t + 1..]) && cs[t + 1] == fat[cs[t]]
  {
    assert t + 1 < |cs| ==> InHeap(cs[t + 1]);
  }

  /** Cutting a chain after position `t`, its tail having been freed. */
  lemma CutChain(fat0: seq<int>, owners: seq<DirEntry?>, fat: seq<int>, chains: Chains, e: DirEntry, t: nat)
    requires |fat0| == |fat| == FAT_LENGTH && |owners| == N_CLUSTERS
    requires Ownership(fat0, owners, chains) && e in chains && t < |chains[e]|
    requires Freed(fat0, fat, chains[e][t + 1..])
    ensures var cs, ds := chains[e], chains[e][..t + 1];
            && Ownership(fat[cs[t] := FAT_EOFC], owners[cs[t] := e], WithChain(chains, e, ds))
            && Rechained(fat0, owners, fat[cs[t] := FAT_EOFC], owners[cs[t] := e], cs, ds)
  {
    var cs, ds := chains[e], chains[e][..t + 1];
    CutCells(fat0, owners, fat, e, cs, t);
    RechainedKeepsOwnership(fat0, owners, fat[cs[t] := FAT_EOFC], owners[cs[t] := e], chains, e, cs, ds);
  }

  lemma CutCells(fat0: seq<int>, owners: seq<DirEntry?>, fat: seq<int>, e: DirEntry, cs: seq<int>, t: nat)
    requires |fat0| == |fat| == FAT_LENGTH && |owners| == N_CLUSTERS
    requires IsChain(fat0, cs) && Owns(owners, e, cs) && t < |cs| && Freed(fat0, fat, cs[t + 1..])
    ensures IsChain(fat[cs[t] := FAT_EOFC], cs[..t + 1])
    ensures Owns(owners[cs[t] := e], e, cs[..t + 1])
    ensures Rechained(fat0, owners, fat[cs[t] := FAT_EOFC], owners[cs[t] := e], cs, cs[..t + 1])
  {
    forall i | 0 <= i <= t ensures cs[i] !in cs[t + 1..] {}
    assert cs == cs[..t + 1] + cs[t + 1..];
  }

  lemma ChainOf(fat: seq<int>, owners: seq<DirEntry?>, chains: Chains, e: DirEntry)
    requires |fat| == FAT_LENGTH && |owners| == N_CLUSTERS && Ownership(fat, owners, chains) && e in chains
    ensures IsChain(fat, chains[e]) && Owns(owners, e, chains[e]) && chains[e] != [] && InHeap(chains[e][0])
  {
  }

  lemma NothingFreed(fat: seq<int>, cs: seq<int>)
    requires |fat| == FAT_LENGTH && cs == []
    ensures Freed(fat, fat, cs)
  {
  }

  lemma PrefixCommon(cs: seq<int>, n: nat)
    requires n <= |cs|
    ensures CommonPrefix(cs, cs[..n])
  {
  }

  lemma GrownCommon(fat0: seq<int>, owners0: seq<DirEntry?>, fat: seq<int>, owners: seq<DirEntry?>, e: DirEntry,
                    cs: seq<int>, ds: seq<int>, pending: bool)
    requires |fat0| == |fat| == FAT_LENGTH && |owners0| == |owners| == N_CLUSTERS
    requires Growing(fat0, owners0, fat, owners, e, cs, ds, pending)
    ensures CommonPrefix(cs, ds) && cs != [] && |ds| >= |cs| && ds[0] == cs[0]
  {
  }

  class ClusterTable {
    const fat: array<u32>
    const dirEntries: array<DirEntry?>
    var lastFree: u32

    ghost predicate Shape()
      reads this
    {
      fat.Length == FAT_LENGTH && dirEntries.Length == N_CLUSTERS && InHeap(lastFree)
    }

    ghost predicate Valid(chains: Chains)
      reads this, fat, dirEntries
    {
      Shape() && Ownership(fat[..], dirEntries[..], chains)
    }

    constructor (root: DirEntry)
      ensures Valid(map[root := [ROOT_CLUSTER]])
      ensures fresh(fat) && fresh(dirEntries)
      ensures fat[0] == 0x0FFF_FFF0 && fat[1] == 0x08FF_FFFF
      ensures fat[2] == 0x0FFF_FFFF && forall c :: 3 <= c < N_CLUSTERS ==> fat[c] == 0
    {
      fat := new u32[FAT_LENGTH](_ => 0);
      dirEntries := new DirEntry?[N_CLUSTERS](_ => null);
      lastFree := 2;
      new;
      fat[0] := 0x0FFF_FFF0;
      fat[1] := 0x08FF_FFFF;
      fat[ROOT_CLUSTER] := FAT_EOFC;
      dirEntries[ROOT_CLUSTER] := root;
    }

    /** find_free_cluster; `found` is false where the C code reaches assert(0). */
    method FindFreeCluster() returns (found: bool, c: u32)
      requires Shape()
      modifies this`lastFree
      ensures found <==> FreeSet(fat[..]) != {}
      ensures found ==> FirstFree(fat[..], old(lastFree), c) && lastFree == c
      ensures !found ==> lastFree == old(lastFree) && FreeCount(fat[..]) == 0
    {
      var i := lastFree;
      while i < N_CLUSTERS
        invariant lastFree == old(lastFree) <= i <= N_CLUSTERS
        invariant forall j :: lastFree <= j < i ==> fat[j] != FAT_FREE
      {
        if fat[i] == FAT_FREE {
          assert i in FreeSet(fat[..]);
          lastFree := i;
          return true, i;
        }
        i := i + 1;
      }
      i := 2;
      while i < lastFree
        invariant lastFree == old(lastFree) && 2 <= i <= lastFree
        invariant forall j :: lastFree <= j < N_CLUSTERS ==> fat[j] != FAT_FREE
        invariant forall j :: 2 <= j < i ==> fat[j] != FAT_FREE
      {
        if fat[i] == FAT_FREE {
          assert i in FreeSet(fat[..]);
          lastFree := i;
          return true, i;
        }
        i := i + 1;
      }
      return false, 0;
    }

    predicate IsClusterFree(cluster: u32)
      requires cluster < fat.Length
      reads fat
    {
      fat[cluster] == FAT_FREE
    }

    /** FAT_ENTRIES[c] = v */
    method SetNext(c: u32, v: u32)
      requires c < fat.Length
      modifies fat
      ensures fat[..] == old(fat[..])[c := v]
    {
      fat[c] := v;
    }

    /** DIR_ENTRIES[c] = e */
    method SetOwner(c: u32, e: DirEntry?)
      requires c < dirEntries.Length
      modifies dirEntries
      ensures dirEntries[..] == old(dirEntries[..])[c := e]
    {
      dirEntries[c] := e;
    }

    /** allocate_cluster_chain; the ghost result is the chain laid down. */
    method AllocateClusterChain(entry: DirEntry, size: u32, ghost chains: Chains)
      returns (ok: bool, first: u32, ghost cs: seq<int>)
      requires Valid(chains) && entry !in chains
      modifies this`lastFree, fat, dirEntries
      ensures ok <==> size <= MAX_SIZE && ClustersFor(size) <= FreeCount(old(fat[..]))
      ensures ok ==> Valid(WithChain(chains, entry, cs))
      ensures ok ==> |cs| == ClustersFor(size) && cs[0] == first
      ensures ok ==> FreeCount(fat[..]) + |cs| == FreeCount(old(fat[..]))
      ensures ok ==> Laid(old(fat[..]), old(dirEntries[..]), fat[..], dirEntries[..], entry, cs)
    {
      hide Ownership, Linked, Distinct, Owns, FreeCount, ClustersFor, FirstFree, Rechained, Laid, IsChain;
      NothingLaid(fat[..], dirEntries[..], entry);
      ghost var fat0: seq<int>, owners0 := fat[..], dirEntries[..];
      ghost var f: seq<int>, o := fat0, owners0;
      cs := [];
      var found;
      found, first := FindFreeCluster();
      if !found {
        return false, 0, [];
      }
      var currentSize := BYTES_PER_CLUSTER;
      var next := first;
      while true
        invariant Shape() && fat[..] == f && dirEntries[..] == o
        invariant Pending(f, cs, next)
        invariant currentSize == RunningSize(|cs|)
        invariant size <= MAX_SIZE ==> |cs| < ClustersFor(size)
        invariant Laid(fat0, owners0, f, o, entry, cs)
        invariant first == if cs == [] then next else cs[0]
        decreases FreeCount(f)
      {
        RunningSizeGuard(|cs|, size);
        LayOne(fat0, owners0, f, o, entry, cs, next);
        LaidCount(fat0, owners0, f, o, entry, cs);
        SetNext(next, FAT_EOFC);
        SetOwner(next, entry);
        cs := cs + [next as int];
        f, o := f[next := FAT_EOFC], o[next := entry];
        if currentSize < size {
          var c;
          found, c := FindFreeCluster();
          if !found {
            return false, 0, [];
          }
          LinkLast(fat0, owners0, f, o, entry, cs, c);
          SetNext(next, c);
          f := f[next := c];
          next := c;
          currentSize := Add32(currentSize, BYTES_PER_CLUSTER);
        } else {
          break;
        }
      }
      ok := true;
      LaidCount(fat0, owners0, f, o, entry, cs);
      RechainedKeepsOwnership(fat0, owners0, fat[..], dirEntries[..], chains, entry, [], cs);
    }

    /** free_cluster_chain, on any whole chain `cs` */
    method FreeClusterChain(first: u32, ghost cs: seq<int>)
      requires Shape() && IsChain(fat[..], cs) && cs[0] == first
      modifies fat
      ensures Freed(old(fat[..]), fat[..], cs)
    {
      ghost var fat0: seq<int>, f: seq<int> := fat[..], fat[..];
      ghost var i := 0;
      var next := first;
      while true
        invariant Shape() && fat[..] == f && 0 <= i < |cs| && next == cs[i]
        invariant Freed(fat0, f, cs[..i])
        decreases |cs| - i
      {
        assert cs[i] !in cs[..i];
        var tmp := fat[next];
        SetNext(next, FAT_FREE);
        f := f[cs[i] := FAT_FREE];
        assert cs[..i + 1] == cs[..i] + [cs[i]];
        i := i + 1;
        next := tmp;
        assert i < |cs| ==> next == cs[i] && InHeap(next);
        if next == FAT_EOFC {
          break;
        }
      }
      assert cs[..i] == cs;
    }

    /** One link of an extension: FAT_ENTRIES[next] = find_free_cluster(), and its owner. */
    method ExtendOne(first: u32, next: u32, ghost fat0: seq<int>, ghost owners0: seq<DirEntry?>, ghost e: DirEntry,
                     ghost cs: seq<int>, ghost ds: seq<int>, ghost pending: bool, ghost t: nat)
      returns (ok: bool, next': u32, ghost ds': seq<int>)
      requires Shape() && |fat0| == FAT_LENGTH && |owners0| == N_CLUSTERS && |cs| > 0 && cs[0] == first
      requires Walking(fat0, owners0, fat[..], dirEntries[..], e, cs, ds, pending, true, t, next)
      requires pending ==> next == lastFree
      modifies this`lastFree, fat, dirEntries
      ensures Shape()
      ensures !ok ==> ds' == ds && FreeCount(old(fat[..])) == 0
      ensures ok ==> Walking(fat0, owners0, fat[..], dirEntries[..], e, cs, ds', !pending, true, t + 1, next')
      ensures ok ==> FreeCount(fat[..]) == FreeCount(old(fat[..])) - (if pending then 1 else 0)
      ensures ok && !pending ==> next' == lastFree
    {
      ghost var f, o := fat[..], dirEntries[..];
      var c;
      ok, c := FindFreeCluster();
      if !ok {
        GrowthCount(fat0, owners0, f, o, e, cs, ds, pending, true, t, next, t + 1);
        return false, next, ds;
      }
      if pending {
        GrowSelf(fat0, owners0, f, o, e, cs, ds, t, next);
        ds' := ds;
      } else {
        GrowOne(fat0, owners0, f, o, e, cs, ds, t, next, c);
        ds' := ds + [c as int];
      }
      var owner := dirEntries[first];
      SetNext(next, c);
      SetOwner(next, owner);
      next' := fat[next];
    }

    /** The loop of reallocate_cluster_chain: walks to the last cluster kept, linking free clusters
        past the end of the chain. `t` counts the steps, `ds` is the chain so far. */
    method WalkOrExtend(first: u32, newSize: u32, ghost e: DirEntry, ghost cs: seq<int>)
      returns (ok: bool, next: u32, extending: bool, ghost ds: seq<int>, ghost pending: bool, ghost t: nat)
      requires Shape() && IsChain(fat[..], cs) && Owns(dirEntries[..], e, cs) && cs[0] == first
      modifies this`lastFree, fat, dirEntries
      ensures ok <==> newSize <= MAX_SIZE && GrowthAsCoded(|cs|, ClustersFor(newSize)) <= FreeCount(old(fat[..]))
      ensures Shape()
      ensures ok ==> t + 1 == ClustersFor(newSize)
      ensures ok ==> Walking(old(fat[..]), old(dirEntries[..]), fat[..], dirEntries[..], e, cs, ds, pending,
              extending, t, next)
    {
      hide IsChain, Linked, Distinct, Growing, FreeCount, ClustersFor, GrowthAsCoded, LengthAsCoded;
      WalkStart(fat[..], dirEntries[..], e, cs);
      ghost var fat0: seq<int>, owners0 := fat[..], dirEntries[..];
      ghost var f: seq<int>, o := fat0, owners0;
      ds, pending, t := cs, false, 0;
      next, extending := first, false;
      var currentSize := BYTES_PER_CLUSTER;
      while currentSize < newSize
        invariant Shape() && fat[..] == f && dirEntries[..] == o
        invariant currentSize == RunningSize(t)
        invariant newSize <= MAX_SIZE ==> t < ClustersFor(newSize)
        invariant Walking(fat0, owners0, f, o, e, cs, ds, pending, extending, t, next)
        invariant pending ==> next == lastFree
        decreases if extending then 0 else |cs| - t, FreeCount(f), if pending then 0 else 1
      {
        RunningSizeGuard(t, newSize);
        if !extending {
          StartGrowing(f, o, e, cs, t, next);
        }
        if fat[next] == FAT_EOFC {
          extending := true;
        }
        if extending {
          var last := next;
          ok, next, ds := ExtendOne(first, last, fat0, owners0, e, cs, ds, pending, t);
          if !ok {
            GrowthCount(fat0, owners0, f, o, e, cs, ds, pending, true, t, last, ClustersFor(newSize));
            return false, last, extending, ds, pending, t;
          }
          pending := !pending;
          f, o := fat[..], dirEntries[..];
        } else {
          next := fat[next];
        }
        currentSize := Add32(currentSize, BYTES_PER_CLUSTER);
        t := t + 1;
      }
      RunningSizeGuard(t, newSize);
      GrowthCount(fat0, owners0, f, o, e, cs, ds, pending, extending, t, next, t + 1);
      ok := true;
    }

    /** reallocate_cluster_chain; the ghost result is the new chain. */
    method ReallocateClusterChain(first: u32, newSize: u32, ghost e: DirEntry, ghost chains: Chains)
      returns (ok: bool, r: u32, ghost ds: seq<int>)
      requires Valid(chains) && e in chains && chains[e][0] == first
      modifies this`lastFree, fat, dirEntries
      ensures ok <==> newSize <= MAX_SIZE && GrowthAsCoded(|chains[e]|, ClustersFor(newSize)) <= FreeCount(old(fat[..]))
      ensures ok ==> |ds| == LengthAsCoded(|chains[e]|, ClustersFor(newSize))
      ensures ok ==> ds != [] && Valid(WithChain(chains, e, ds)) && r == first == ds[0]
      ensures ok ==> CommonPrefix(chains[e], ds)
      ensures ok ==> Rechained(old(fat[..]), old(dirEntries[..]), fat[..], dirEntries[..], chains[e], ds)
    {
      hide Ownership, IsChain, Linked, Owns, Distinct, Rechained, Freed, Growing, CommonPrefix, FreeCount, ClustersFor,
           GrowthAsCoded, LengthAsCoded;
      ghost var cs := chains[e];
      ChainOf(fat[..], dirEntries[..], chains, e);
      ghost var fat0: seq<int>, owners0 := fat[..], dirEntries[..];
      var next, extending;
      ghost var pending, t;
      r := first;
      ok, next, extending, ds, pending, t := WalkOrExtend(first, newSize, e, cs);
      if !ok {
        return false, first, [];
      }
      GrowthCount(fat0, owners0, fat[..], dirEntries[..], e, cs, ds, pending, extending, t, next, ClustersFor(newSize));
      if !extending {
        var tail := fat[next];
        SuffixIsChain(fat0, cs, t);
        if tail != FAT_EOFC {
          FreeClusterChain(tail, cs[t + 1..]);
        } else {
          NothingFreed(fat0, cs[t + 1..]);
        }
        CutChain(fat0, owners0, fat[..], chains, e, t);
        ds := cs[..t + 1];
        PrefixCommon(cs, t + 1);
      } else {
        GrownCommon(fat0, owners0, fat[..], dirEntries[..], e, cs, ds, pending);
        EndGrowth(fat0, owners0, fat[..], dirEntries[..], chains, e, ds, pending);
      }
      var owner := dirEntries[first];
      SetNext(next, FAT_EOFC);
      SetOwner(next, owner);
    }

    /** get_cluster_chain_size: bytes of the chain before `last`, which is its `i`-th cluster. */
    method GetClusterChainSize(first: u32, last: u32, ghost cs: seq<int>, ghost i: nat) returns (size: u32)
      requires Shape() && IsChain(fat[..], cs) && |cs| <= MAX_CHAIN && cs[0] == first
      requires i < |cs| && cs[i] == last
      ensures size == i * BYTES_PER_CLUSTER
    {
      var clusters := 0;
      var cur := first;
      while cur != last
        invariant 0 <= clusters <= i && cur == cs[clusters]
        decreases i - clusters
      {
        assert cur != FAT_FREE;
        assert cur != FAT_EOFC;
        assert clusters != i;
        cur := fat[cur];
        clusters := clusters + 1;
      }
      size := Mul32(Mul32(clusters, SECTORS_PER_CLUSTER), BYTES_PER_SECTOR);
    }
  }

  /** Only the chain of one entry changed, from `cs` to `ds`: new clusters were free, dropped ones are. */
  ghost predicate Rechained(fat0: seq<int>, owners0: seq<DirEntry?>, fat: seq<int>, owners: seq<DirEntry?>,
                            cs: seq<int>, ds: seq<int>)
    requires |fat0| == |fat| == FAT_LENGTH && |owners0| == |owners| == N_CLUSTERS
  {
    && (forall c :: c in ds && c !in cs ==> 0 <= c < FAT_LENGTH && fat0[c] == FAT_FREE)
    && (forall c :: c in cs && c !in ds ==> 0 <= c < FAT_LENGTH && fat[c] == FAT_FREE)
    && (forall c :: 0 <= c < FAT_LENGTH && c !in cs && c !in ds ==> fat[c] == fat0[c])
    && (forall c :: InHeap(c) && c !in cs && c !in ds ==> owners[c] == owners0[c])
  }

  /** An entry whose chain is rebuilt keeps the invariant. */
  lemma RechainedKeepsOwnership(fat0: seq<int>, owners0: seq<DirEntry?>, fat: seq<int>, owners: seq<DirEntry?>,
                                chains: Chains, e: DirEntry, cs: seq<int>, ds: seq<int>)
    requires |fat0| == |fat| == FAT_LENGTH && |owners0| == |owners| == N_CLUSTERS
    requires Ownership(fat0, owners0, chains)
    requires cs == if e in chains then chains[e] else []
    requires IsChain(fat, ds) && Owns(owners, e, ds) && |ds| <= MAX_CHAIN
    requires Rechained(fat0, owners0, fat, owners, cs, ds)
    ensures Ownership(fat, owners, WithChain(chains, e, ds))
  {
    OthersKept(fat0, owners0, fat, owners, chains, e, cs, ds);
  }

  /** An entry whose chain is freed leaves the invariant. */
  lemma FreedKeepsOwnership(fat0: seq<int>, owners: seq<DirEntry?>, fat: seq<int>, chains: Chains, e: DirEntry)
    requires |fat0| == |fat| == FAT_LENGTH && |owners| == N_CLUSTERS
    requires Ownership(fat0, owners, chains) && e in chains
    requires Freed(fat0, fat, chains[e])
    ensures Ownership(fat, owners, chains - {e})
  {
    assert Rechained(fat0, owners, fat, owners, chains[e], []);
    OthersKept(fat0, owners, fat, owners, chains, e, chains[e], []);
  }

  lemma OthersKept(fat0: seq<int>, owners0: seq<DirEntry?>, fat: seq<int>, owners: seq<DirEntry?>,
                   chains: Chains, e: DirEntry, cs: seq<int>, ds: seq<int>)
    requires |fat0| == |fat| == FAT_LENGTH && |owners0| == |owners| == N_CLUSTERS
    requires Ownership(fat0, owners0, chains)
    requires cs == if e in chains then chains[e] else []
    requires Rechained(fat0, owners0, fat, owners, cs, ds)
    ensures forall x :: x in chains && x != e ==> IsChain(fat, chains[x]) && Owns(owners, x, chains[x])
  {
    forall x | x in chains && x != e
      ensures IsChain(fat, chains[x]) && Owns(owners, x, chains[x])
    {
      var xs := chains[x];
      forall i | 0 <= i < |xs| ensures xs[i] !in cs && xs[i] !in ds {
        ChainCellsTaken(fat0, xs, i);
      }
    }
  }

  ghost function Cells(cs: seq<int>): (s: set<int>)
    ensures forall c :: c in s <==> c in cs
  {
    set c | c in cs
  }

  lemma {:induction false} CellCount(cs: seq<int>)
    requires Distinct(cs)
    ensures |Cells(cs)| == |cs|
  {
    if cs != [] {
      var last := |cs| - 1;
      CellCount(cs[..last]);
      assert cs == cs[..last] + [cs[last]];
      assert Cells(cs) == Cells(cs[..last]) + {cs[last]};
    }
  }

  /** Rebuilding one chain takes from the free clusters exactly what the chain gains. */
  lemma RechainedFree(fat0: seq<int>, owners0: seq<DirEntry?>, fat: seq<int>, owners: seq<DirEntry?>, cs: seq<int>,
                      ds: seq<int>)
    requires |fat0| == |fat| == FAT_LENGTH && |owners0| == |owners| == N_CLUSTERS
    requires IsChain(fat0, cs) && IsChain(fat, ds) && Rechained(fat0, owners0, fat, owners, cs, ds)
    ensures FreeCount(fat) + |ds| == FreeCount(fat0) + |cs|
  {
    CellCount(cs);
    CellCount(ds);
    LinkedCellsTaken(fat0, cs);
    LinkedCellsTaken(fat, ds);
    assert FreeSet(fat) !! Cells(ds) && FreeSet(fat0) !! Cells(cs);
    assert FreeSet(fat) + Cells(ds) == FreeSet(fat0) + Cells(cs);
    assert |FreeSet(fat) + Cells(ds)| == |FreeSet(fat)| + |Cells(ds)|;
  }

  lemma FreedCount(fat0: seq<int>, fat: seq<int>, cs: seq<int>)
    requires |fat0| == |fat| == FAT_LENGTH && IsChain(fat0, cs) && Freed(fat0, fat, cs)
    ensures FreeCount(fat) == FreeCount(fat0) + |cs|
  {
    CellCount(cs);
    LinkedCellsTaken(fat0, cs);
    assert FreeSet(fat0) !! Cells(cs);
    assert FreeSet(fat) == FreeSet(fat0) + Cells(cs);
  }

  lemma ChainRebuilt(fat0: seq<int>, owners0: seq<DirEntry?>, fat: seq<int>, owners: seq<DirEntry?>,
                     chains: Chains, e: DirEntry, ds: seq<int>)
    requires |fat0| == |fat| == FAT_LENGTH && |owners0| == |owners| == N_CLUSTERS
    requires Ownership(fat0, owners0, chains) && e in chains && Ownership(fat, owners, WithChain(chains, e, ds))
    requires Rechained(fat0, owners0, fat, owners, chains[e], ds)
    ensures FreeCount(fat) + |ds| == FreeCount(fat0) + |chains[e]|
  {
    assert e in WithChain(chains, e, ds) && WithChain(chains, e, ds)[e] == ds;
    RechainedFree(fat0, owners0, fat, owners, chains[e], ds);
  }

  // ---- the FAT region ----

  /** read_fat_sector: 128 cells, in memory order. */
  function FatSector(fat: seq<int>, sector: nat): (b: seq<u8>)
    requires |fat| == FAT_LENGTH && sector < FAT_SECTORS
    requires forall c :: 0 <= c < FAT_LENGTH ==> 0 <= fat[c] < TWO_32
    ensures |b| == BYTES_PER_SECTOR
  {
    seq(BYTES_PER_SECTOR, i requires 0 <= i < BYTES_PER_SECTOR => Bytes32(fat[sector * 128 + i / 4])[i % 4])
  }

  /** What the cells say: every cluster of a chain names the next one, the last one has the end mark 0x0FFFFFFF, and a
      data cluster is on no chain exactly when its cell is 0. */
  lemma CellsSay(fat: seq<int>, owners: seq<DirEntry?>, chains: Chains, e: DirEntry)
    requires |fat| == FAT_LENGTH && |owners| == N_CLUSTERS && Ownership(fat, owners, chains) && e in chains
    ensures var cs := chains[e];
            && cs != [] && (forall i :: 0 <= i < |cs| ==> 2 <= cs[i] < 4186127)
            && (forall i :: 0 <= i < |cs| - 1 ==> fat[cs[i]] == cs[i + 1])
            && fat[cs[|cs| - 1]] == 0x0FFF_FFFF
    ensures forall c :: 2 <= c < 4186127 ==>
              (fat[c] == 0 <==> forall x :: x in chains ==> c !in chains[x])
  {
    VolumeNumbers();
    assert IsChain(fat, chains[e]);
    forall c | 2 <= c < 4186127 ensures fat[c] == 0 <==> forall x :: x in chains ==> c !in chains[x] {
      if fat[c] == 0 {
        forall x | x in chains ensures c !in chains[x] {
          NotFree(fat, chains[x], c);
        }
      }
    }
  }

  lemma NotFree(fat: seq<int>, cs: seq<int>, c: int)
    requires |fat| == FAT_LENGTH && IsChain(fat, cs) && InHeap(c) && fat[c] == FAT_FREE
    ensures c !in cs
  {
    if c in cs {
      var i :| 0 <= i < |cs| && cs[i] == c;
      ChainCellsTaken(fat, cs, i);
    }
  }

  /** An empty file takes one cluster, any other as many clusters of 32768 bytes as hold it; the largest size the
      allocation ends for is 0xFFFF8000. */
  lemma ClustersNeeded(size: u32)
    ensures var n := ClustersFor(size);
            if size == 0 then n == 1 else (n - 1) * 32768 < size <= n * 32768
    ensures MAX_SIZE == 0xFFFF_8000
  {
  }

  /** A reader gets every FAT cell back from the sector that holds it. */
  lemma FatCellRead(fat: seq<int>, c: nat)
    requires |fat| == FAT_LENGTH && c < FAT_LENGTH
    requires forall c :: 0 <= c < FAT_LENGTH ==> 0 <= fat[c] < TWO_32
    ensures var at := c % 128 * 4; Word32(FatSector(fat, c / 128)[at..at + 4]) == fat[c]
  {
    var at := c % 128 * 4;
    var s := FatSector(fat, c / 128);
    assert c / 128 * 128 + at / 4 == c;
    forall k | 0 <= k < 4 ensures s[at..at + 4][k] == Bytes32(fat[c])[k] {
      assert (at + k) / 4 == at / 4 && (at + k) % 4 == k;
    }
    assert s[at..at + 4] == Bytes32(fat[c]);
    Word32OfBytes(fat[c]);
  }

  // ---- conservation ----

  ghost function ClustersOf(chains: Chains): set<int> {
    set e, c | e in chains && c in chains[e] :: c
  }

  ghost function Range(lo: int, hi: int): (s: set<int>)
    requires lo <= hi
    ensures |s| == hi - lo
    ensures forall c :: c in s <==> lo <= c < hi
    decreases hi - lo
  {
    if lo == hi then {} else {lo} + Range(lo + 1, hi)
  }

  lemma OwnedTaken(fat: seq<int>, owners: seq<DirEntry?>, chains: Chains)
    requires |fat| == FAT_LENGTH && |owners| == N_CLUSTERS && Ownership(fat, owners, chains)
    ensures forall e, i :: e in chains && 0 <= i < |chains[e]| ==>
              InHeap(chains[e][i]) && fat[chains[e][i]] != FAT_FREE && owners[chains[e][i]] == e
  {
    forall e, i | e in chains && 0 <= i < |chains[e]|
      ensures InHeap(chains[e][i]) && fat[chains[e][i]] != FAT_FREE && owners[chains[e][i]] == e
    {
      ChainCellsTaken(fat, chains[e], i);
    }
  }

  /** No cluster is on two chains, or twice on one. */
  lemma NothingShared(fat: seq<int>, owners: seq<DirEntry?>, chains: Chains)
    requires |fat| == FAT_LENGTH && |owners| == N_CLUSTERS && Ownership(fat, owners, chains)
    ensures forall e, x, i, j | e in chains && x in chains && 0 <= i < |chains[e]| && 0 <= j < |chains[x]| ::
              chains[e][i] == chains[x][j] ==> e == x && i == j
  {
    OwnedTaken(fat, owners, chains);
    forall e | e in chains ensures Distinct(chains[e]) {
      assert IsChain(fat, chains[e]);
    }
    hide Ownership;
  }

  lemma FreeOrOwned(fat: seq<int>, owners: seq<DirEntry?>, chains: Chains)
    requires |fat| == FAT_LENGTH && |owners| == N_CLUSTERS && Ownership(fat, owners, chains)
    ensures FreeSet(fat) !! ClustersOf(chains)
    ensures FreeSet(fat) + ClustersOf(chains) == Range(2, N_CLUSTERS)
  {
    hide IsChain, Owns;
    OwnedTaken(fat, owners, chains);
    assert FreeSet(fat) + ClustersOf(chains) == Range(2, N_CLUSTERS);
  }

  /** Nothing is leaked and nothing is shared: the free clusters and the chains partition the heap. */
  lemma Conservation(fat: seq<int>, owners: seq<DirEntry?>, chains: Chains)
    requires |fat| == FAT_LENGTH && |owners| == N_CLUSTERS && Ownership(fat, owners, chains)
    ensures FreeSet(fat) !! ClustersOf(chains)
    ensures FreeSet(fat) + ClustersOf(chains) == Range(2, N_CLUSTERS)
    ensures FreeCount(fat) + |ClustersOf(chains)| == N_CLUSTERS - 2
    ensures forall e, x, i, j | e in chains && x in chains && 0 <= i < |chains[e]| && 0 <= j < |chains[x]| ::
              chains[e][i] == chains[x][j] ==> e == x && i == j
  {
    hide Ownership, FreeSet, ClustersOf, Range;
    NothingShared(fat, owners, chains);
    FreeOrOwned(fat, owners, chains);
    assert |FreeSet(fat) + ClustersOf(chains)| == |FreeSet(fat)| + |ClustersOf(chains)|;
  }

  lemma ChainCellsTaken(fat: seq<int>, cs: seq<int>, i: int)
    requires |fat| == FAT_LENGTH && IsChain(fat, cs) && 0 <= i < |cs|
    ensures fat[cs[i]] != FAT_FREE
  {
    if i < |cs| - 1 {
      assert InHeap(cs[i + 1]);
    }
  }
}
