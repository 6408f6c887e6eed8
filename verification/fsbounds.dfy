/** Every live entry owns a cluster, so the number of entries, the depth of paths and the length of
    directories are bounded: the uint32_t sums over them do not wrap (dbfat.c). */
module FsBounds {
  import opened Layout
  import opened Entries
  import opened Cluster
  import opened DirStream
  import opened FsState
  import FsRoom
  import Words
  import FsPath

  const MAX_LIVE := N_CLUSTERS - 2

  ghost function Firsts(chains: Chains, es: set<DirEntry>): set<int>
    requires forall e :: e in es ==> e in chains && chains[e] != []
  {
    set e | e in es :: chains[e][0]
  }

  lemma {:induction false} FirstsCount(fat: seq<int>, owners: seq<DirEntry?>, chains: Chains, es: set<DirEntry>)
    requires |fat| == FAT_LENGTH && |owners| == N_CLUSTERS && Ownership(fat, owners, chains) && es <= chains.Keys
    ensures |Firsts(chains, es)| == |es|
    decreases |es|
  {
    if es == {} {
      assert Firsts(chains, es) == {};
    } else {
      var e :| e in es;
      FirstsCount(fat, owners, chains, es - {e});
      assert Firsts(chains, es) == Firsts(chains, es - {e}) + {chains[e][0]};
      forall x | x in es && x != e ensures chains[x][0] != chains[e][0] {
        assert owners[chains[x][0]] == x && owners[chains[e][0]] == e;
      }
    }
  }

  lemma LiveBound(fat: seq<int>, owners: seq<DirEntry?>, chains: Chains)
    requires |fat| == FAT_LENGTH && |owners| == N_CLUSTERS && Ownership(fat, owners, chains)
    ensures |chains.Keys| <= MAX_LIVE
  {
    FirstsCount(fat, owners, chains, chains.Keys);
    forall c | c in Firsts(chains, chains.Keys) ensures c in Range(2, N_CLUSTERS) {
      var e :| e in chains && chains[e][0] == c;
    }
    SubsetCount(Firsts(chains, chains.Keys), Range(2, N_CLUSTERS));
  }

  lemma {:induction false} SubsetCount<T>(a: set<T>, b: set<T>)
    requires a <= b
    ensures |a| <= |b|
  {
    assert b == a + (b - a);
  }

  /** Entries on the way from the root to `e`. */
  ghost function Above(s: State, e: DirEntry): set<DirEntry>
    requires e in s.paths
  {
    set x | x in s.paths && s.paths[x] <= s.paths[e]
  }

  lemma {:induction false} PathDepth(s: State, e: DirEntry)
    requires Tree(s) && e in s.paths
    ensures |s.paths[e]| + 1 == |Above(s, e)| <= |Live(s)|
    decreases |s.paths[e]|
  {
    hide GoodMeta, Down;
    if e == s.root {
      forall x | x in Above(s, e) ensures x == s.root {
        assert s.paths[x] == s.paths[e];
      }
      assert Above(s, e) == {s.root};
    } else {
      ParentOf(s, e);
      var p := s.parents[e];
      PathDepth(s, p);
      assert Above(s, e) == Above(s, p) + {e} by { AboveStep(s, e); }
    }
    SubsetCount(Above(s, e), Live(s));
  }

  lemma AboveStep(s: State, e: DirEntry)
    requires Tree(s) && e in s.parents && s.parents[e] in s.paths && e in s.paths
    requires s.paths[e] == s.paths[s.parents[e]] + [s.metas[e].name]
    ensures Above(s, e) == Above(s, s.parents[e]) + {e} && e !in Above(s, s.parents[e])
  {
    hide GoodMeta, Down, Up;
    forall x | x in s.paths && s.paths[x] <= s.paths[e] && x != e ensures s.paths[x] <= s.paths[s.parents[e]] {
      assert s.paths[x] != s.paths[e];
    }
  }

  lemma {:induction false} JoinBound(comps: seq<Name>)
    requires forall i :: 0 <= i < |comps| ==> |comps[i]| <= MAX_NAME
    ensures |FsPath.Join(comps)| <= (MAX_NAME + 1) * |comps|
  {
    if comps != [] {
      JoinBound(comps[..|comps| - 1]);
    }
  }

  lemma {:induction false} NamesGood(s: State, e: DirEntry, i: nat)
    requires Tree(s) && e in s.paths && i < |s.paths[e]|
    ensures GoodName(s.paths[e][i])
    decreases |s.paths[e]|
  {
    hide Down, Unique;
    if e == s.root {
      assert false;
    }
    ParentOf(s, e);
    FsRoom.NameOf(s, e);
    if i < |s.paths[e]| - 1 {
      NamesGood(s, s.parents[e], i);
    }
  }

  /** The text of a live path always has a uint32_t length. */
  lemma PathFits(s: State, fat: seq<int>, owners: seq<DirEntry?>, e: DirEntry)
    requires Tree(s) && e in s.paths && |fat| == FAT_LENGTH && |owners| == N_CLUSTERS
    requires Ownership(fat, owners, s.chains)
    ensures |FsPath.Join(s.paths[e])| < Words.TWO_32
  {
    hide Up, Down, Unique, Ownership, GoodMeta;
    PathDepth(s, e);
    LiveBound(fat, owners, s.chains);
    forall i | 0 <= i < |s.paths[e]| ensures |s.paths[e][i]| <= MAX_NAME {
      NamesGood(s, e, i);
    }
    JoinBound(s.paths[e]);
  }

  ghost function KidSet(ks: seq<DirEntry>): set<DirEntry> {
    set k | k in ks
  }

  lemma {:induction false} KidCount(ks: seq<DirEntry>)
    requires NoRepeats(ks)
    ensures |KidSet(ks)| == |ks|
  {
    if ks != [] {
      var last := |ks| - 1;
      KidCount(ks[..last]);
      assert ks == ks[..last] + [ks[last]];
      assert KidSet(ks) == KidSet(ks[..last]) + {ks[last]};
    }
  }

  lemma {:induction false} RoomBound(metas: FsRoom.Metas, ks: seq<DirEntry>)
    requires forall k :: k in ks ==> k in metas && GoodName(metas[k].name)
    ensures FsRoom.Room(metas, ks) <= 672 * |ks|
  {
    hide EntrySize, GoodName;
    if ks != [] {
      EntrySizeBound(metas[ks[0]]);
      RoomBound(metas, ks[1..]);
    }
  }

  /** The bytes of a live directory always have a uint32_t length. */
  lemma DirFits(s: State, fat: seq<int>, owners: seq<DirEntry?>, d: DirEntry)
    requires Tree(s) && d in s.paths && |fat| == FAT_LENGTH && |owners| == N_CLUSTERS
    requires Ownership(fat, owners, s.chains)
    ensures FsRoom.DirKnown(s, d) && FsRoom.Base(s, d) + FsRoom.Room(s.metas, s.kids[d]) < Words.TWO_32
  {
    hide Up, Unique, Ownership, GoodMeta, FsRoom.Room, EntrySize;
    assert DownAt(s, d);
    LiveBound(fat, owners, s.chains);
    KidCount(s.kids[d]);
    SubsetCount(KidSet(s.kids[d]), Live(s));
    forall k | k in s.kids[d] ensures k in s.metas && GoodName(s.metas[k].name) {
      FsRoom.NameOf(s, k);
    }
    RoomBound(s.metas, s.kids[d]);
  }
}
