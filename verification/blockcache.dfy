/** The slots of the file cache and the four steps taken under its lock (dbfiles.c). */
module BlockCache {
  import opened Words
  import Layout

  const CACHE_BLOCK_SIZE := 0x20_0000
  const CACHE_BLOCK_COUNT := 8
  const MAX_BLOCK_PREFETCH := 2

  datatype BlockState = Clean | Scheduled | Downloading | Completed

  /** What a slot is about; `path` counts its terminating NUL, so it is empty only in a slot never used. */
  datatype Key = Key(path: seq<u8>, rev: seq<u8>, offset: u32)

  datatype Slot = Slot(refCount: int, state: BlockState, lastAccess: int, key: Key, buffer: seq<u8>)

  /** offset & ~(CACHE_BLOCK_SIZE - 1): blocks of 2^21 bytes */
  function BlockOffset(offset: u32): (b: u32)
    ensures b <= offset < b + 0x20_0000 && b % 0x20_0000 == 0
  {
    offset - offset % CACHE_BLOCK_SIZE
  }

  lemma CacheNumbers()
    ensures CACHE_BLOCK_SIZE == 0x20_0000 && CACHE_BLOCK_COUNT == 8 && MAX_BLOCK_PREFETCH == 2
  {
  }

  // ---- schedule_sector ----

  /** The first slot that holds `key`, or the number of slots. */
  ghost function Find(slots: seq<Slot>, key: Key): (i: nat)
    ensures i <= |slots| && (forall j :: 0 <= j < i ==> slots[j].key != key)
    ensures i < |slots| ==> slots[i].key == key
  {
    if slots == [] || slots[0].key == key then 0 else 1 + Find(slots[1..], key)
  }

  /** Slot `i` can be taken over, and is the least recently used of those that can (the first such). */
  ghost predicate Victim(slots: seq<Slot>, i: nat) {
    && i < |slots| && slots[i].refCount == 0
    && (forall j :: 0 <= j < |slots| && slots[j].refCount == 0 ==> slots[i].lastAccess <= slots[j].lastAccess)
    && (forall j :: 0 <= j < i && slots[j].refCount == 0 ==> slots[i].lastAccess < slots[j].lastAccess)
  }

  ghost predicate AllHeld(slots: seq<Slot>) {
    forall j :: 0 <= j < |slots| ==> slots[j].refCount != 0
  }

  /** Outcome of scheduling `key` at time `now`: `index` is the slot. A slot already about the key is shared;
      otherwise the victim is given the key and marked for download. */
  ghost predicate ScheduledAs(slots: seq<Slot>, key: Key, now: int, index: nat, slots': seq<Slot>) {
    && index < |slots|
    && if Find(slots, key) < |slots| then
         index == Find(slots, key) &&
         slots' == slots[index := slots[index].(lastAccess := now, refCount := slots[index].refCount + 1)]
       else
         Victim(slots, index) &&
         slots' == slots[index := Slot(1, Scheduled, now, key, slots[index].buffer)]
  }

  // ---- the choice of the fetcher threads ----

  /** Slot `i` goes before slot `j`: more references first, then smaller offset, then smaller index. */
  ghost predicate Before(slots: seq<Slot>, i: nat, j: nat)
    requires i < |slots| && j < |slots|
  {
    var a, b := slots[i], slots[j];
    a.refCount > b.refCount || (a.refCount == b.refCount &&
        (a.key.offset < b.key.offset || (a.key.offset == b.key.offset && i <= j)))
  }

  ghost predicate NextFetched(slots: seq<Slot>, i: nat) {
    && i < |slots| && slots[i].state == Scheduled
    && forall j :: 0 <= j < |slots| && slots[j].state == Scheduled ==> Before(slots, i, j)
  }

  function Picked(slots: seq<Slot>, i: nat): seq<Slot>
    requires i < |slots|
  {
    slots[i := slots[i].(refCount := slots[i].refCount + 1, state := Downloading)]
  }

  function Finished(slots: seq<Slot>, i: nat, ok: bool): seq<Slot>
    requires i < |slots|
  {
    slots[i := slots[i].(state := if ok then Completed else Scheduled, refCount := slots[i].refCount - 1)]
  }

  function Released(slots: seq<Slot>, i: nat): seq<Slot>
    requires i < |slots|
  {
    slots[i := slots[i].(refCount := slots[i].refCount - 1)]
  }

  function Filled(slots: seq<Slot>, i: nat, b: seq<u8>): seq<Slot>
    requires i < |slots|
  {
    slots[i := slots[i].(buffer := b)]
  }

  function FreshSlot(): Slot {
    Slot(0, Clean, 0, Key([], Zeros(11), 0), Zeros(CACHE_BLOCK_SIZE))
  }

  class FileCache {
    const fileCache: array<Slot>

    /** initialize_file_cache */
    constructor ()
      ensures fresh(fileCache) && fileCache[..] == seq(CACHE_BLOCK_COUNT, _ => FreshSlot())
    {
      fileCache := new Slot[CACHE_BLOCK_COUNT](_ => FreshSlot());
    }

    /** The two searches of schedule_sector; none when every slot is held, where the C code asserts. */
    method Choose(key: Key) returns (index: Option<nat>, hit: bool)
      ensures index.None? <==> Find(fileCache[..], key) == fileCache.Length && AllHeld(fileCache[..])
      ensures index.Some? ==> index.value < fileCache.Length && (hit <==> Find(fileCache[..], key) < fileCache.Length)
      ensures index.Some? ==>
                if hit then index.value == Find(fileCache[..], key) else Victim(fileCache[..], index.value)
    {
      ghost var slots := fileCache[..];
      index, hit := None, false;
      var i := 0;
      while i < fileCache.Length
        invariant 0 <= i <= fileCache.Length
        invariant forall j :: 0 <= j < i ==> slots[j].key != key
      {
        if fileCache[i].key == key {
          return Some(i), true;
        }
        i := i + 1;
      }
      i := 0;
      while i < fileCache.Length
        invariant 0 <= i <= fileCache.Length
        invariant index.None? ==> forall j :: 0 <= j < i ==> slots[j].refCount != 0
        invariant index.Some? ==> index.value < i && Victim(slots[..i], index.value)
      {
        if fileCache[i].refCount == 0 && (index.None? || fileCache[i].lastAccess < fileCache[index.value].lastAccess) {
          index := Some(i);
        }
        i := i + 1;
      }
      assert slots[..i] == slots;
    }

    /** schedule_sector, at time `now`; none stands for the failed assertion. */
    method ScheduleSector(path: seq<u8>, rev: seq<u8>, offset: u32, now: int) returns (index: Option<nat>)
      requires offset % Layout.BYTES_PER_SECTOR == 0
      modifies fileCache
      ensures var key := Key(path, rev, BlockOffset(offset));
              && (index.None? <==> Find(old(fileCache[..]), key) == fileCache.Length && AllHeld(old(fileCache[..])))
              && (index.None? ==> fileCache[..] == old(fileCache[..]))
              && (index.Some? ==> ScheduledAs(old(fileCache[..]), key, now, index.value, fileCache[..]))
    {
      var key := Key(path, rev, BlockOffset(offset));
      var hit;
      index, hit := Choose(key);
      if index.None? {
        return;
      }
      var i := index.value;
      if !hit {
        fileCache[i] := fileCache[i].(key := key);
        fileCache[i] := fileCache[i].(state := Scheduled);
      }
      fileCache[i] := fileCache[i].(lastAccess := now);
      fileCache[i] := fileCache[i].(refCount := fileCache[i].refCount + 1);
    }

    /** release_cache_block */
    method ReleaseCacheBlock(index: nat)
      requires index < fileCache.Length
      modifies fileCache
      ensures fileCache[..] == Released(old(fileCache[..]), index)
    {
      fileCache[index] := fileCache[index].(refCount := fileCache[index].refCount - 1);
    }

    /** First locked part of block_fetcher_thread */
    method PickBlock() returns (index: Option<nat>)
      modifies fileCache
      ensures index.None? ==>
                && fileCache[..] == old(fileCache[..])
                && forall j :: 0 <= j < fileCache.Length ==> fileCache[j].state != Scheduled
      ensures index.Some? ==>
                && NextFetched(old(fileCache[..]), index.value)
                && fileCache[..] == Picked(old(fileCache[..]), index.value)
    {
      ghost var slots := fileCache[..];
      index := None;
      var i := 0;
      while i < fileCache.Length
        invariant 0 <= i <= fileCache.Length && fileCache[..] == slots
        invariant index.None? ==> forall j :: 0 <= j < i ==> slots[j].state != Scheduled
        invariant index.Some? ==> index.value < i && NextFetched(slots[..i], index.value)
      {
        if fileCache[i].state == Scheduled &&
           (index.None? || fileCache[i].refCount > fileCache[index.value].refCount ||
            (fileCache[i].refCount == fileCache[index.value].refCount &&
                fileCache[i].key.offset < fileCache[index.value].key.offset)) {
          index := Some(i);
        }
        i := i + 1;
      }
      assert slots[..i] == slots;
      if index.Some? {
        var k := index.value;
        fileCache[k] := fileCache[k].(refCount := fileCache[k].refCount + 1);
        fileCache[k] := fileCache[k].(state := Downloading);
      }
    }

    /** Last locked part of block_fetcher_thread */
    method FinishBlock(index: nat, ok: bool)
      requires index < fileCache.Length
      modifies fileCache
      ensures fileCache[..] == Finished(old(fileCache[..]), index, ok)
    {
      fileCache[index] := fileCache[index].(state := if ok then Completed else Scheduled);
      fileCache[index] := fileCache[index].(refCount := fileCache[index].refCount - 1);
    }
  }

  /** No slot can be taken over exactly when all are held. */
  lemma {:induction false} VictimExists(slots: seq<Slot>)
    requires !AllHeld(slots)
    ensures exists i: nat :: Victim(slots, i)
  {
    var n := |slots| - 1;
    if AllHeld(slots[..n]) {
      assert Victim(slots, n);
    } else {
      VictimExists(slots[..n]);
      var i: nat :| Victim(slots[..n], i);
      if slots[n].refCount == 0 && slots[n].lastAccess < slots[i].lastAccess {
        assert Victim(slots, n);
      } else {
        assert Victim(slots, i);
      }
    }
  }
}
