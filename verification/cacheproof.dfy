/** What every step of the file cache keeps, and what follows for every run (dbfiles.c). */
module CacheProof {
  import opened Words
  import opened Layout
  import opened BlockCache
  import opened CacheSystem

  // ---- who holds what ----

  /** How often `i` is among the slots held. */
  ghost function Times(held: seq<nat>, i: nat): nat {
    if held == [] then 0 else (if held[0] == i then 1 else 0) + Times(held[1..], i)
  }

  ghost function Holds(readers: seq<Reader>, i: nat): nat {
    if readers == [] then 0 else Times(HeldBy(readers[0]), i) + Holds(readers[1..], i)
  }

  ghost function Fetches(fetchers: seq<Fetcher>, i: nat): nat {
    if fetchers == [] then 0 else Times(FetchedBy(fetchers[0]), i) + Fetches(fetchers[1..], i)
  }

  lemma {:induction false} HoldsUpdate(readers: seq<Reader>, r: nat, to: Reader, i: nat)
    requires r < |readers|
    ensures Holds(readers[r := to], i) + Times(HeldBy(readers[r]), i) == Holds(readers, i) + Times(HeldBy(to), i)
  {
    var readers' := readers[r := to];
    if r == 0 {
      assert readers'[1..] == readers[1..];
    } else {
      HoldsUpdate(readers[1..], r - 1, to, i);
      assert readers'[1..] == readers[1..][r - 1 := to];
    }
  }

  lemma {:induction false} FetchesUpdate(fetchers: seq<Fetcher>, f: nat, to: Fetcher, i: nat)
    requires f < |fetchers|
    ensures Fetches(fetchers[f := to], i) + Times(FetchedBy(fetchers[f]), i) ==
            Fetches(fetchers, i) + Times(FetchedBy(to), i)
  {
    var fetchers' := fetchers[f := to];
    if f == 0 {
      assert fetchers'[1..] == fetchers[1..];
    } else {
      FetchesUpdate(fetchers[1..], f - 1, to, i);
      assert fetchers'[1..] == fetchers[1..][f - 1 := to];
    }
  }

  lemma {:induction false} TimesAt(held: seq<nat>, j: nat)
    requires j < |held|
    ensures Times(held, held[j]) >= 1
  {
    if j > 0 {
      TimesAt(held[1..], j - 1);
    }
  }

  lemma {:induction false} HoldsAt(readers: seq<Reader>, r: nat, i: nat)
    requires r < |readers|
    ensures Holds(readers, i) >= Times(HeldBy(readers[r]), i)
  {
    if r > 0 {
      HoldsAt(readers[1..], r - 1, i);
    }
  }

  lemma {:induction false} FetchesAt(fetchers: seq<Fetcher>, f: nat, i: nat)
    requires f < |fetchers|
    ensures Fetches(fetchers, i) >= Times(FetchedBy(fetchers[f]), i)
  {
    if f > 0 {
      FetchesAt(fetchers[1..], f - 1, i);
    }
  }

  lemma {:induction false} FetchesTwo(fetchers: seq<Fetcher>, f: nat, g: nat, i: nat)
    requires f < g < |fetchers|
    ensures Fetches(fetchers, i) >= Times(FetchedBy(fetchers[f]), i) + Times(FetchedBy(fetchers[g]), i)
  {
    if f > 0 {
      FetchesTwo(fetchers[1..], f - 1, g - 1, i);
    } else {
      FetchesAt(fetchers[1..], g - 1, i);
    }
  }

  // ---- the invariant ----

  /** The reference count of a slot is the number of times it is held, by readers and by fetchers. */
  ghost predicate RefsExact(s: System) {
    forall i :: 0 <= i < |s.slots| ==> s.slots[i].refCount == Holds(s.readers, i) + Fetches(s.fetchers, i)
  }

  /** A slot is downloading exactly when one fetcher has it, and then just one. */
  ghost predicate OneFetcher(s: System) {
    forall i :: 0 <= i < |s.slots| ==> Fetches(s.fetchers, i) == if s.slots[i].state.Downloading? then 1 else 0
  }

  /** No two slots in use are about the same block. */
  ghost predicate KeysUnique(slots: seq<Slot>) {
    && (forall i, j :: 0 <= i < j < |slots| && !slots[i].state.Clean? && !slots[j].state.Clean? ==>
        slots[i].key != slots[j].key)
    && (forall i :: 0 <= i < |slots| ==> (slots[i].state.Clean? <==> slots[i].key.path == []))
  }

  ghost predicate IsPadded(b: seq<u8>, data: seq<u8>) {
    |data| <= CACHE_BLOCK_SIZE && b == Padded(data)
  }

  /** A completed slot holds the contents of its block. */
  ghost predicate BuffersRight(content: Contents, slots: seq<Slot>) {
    && (forall i :: 0 <= i < |slots| ==> |slots[i].buffer| == CACHE_BLOCK_SIZE)
    && (forall i :: 0 <= i < |slots| && slots[i].state.Completed? ==> IsPadded(slots[i].buffer, content(slots[i].key)))
  }

  /** The 512 bytes that a request is after. */
  ghost function Wanted(content: Contents, q: Request): seq<u8>
    requires GoodRequest(q) && Prefetched(q) && GoodContents(content)
  {
    OwnBlock(q);
    Padded(content(BlockKey(q, 0)))[q.offset % CACHE_BLOCK_SIZE..q.offset % CACHE_BLOCK_SIZE + BYTES_PER_SECTOR]
  }

  lemma OwnBlock(q: Request)
    requires GoodRequest(q) && Prefetched(q)
    ensures PrefetchCount(q.offset, q.fileSize) >= 1
    ensures q.offset % CACHE_BLOCK_SIZE + BYTES_PER_SECTOR <= CACHE_BLOCK_SIZE
    ensures BlockKey(q, 0) == Key(q.path, q.rev, BlockOffset(q.offset))
  {
    PrefetchAtLeastOne(q.offset, q.fileSize);
    var at, k := q.offset % CACHE_BLOCK_SIZE, q.offset / BYTES_PER_SECTOR;
    assert q.offset == BYTES_PER_SECTOR * k && at == BYTES_PER_SECTOR * (k % 4096);
  }

  /** The slots held are those of the last blocks of the request, in order, and they are in use. */
  ghost predicate HoldsBlocks(slots: seq<Slot>, q: Request, held: seq<nat>) {
    && GoodRequest(q) && |held| <= PrefetchCount(q.offset, q.fileSize)
    && forall j :: 0 <= j < |held| ==>
         held[j] < |slots| && slots[held[j]].key == BlockKey(q, PrefetchCount(q.offset, q.fileSize) - |held| + j)
  }

  ghost predicate HoldsAll(slots: seq<Slot>, q: Request, held: seq<nat>) {
    HoldsBlocks(slots, q, held) && |held| == PrefetchCount(q.offset, q.fileSize) && held != []
  }

  /** All blocks of the request are held, its own first; a request without blocks holds nothing. */
  ghost predicate HoldsMine(slots: seq<Slot>, q: Request, held: seq<nat>) {
    GoodRequest(q) && if Prefetched(q) then HoldsAll(slots, q, held) else held == []
  }

  /** What a call that returned 0 has in its buffer, if any block was scheduled for it. */
  ghost predicate Delivers(content: Contents, q: Request, ret: int, buf: seq<u8>)
    requires GoodContents(content)
  {
    GoodRequest(q) && (Prefetched(q) && ret == 0 ==> buf == Wanted(content, q))
  }

  ghost predicate ReaderOk(content: Contents, slots: seq<Slot>, r: Reader)
    requires GoodContents(content)
  {
    match r
    case Idle => true
    case Scheduling(q, held) => HoldsBlocks(slots, q, held) && Prefetched(q) && Remaining(q, held) > 0
    case Polling(q, held) => HoldsMine(slots, q, held)
    case Checking(q, held) => HoldsMine(slots, q, held)
    case Copying(q, held, buf) =>
      && HoldsMine(slots, q, held) && |buf| < BYTES_PER_SECTOR
      && (Prefetched(q) ==> slots[held[0]].state.Completed? && buf <= Wanted(content, q))
    case Releasing(q, held, ret, buf) =>
      |held| <= 2 && (forall j :: 0 <= j < |held| ==> held[j] < |slots|) && Delivers(content, q, ret, buf)
    case Returned(q, ret, buf) => Delivers(content, q, ret, buf)
  }

  ghost predicate FetcherOk(content: Contents, slots: seq<Slot>, f: Fetcher) {
    match f
    case Waiting => true
    case Fetching(i) => i < |slots|
    case Writing(i, data) => i < |slots| && data == content(slots[i].key)
    case Written(i, ok) => i < |slots| && (ok ==> IsPadded(slots[i].buffer, content(slots[i].key)))
  }

  ghost predicate Inv(content: Contents, s: System)
    requires GoodContents(content)
  {
    && RefsExact(s) && OneFetcher(s) && KeysUnique(s.slots) && BuffersRight(content, s.slots)
    && (forall r :: 0 <= r < |s.readers| ==> ReaderOk(content, s.slots, s.readers[r]))
    && (forall f :: 0 <= f < |s.fetchers| ==> FetcherOk(content, s.slots, s.fetchers[f]))
  }

  // ---- what a step must do to keep it ----

  /** The slot stays about its block, and a completed one keeps its buffer. */
  ghost predicate Stable(a: Slot, b: Slot) {
    b.key == a.key && (b.state.Clean? <==> a.state.Clean?) &&
        (a.state.Completed? ==> b.state.Completed? && b.buffer == a.buffer)
  }

  lemma ReaderStays(content: Contents, slots: seq<Slot>, slots': seq<Slot>, r: Reader)
    requires GoodContents(content) && ReaderOk(content, slots, r) && |slots'| == |slots|
    requires forall j :: 0 <= j < |HeldBy(r)| && HeldBy(r)[j] < |slots| ==>
             Stable(slots[HeldBy(r)[j]], slots'[HeldBy(r)[j]])
    ensures ReaderOk(content, slots', r)
  {
    hide Wanted, BlockKey, GoodContents, PrefetchCount;
    var held := HeldBy(r);
    assert forall j :: 0 <= j < |held| && held[j] < |slots| ==> Stable(slots[held[j]], slots'[held[j]]);
    if r.Copying? && Prefetched(r.q) {
      assert held[0] < |slots|;
    }
  }

  lemma FetcherStays(content: Contents, slots: seq<Slot>, slots': seq<Slot>, f: Fetcher)
    requires FetcherOk(content, slots, f) && |slots'| == |slots|
    requires forall i :: 0 <= i < |slots| && i in FetchedBy(f) ==>
             slots'[i].key == slots[i].key && slots'[i].buffer == slots[i].buffer
    ensures FetcherOk(content, slots', f)
  {
    hide IsPadded;
  }

  /** A step of reader `r`: only slots nobody holds may be taken over. */
  lemma ReaderMoves(content: Contents, s: System, s': System, r: nat, to: Reader)
    requires GoodContents(content) && Inv(content, s) && r < |s.readers| && |s'.slots| == |s.slots|
    requires s'.readers == s.readers[r := to] && s'.fetchers == s.fetchers
    requires forall i :: 0 <= i < |s.slots| ==>
      s'.slots[i].refCount + Times(HeldBy(s.readers[r]), i) == s.slots[i].refCount + Times(HeldBy(to), i)
    requires forall i :: 0 <= i < |s.slots| ==> (s'.slots[i].state.Downloading? <==> s.slots[i].state.Downloading?)
    requires forall i :: 0 <= i < |s.slots| && s.slots[i].refCount > 0 ==>
      Stable(s.slots[i], s'.slots[i]) && s'.slots[i].buffer == s.slots[i].buffer
    requires KeysUnique(s'.slots) && BuffersRight(content, s'.slots) && ReaderOk(content, s'.slots, to)
    ensures Inv(content, s')
  {
    hide KeysUnique, BuffersRight, ReaderOk, FetcherOk, Stable, Times, HeldBy;
    forall i | 0 <= i < |s.slots| ensures s'.slots[i].refCount == Holds(s'.readers, i) + Fetches(s'.fetchers, i) {
      HoldsUpdate(s.readers, r, to, i);
    }
    forall k | 0 <= k < |s'.readers| ensures ReaderOk(content, s'.slots, s'.readers[k]) {
      if k != r {
        HeldStable(content, s, s', k);
        ReaderStays(content, s.slots, s'.slots, s.readers[k]);
      }
    }
    forall f | 0 <= f < |s'.fetchers| ensures FetcherOk(content, s'.slots, s'.fetchers[f]) {
      FetchedStable(content, s, s', f);
      FetcherStays(content, s.slots, s'.slots, s.fetchers[f]);
    }
  }

  lemma HeldStable(content: Contents, s: System, s': System, k: nat)
    requires RefsExact(s) && |s'.slots| == |s.slots| && k < |s.readers|
    requires forall i :: 0 <= i < |s.slots| && s.slots[i].refCount > 0 ==> Stable(s.slots[i], s'.slots[i])
    ensures forall j :: 0 <= j < |HeldBy(s.readers[k])| && HeldBy(s.readers[k])[j] < |s.slots| ==>
      Stable(s.slots[HeldBy(s.readers[k])[j]], s'.slots[HeldBy(s.readers[k])[j]])
  {
    hide Stable, HeldBy;
    var held := HeldBy(s.readers[k]);
    forall j | 0 <= j < |held| && held[j] < |s.slots| ensures Stable(s.slots[held[j]], s'.slots[held[j]]) {
      TimesAt(held, j);
      HoldsAt(s.readers, k, held[j]);
    }
  }

  lemma FetchedStable(content: Contents, s: System, s': System, f: nat)
    requires RefsExact(s) && |s'.slots| == |s.slots| && f < |s.fetchers|
    requires forall i :: 0 <= i < |s.slots| && s.slots[i].refCount > 0 ==>
      Stable(s.slots[i], s'.slots[i]) && s'.slots[i].buffer == s.slots[i].buffer
    ensures forall i :: 0 <= i < |s.slots| && i in FetchedBy(s.fetchers[f]) ==>
      s'.slots[i].key == s.slots[i].key && s'.slots[i].buffer == s.slots[i].buffer
  {
    forall i | 0 <= i < |s.slots| && i in FetchedBy(s.fetchers[f]) ensures s.slots[i].refCount > 0 {
      FetchesAt(s.fetchers, f, i);
    }
  }

  function One(b: bool): nat { if b then 1 else 0 }

  /** A step of fetcher `f`: every slot stays about its block, and only its own slot is written. */
  lemma FetcherMoves(content: Contents, s: System, s': System, f: nat, to: Fetcher)
    requires GoodContents(content) && Inv(content, s) && f < |s.fetchers| && |s'.slots| == |s.slots|
    requires s'.fetchers == s.fetchers[f := to] && s'.readers == s.readers
    requires forall i :: 0 <= i < |s.slots| ==>
      && s'.slots[i].refCount + Times(FetchedBy(s.fetchers[f]), i) == s.slots[i].refCount + Times(FetchedBy(to), i)
      && One(s'.slots[i].state.Downloading?) + Times(FetchedBy(s.fetchers[f]), i) ==
         One(s.slots[i].state.Downloading?) + Times(FetchedBy(to), i)
    requires forall i :: 0 <= i < |s.slots| ==> Stable(s.slots[i], s'.slots[i])
    requires forall i :: 0 <= i < |s.slots| && i !in FetchedBy(s.fetchers[f]) ==>
             s'.slots[i].buffer == s.slots[i].buffer
    requires KeysUnique(s'.slots) && BuffersRight(content, s'.slots) && FetcherOk(content, s'.slots, to)
    ensures Inv(content, s')
  {
    hide KeysUnique, BuffersRight, ReaderOk, FetcherOk, Stable, Times, FetchedBy;
    forall i | 0 <= i < |s.slots|
      ensures s'.slots[i].refCount == Holds(s'.readers, i) + Fetches(s'.fetchers, i)
      ensures Fetches(s'.fetchers, i) == One(s'.slots[i].state.Downloading?)
    {
      FetchesUpdate(s.fetchers, f, to, i);
    }
    forall k | 0 <= k < |s'.readers| ensures ReaderOk(content, s'.slots, s'.readers[k]) {
      ReaderStays(content, s.slots, s'.slots, s.readers[k]);
    }
    forall g | 0 <= g < |s'.fetchers| ensures FetcherOk(content, s'.slots, s'.fetchers[g]) {
      if g != f {
        OtherSlot(s, s', f, g);
        FetcherStays(content, s.slots, s'.slots, s.fetchers[g]);
      }
    }
  }

  /** Two fetchers never have the same slot. */
  lemma OtherSlot(s: System, s': System, f: nat, g: nat)
    requires OneFetcher(s) && f < |s.fetchers| && g < |s.fetchers| && f != g && |s'.slots| == |s.slots|
    requires forall i :: 0 <= i < |s.slots| ==> Stable(s.slots[i], s'.slots[i])
    requires forall i :: 0 <= i < |s.slots| && i !in FetchedBy(s.fetchers[f]) ==>
             s'.slots[i].buffer == s.slots[i].buffer
    ensures forall i :: 0 <= i < |s.slots| && i in FetchedBy(s.fetchers[g]) ==>
      s'.slots[i].key == s.slots[i].key && s'.slots[i].buffer == s.slots[i].buffer
  {
    forall i | 0 <= i < |s.slots| && i in FetchedBy(s.fetchers[g]) ensures i !in FetchedBy(s.fetchers[f]) {
      FetchesTwo(s.fetchers, if f < g then f else g, if f < g then g else f, i);
    }
  }

  // ---- the steps of a reader ----

  lemma InitialInv(content: Contents, s: System)
    requires GoodContents(content) && Initial(s)
    ensures Inv(content, s)
  {
    forall i: nat ensures Holds(s.readers, i) == 0 && Fetches(s.fetchers, i) == 0 {
      NobodyHolds(s.readers, i);
      NobodyFetches(s.fetchers, i);
    }
  }

  lemma {:induction false} NobodyHolds(readers: seq<Reader>, i: nat)
    requires forall r :: 0 <= r < |readers| ==> readers[r] == Idle
    ensures Holds(readers, i) == 0
  {
    if readers != [] {
      NobodyHolds(readers[1..], i);
    }
  }

  lemma {:induction false} NobodyFetches(fetchers: seq<Fetcher>, i: nat)
    requires forall f :: 0 <= f < |fetchers| ==> fetchers[f] == Waiting
    ensures Fetches(fetchers, i) == 0
  {
    if fetchers != [] {
      NobodyFetches(fetchers[1..], i);
    }
  }

  /** A slot taken over or shared: the others stay, keys stay apart, buffers stay right. */
  lemma ScheduledSlots(content: Contents, slots: seq<Slot>, key: Key, now: int, index: nat, slots': seq<Slot>)
    requires KeysUnique(slots) && BuffersRight(content, slots) && ScheduledAs(slots, key, now, index, slots')
    requires key.path != []
    ensures |slots'| == |slots| && index < |slots| && slots'[index].key == key
    ensures forall i :: 0 <= i < |slots| ==> slots'[i].refCount == slots[i].refCount + (if i == index then 1 else 0)
    ensures forall i :: 0 <= i < |slots| && slots[i].refCount > 0 ==>
            Stable(slots[i], slots'[i]) && slots'[i].buffer == slots[i].buffer
    ensures forall i :: 0 <= i < |slots| && slots[i].refCount > 0 ==> slots'[i].state == slots[i].state
    ensures forall i :: 0 <= i < |slots| && slots'[i].state.Downloading? ==> slots[i].state.Downloading?
    ensures KeysUnique(slots') && BuffersRight(content, slots')
  {
    hide IsPadded;
    if Find(slots, key) == |slots| {
      assert forall i :: 0 <= i < |slots| ==> slots[i].key != key;
    }
  }

  /** A slot nobody holds is not downloading. */
  lemma FreeNotDownloading(s: System, i: nat)
    requires RefsExact(s) && OneFetcher(s) && i < |s.slots| && s.slots[i].refCount <= 0
    ensures !s.slots[i].state.Downloading?
  {
  }

  lemma HeldOneMore(slots: seq<Slot>, slots': seq<Slot>, q: Request, held: seq<nat>, index: nat)
    requires HoldsBlocks(slots, q, held) && Remaining(q, held) > 0 && |slots'| == |slots| && index < |slots|
    requires slots'[index].key == BlockKey(q, Remaining(q, held) - 1)
    requires forall j :: 0 <= j < |held| && held[j] < |slots| ==> slots'[held[j]].key == slots[held[j]].key
    ensures HoldsBlocks(slots', q, [index] + held)
  {
    hide BlockKey, PrefetchCount;
    var held' := [index] + held;
    forall j | 0 <= j < |held'|
      ensures held'[j] < |slots'|
      ensures slots'[held'[j]].key == BlockKey(q, PrefetchCount(q.offset, q.fileSize) - |held'| + j)
    {
      if j > 0 {
        assert held'[j] == held[j - 1];
      }
    }
  }

  lemma ScheduleKeeps(content: Contents, s: System, r: nat, now: int, index: nat, s': System)
    requires GoodContents(content) && Inv(content, s) && r < |s.readers| && s.readers[r].Scheduling?
    requires ScheduleStep(s, r, now, index, s')
    ensures Inv(content, s')
  {
    hide KeysUnique, BuffersRight, ScheduledAs, HoldsBlocks, RefsExact, OneFetcher, BlockKey, PrefetchCount, Find,
         Wanted;
    var Scheduling(q, held) := s.readers[r];
    var key := BlockKey(q, Remaining(q, held) - 1);
    if Find(s.slots, key) == |s.slots| && AllHeld(s.slots) {
      InvFrame(content, s, s');
    } else {
      KeyPath(q, Remaining(q, held) - 1);
      ScheduledSlots(content, s.slots, key, now, index, s'.slots);
      var held' := [index] + held;
      var to := if Remaining(q, held) == 1 then Polling(q, held') else Scheduling(q, held');
      assert HoldsBlocks(s.slots, q, held);
      HeldStable(content, s, s', r);
      assert held == HeldBy(s.readers[r]);
      HeldOneMore(s.slots, s'.slots, q, held, index);
      forall i | 0 <= i < |s.slots| ensures s'.slots[i].state.Downloading? <==> s.slots[i].state.Downloading? {
        if s.slots[i].refCount <= 0 {
          FreeNotDownloading(s, i);
        }
      }
      assert held'[1..] == held;
      ReaderMoves(content, s, s', r, to);
    }
  }

  lemma KeyPath(q: Request, i: nat)
    requires GoodRequest(q) && i < PrefetchCount(q.offset, q.fileSize)
    ensures BlockKey(q, i).path != []
  {
  }

  lemma InvFrame(content: Contents, s: System, s': System)
    requires GoodContents(content) && Inv(content, s) && s' == s.(aborted := true)
    ensures Inv(content, s')
  {
  }

  /** A step of a reader that touches no slot. */
  lemma QuietReader(content: Contents, s: System, r: nat, to: Reader)
    requires GoodContents(content) && Inv(content, s) && r < |s.readers|
    requires HeldBy(to) == HeldBy(s.readers[r]) && ReaderOk(content, s.slots, to)
    ensures Inv(content, WithReader(s, r, to))
  {
    hide KeysUnique, BuffersRight, ReaderOk, RefsExact, OneFetcher;
    ReaderMoves(content, s, WithReader(s, r, to), r, to);
  }

  lemma CheckKeeps(content: Contents, s: System, r: nat, s': System)
    requires GoodContents(content) && Inv(content, s) && ReaderStep(s, Check(r), s')
    ensures Inv(content, s')
  {
    hide KeysUnique, BuffersRight, RefsExact, OneFetcher, BlockKey, Wanted;
    var Checking(q, held) := s.readers[r];
    TwoBlocks(q);
    var to := if s.slots[Polled(held)].state.Completed? then Copying(q, held, []) else Releasing(q, held, -1, []);
    assert ReaderOk(content, s.slots, s.readers[r]);
    QuietReader(content, s, r, to);
  }

  lemma TwoBlocks(q: Request)
    ensures PrefetchCount(q.offset, q.fileSize) <= 2
  {
  }

  /** Byte `n` of a completed slot is byte `n` of what is wanted. */
  lemma ByteWanted(content: Contents, slots: seq<Slot>, q: Request, held: seq<nat>, n: nat)
    requires GoodContents(content) && BuffersRight(content, slots) && HoldsAll(slots, q, held) && Prefetched(q)
    requires slots[held[0]].state.Completed?
    requires n < BYTES_PER_SECTOR
    ensures |Wanted(content, q)| == BYTES_PER_SECTOR
    ensures var at := q.offset % CACHE_BLOCK_SIZE + n;
            at < |slots[held[0]].buffer| && slots[held[0]].buffer[at] == Wanted(content, q)[n]
  {
    hide BlockKey, Padded;
    OwnBlock(q);
  }

  lemma CopyKeeps(content: Contents, s: System, r: nat, s': System)
    requires GoodContents(content) && Inv(content, s) && ReaderStep(s, CopyByte(r), s')
    ensures Inv(content, s')
  {
    hide KeysUnique, BuffersRight, RefsExact, OneFetcher, BlockKey, Wanted, PrefetchCount;
    var Copying(q, held, buf) := s.readers[r];
    assert ReaderOk(content, s.slots, s.readers[r]);
    TwoBlocks(q);
    var buf' := buf + [s.slots[Polled(held)].buffer[q.offset % CACHE_BLOCK_SIZE + |buf|]];
    if Prefetched(q) {
      ByteWanted(content, s.slots, q, held, |buf|);
      assert buf' <= Wanted(content, q);
    }
    var to := if |buf'| == BYTES_PER_SECTOR then Releasing(q, held, 0, buf') else Copying(q, held, buf');
    QuietReader(content, s, r, to);
  }

  lemma ReleaseKeeps(content: Contents, s: System, r: nat, s': System)
    requires GoodContents(content) && Inv(content, s) && ReaderStep(s, Release(r), s')
    ensures Inv(content, s')
  {
    hide RefsExact, OneFetcher, IsPadded, Wanted;
    var Releasing(q, held, ret, buf) := s.readers[r];
    assert ReaderOk(content, s.slots, s.readers[r]);
    ReaderMoves(content, s, s', r, Releasing(q, held[1..], ret, buf));
  }

  lemma ReaderKeeps(content: Contents, s: System, step: Step, s': System)
    requires GoodContents(content) && Inv(content, s) && ReaderStep(s, step, s')
    ensures Inv(content, s')
  {
    hide KeysUnique, BuffersRight, RefsExact, OneFetcher, ScheduleStep, HoldsBlocks, Wanted, BlockKey;
    match step
    case Call(r, q) =>
      NoBlocks(s.slots, q);
      QuietReader(content, s, r, Started(q));
    case Schedule(r, now, index) => ScheduleKeeps(content, s, r, now, index, s');
    case StopPolling(r) => QuietReader(content, s, r, Checking(s.readers[r].q, s.readers[r].held));
    case Check(r) => CheckKeeps(content, s, r, s');
    case CopyByte(r) => CopyKeeps(content, s, r, s');
    case Release(r) => ReleaseKeeps(content, s, r, s');
    case Return(r) => QuietReader(content, s, r, Returned(s.readers[r].q, s.readers[r].ret, s.readers[r].buf));
    case _ =>
  }

  lemma NoBlocks(slots: seq<Slot>, q: Request)
    requires GoodRequest(q)
    ensures Prefetched(q) ==> HoldsBlocks(slots, q, []) && Remaining(q, []) > 0
    ensures Prefetched(q) <==> Started(q) == Scheduling(q, [])
  {
    PrefetchAtLeastOne(q.offset, q.fileSize);
  }

  // ---- the steps of a fetcher ----

  lemma PickKeeps(content: Contents, s: System, f: nat, index: nat, s': System)
    requires GoodContents(content) && Inv(content, s) && FetcherStep(content, s, Pick(f, index), s')
    ensures Inv(content, s')
  {
    hide RefsExact, OneFetcher, IsPadded, ReaderOk;
    FetcherMoves(content, s, s', f, Fetching(index));
  }

  /** The slot of a fetcher is downloading. */
  lemma FetcherHas(s: System, f: nat, i: nat)
    requires OneFetcher(s) && f < |s.fetchers| && i < |s.slots| && FetchedBy(s.fetchers[f]) == [i]
    ensures s.slots[i].state.Downloading?
  {
    FetchesAt(s.fetchers, f, i);
    assert Times([i], i) == 1;
  }

  lemma DownloadKeeps(content: Contents, s: System, f: nat, ok: bool, s': System)
    requires GoodContents(content) && Inv(content, s) && FetcherStep(content, s, Download(f, ok), s')
    ensures Inv(content, s')
  {
    hide RefsExact, OneFetcher, IsPadded, ReaderOk, KeysUnique, BuffersRight;
    var i := s.fetchers[f].slot;
    FetcherMoves(content, s, s', f, if ok then Writing(i, content(s.slots[i].key)) else Written(i, false));
  }

  lemma WriteKeeps(content: Contents, s: System, f: nat, b: seq<u8>, to: Fetcher, s': System)
    requires GoodContents(content) && Inv(content, s) && f < |s.fetchers| && s.fetchers[f].Writing?
    requires s.fetchers[f].slot < |s.slots|
    requires |b| == CACHE_BLOCK_SIZE && FetchedBy(to) == FetchedBy(s.fetchers[f])
    requires s' == WithFetcher(s, f, to).(slots := Filled(s.slots, s.fetchers[f].slot, b))
    requires FetcherOk(content, s'.slots, to)
    ensures Inv(content, s')
  {
    hide RefsExact, OneFetcher, IsPadded, ReaderOk, FetcherOk;
    FetcherHas(s, f, s.fetchers[f].slot);
    FetcherMoves(content, s, s', f, to);
  }

  lemma FinishKeeps(content: Contents, s: System, f: nat, s': System)
    requires GoodContents(content) && Inv(content, s) && FetcherStep(content, s, Finish(f), s')
    ensures Inv(content, s')
  {
    hide RefsExact, OneFetcher, IsPadded, ReaderOk;
    FetcherHas(s, f, s.fetchers[f].slot);
    assert FetcherOk(content, s.slots, s.fetchers[f]);
    FetcherMoves(content, s, s', f, Waiting);
  }

  lemma FetcherKeeps(content: Contents, s: System, step: Step, s': System)
    requires GoodContents(content) && Inv(content, s) && FetcherStep(content, s, step, s')
    ensures Inv(content, s')
  {
    hide KeysUnique, BuffersRight, RefsExact, OneFetcher, ReaderOk;
    match step
    case Pick(f, index) => PickKeeps(content, s, f, index, s');
    case Download(f, ok) => DownloadKeeps(content, s, f, ok, s');
    case WriteSome(f, b) =>
      assert FetcherOk(content, s.slots, s.fetchers[f]);
      assert s' == WithFetcher(s, f, s.fetchers[f]).(slots := Filled(s.slots, s.fetchers[f].slot, b));
      WriteKeeps(content, s, f, b, s.fetchers[f], s');
    case WriteRest(f) =>
      var Writing(i, data) := s.fetchers[f];
      assert FetcherOk(content, s.slots, s.fetchers[f]);
      WriteKeeps(content, s, f, Padded(data), Written(i, true), s');
    case Finish(f) => FinishKeeps(content, s, f, s');
    case _ =>
  }

  // ---- all runs ----

  /** Every state of every run keeps the invariant. */
  lemma {:induction false} RunKeeps(content: Contents, states: seq<System>, steps: seq<Step>, n: nat)
    requires GoodContents(content) && Run(content, states, steps) && n < |states|
    ensures Inv(content, states[n])
  {
    hide Inv, ReaderStep, FetcherStep;
    if n == 0 {
      InitialInv(content, states[0]);
    } else {
      RunKeeps(content, states, steps, n - 1);
      assert Next(content, states[n - 1], steps[n - 1], states[n - 1 + 1]);
      if ReaderStep(states[n - 1], steps[n - 1], states[n]) {
        ReaderKeeps(content, states[n - 1], steps[n - 1], states[n]);
      } else {
        FetcherKeeps(content, states[n - 1], steps[n - 1], states[n]);
      }
    }
  }

  /** Downloads of `file`, block by block; nothing is said of a range that ends before it starts. */
  ghost predicate Serves(content: Contents, path: seq<u8>, rev: seq<u8>, file: seq<u8>) {
    forall b: u32 :: b < |file| && b % CACHE_BLOCK_SIZE == 0 && b < RangeEnd(b) ==>
      content(Key(path, rev, b)) == file[b..if RangeEnd(b) < |file| then RangeEnd(b) else |file|]
  }

  /** A call is answered with 0 and 512 bytes, or with -1 and none. */
  ghost predicate Answer(r: Reader) {
    match r
    case Copying(_, _, buf) => |buf| < 512
    case Releasing(_, _, ret, buf) => (ret == 0 && |buf| == 512) || (ret == -1 && buf == [])
    case Returned(_, ret, buf) => (ret == 0 && |buf| == 512) || (ret == -1 && buf == [])
    case _ => true
  }

  lemma AnswerKept(content: Contents, s: System, step: Step, s': System)
    requires forall r :: 0 <= r < |s.readers| ==> Answer(s.readers[r])
    requires ReaderStep(s, step, s') || FetcherStep(content, s, step, s')
    ensures forall r :: 0 <= r < |s'.readers| ==> Answer(s'.readers[r])
  {
    hide BlockKey, ScheduledAs, AllHeld, Find, NextFetched;
  }

  /** So it is in every run, for every call. */
  lemma {:induction false} RunAnswers(content: Contents, states: seq<System>, steps: seq<Step>, n: nat)
    requires Run(content, states, steps) && n < |states|
    ensures forall r :: 0 <= r < |states[n].readers| ==> Answer(states[n].readers[r])
  {
    hide Answer, ReaderStep, FetcherStep;
    if n == 0 {
      NoAnswers(states[0]);
    } else {
      RunAnswers(content, states, steps, n - 1);
      assert Next(content, states[n - 1], steps[n - 1], states[n - 1 + 1]);
      AnswerKept(content, states[n - 1], steps[n - 1], states[n]);
    }
  }

  lemma NoAnswers(s: System)
    requires Initial(s)
    ensures forall r :: 0 <= r < |s.readers| ==> Answer(s.readers[r])
  {
  }

  /** Cache transparency: in every run, a call that returned 0 has delivered the 512 bytes of that revision of
      the file at the offset asked for, with zeros past its end, provided that a block was scheduled for it and that
      it does not lie in the last 2^21 bytes below 2^32. */
  lemma ReadsTheFile(content: Contents, states: seq<System>, steps: seq<Step>, n: nat, r: nat, file: seq<u8>)
    requires GoodContents(content) && Run(content, states, steps) && n < |states| && r < |states[n].readers|
    requires states[n].readers[r].Returned? && states[n].readers[r].ret == 0
    requires var q := states[n].readers[r].q; Serves(content, q.path, q.rev, file) && |file| == q.fileSize
    ensures var Returned(q, _, buf) := states[n].readers[r];
            && GoodRequest(q)
            && (Prefetched(q) ==> |buf| == BYTES_PER_SECTOR)
            && (Prefetched(q) && q.offset < MAX_CACHED ==>
                  forall i :: 0 <= i < BYTES_PER_SECTOR ==>
                    buf[i] == if q.offset + i < |file| then file[q.offset + i] else 0)
  {
    hide Run, RefsExact, OneFetcher, KeysUnique, BuffersRight;
    RunKeeps(content, states, steps, n);
    assert ReaderOk(content, states[n].slots, states[n].readers[r]);
    if Prefetched(states[n].readers[r].q) {
      WantedIsFile(content, states[n].readers[r].q, file);
    }
  }

  lemma WantedIsFile(content: Contents, q: Request, file: seq<u8>)
    requires GoodContents(content) && GoodRequest(q) && Prefetched(q)
    requires Serves(content, q.path, q.rev, file) && |file| == q.fileSize
    ensures |Wanted(content, q)| == BYTES_PER_SECTOR
    ensures q.offset < MAX_CACHED ==>
              forall i :: 0 <= i < BYTES_PER_SECTOR ==>
                Wanted(content, q)[i] == if q.offset + i < |file| then file[q.offset + i] else 0
  {
    hide RangeEnd, Padded, Serves;
    OwnBlock(q);
    if q.offset < MAX_CACHED {
      OwnData(content, q, file);
      var b := BlockOffset(q.offset);
      assert q.offset == b + q.offset % CACHE_BLOCK_SIZE;
      BlockBytes(file, content(BlockKey(q, 0)), b, q.offset - b, Wanted(content, q));
    }
  }

  /** What is downloaded for the request's own block is that part of the file. */
  lemma OwnData(content: Contents, q: Request, file: seq<u8>)
    requires GoodRequest(q) && Prefetched(q) && q.offset < MAX_CACHED
    requires Serves(content, q.path, q.rev, file) && |file| == q.fileSize
    ensures PrefetchCount(q.offset, q.fileSize) >= 1
    ensures var b := BlockOffset(q.offset);
            content(BlockKey(q, 0)) == file[b..if b + CACHE_BLOCK_SIZE < |file| then b + CACHE_BLOCK_SIZE else |file|]
  {
    hide RangeEnd;
    OwnBlock(q);
    RangeWraps(q.offset);
    var b := BlockOffset(q.offset);
    assert b % CACHE_BLOCK_SIZE == 0 && b < |file| && b < RangeEnd(b);
  }

  lemma PaddedByte(data: seq<u8>, k: nat)
    requires |data| <= CACHE_BLOCK_SIZE && k < CACHE_BLOCK_SIZE
    ensures Padded(data)[k] == if k < |data| then data[k] else 0
  {
  }

  lemma BlockBytes(file: seq<u8>, data: seq<u8>, b: nat, at: nat, sector: seq<u8>)
    requires b <= |file| && at + BYTES_PER_SECTOR <= CACHE_BLOCK_SIZE && |data| <= CACHE_BLOCK_SIZE
    requires data == file[b..if b + CACHE_BLOCK_SIZE < |file| then b + CACHE_BLOCK_SIZE else |file|]
    requires sector == Padded(data)[at..at + BYTES_PER_SECTOR]
    ensures forall i :: 0 <= i < BYTES_PER_SECTOR ==>
              sector[i] == if b + at + i < |file| then file[b + at + i] else 0
  {
    hide Padded;
    forall i | 0 <= i < BYTES_PER_SECTOR
      ensures sector[i] == if b + at + i < |file| then file[b + at + i] else 0
    {
      PaddedByte(data, at + i);
    }
  }
}
