/** Readers and fetcher threads over the file cache, as a transition system (dbfiles.c). */
module CacheSystem {
  import opened Words
  import opened BlockCache
  import Layout

  /** A call of read_sector_from_cache. */
  datatype Request = Request(path: seq<u8>, rev: seq<u8>, offset: u32, fileSize: u32)

  /** With at most so many bytes left the sums over block offsets stay inside uint32_t. */
  const MAX_CACHED := 0x1_0000_0000 - CACHE_BLOCK_SIZE

  predicate GoodRequest(q: Request) {
    q.path != [] && q.offset % Layout.BYTES_PER_SECTOR == 0 && q.offset < q.fileSize
  }

  /** prefetch_count, in uint32_t arithmetic */
  function PrefetchCount(offset: u32, fileSize: u32): nat {
    var n := Sub32(Add32(Sub32(fileSize, offset), CACHE_BLOCK_SIZE), 1) / CACHE_BLOCK_SIZE;
    if n > MAX_BLOCK_PREFETCH then MAX_BLOCK_PREFETCH else n
  }

  /** Some block is scheduled exactly when the bytes left are at most 2^32 - 2^21; otherwise the sum wraps and
      slot 0 is read without being held. */
  lemma PrefetchAtLeastOne(offset: u32, fileSize: u32)
    requires offset < fileSize
    ensures PrefetchCount(offset, fileSize) >= 1 <==> fileSize - offset <= MAX_CACHED
  {
    var left := fileSize - offset;
    var sum := left + CACHE_BLOCK_SIZE;
    assert Sub32(fileSize, offset) == left;
    assert Add32(left, CACHE_BLOCK_SIZE) == if sum < TWO_32 then sum else sum - TWO_32;
  }

  /** The blocks from the one of the offset on to the end of the file, but at most two; none when more than
      2^32 - 2^21 bytes are left. */
  lemma PrefetchIs(offset: u32, fileSize: u32)
    requires offset < fileSize
    ensures var left := fileSize - offset;
            PrefetchCount(offset, fileSize) ==
            if left > 0xFFE0_0000 then 0 else if left <= 0x20_0000 then 1 else 2
  {
    var left := fileSize - offset;
    var sum := left + CACHE_BLOCK_SIZE;
    assert Sub32(fileSize, offset) == left;
    assert Add32(left, CACHE_BLOCK_SIZE) == if sum < TWO_32 then sum else sum - TWO_32;
  }

  /** Key of the `i`-th block that a request schedules. */
  function BlockKey(q: Request, i: nat): Key
    requires GoodRequest(q) && i < PrefetchCount(q.offset, q.fileSize)
  {
    BlockInRange(q, i);
    Key(q.path, q.rev, BlockOffset(q.offset + CACHE_BLOCK_SIZE * i))
  }

  lemma BlockInRange(q: Request, i: nat)
    requires GoodRequest(q) && i < PrefetchCount(q.offset, q.fileSize)
    ensures q.offset + CACHE_BLOCK_SIZE * i < q.fileSize
    ensures i < 2
  {
    PrefetchAtLeastOne(q.offset, q.fileSize);
    var left := q.fileSize - q.offset;
    assert Sub32(q.fileSize, q.offset) == left;
    assert Sub32(Add32(left, CACHE_BLOCK_SIZE), 1) == left + CACHE_BLOCK_SIZE - 1;
  }

  /** Some block is scheduled for the request. */
  predicate Prefetched(q: Request)
    requires GoodRequest(q)
  {
    q.fileSize - q.offset <= MAX_CACHED
  }

  /** The slot a reader waits for and copies from: its own block, or slot 0 when it has scheduled none. */
  function Polled(held: seq<nat>): nat {
    if held == [] then 0 else held[0]
  }

  /** Where a reader stands; `held` are the slots it has scheduled, the one of its own block first once all are.
      Blocks are scheduled from the last to the first. */
  datatype Reader =
    | Idle
    | Scheduling(q: Request, held: seq<nat>)
    | Polling(q: Request, held: seq<nat>)
    | Checking(q: Request, held: seq<nat>)
    | Copying(q: Request, held: seq<nat>, buf: seq<u8>)
    | Releasing(q: Request, held: seq<nat>, ret: int, buf: seq<u8>)
    | Returned(q: Request, ret: int, buf: seq<u8>)

  datatype Fetcher =
    | Waiting
    | Fetching(slot: nat)
    | Writing(slot: nat, data: seq<u8>)
    | Written(slot: nat, ok: bool)

  datatype System = System(slots: seq<Slot>, readers: seq<Reader>, fetchers: seq<Fetcher>, aborted: bool)

  /** End of the range that is asked for when a block is downloaded. */
  function RangeEnd(block: u32): u32 {
    Add32(block, CACHE_BLOCK_SIZE)
  }

  /** That end wraps to zero for the last block below 2^32, and for no other. */
  lemma RangeWraps(offset: u32)
    ensures RangeEnd(BlockOffset(offset)) == 0 <==> offset >= MAX_CACHED
    ensures offset < MAX_CACHED ==> RangeEnd(BlockOffset(offset)) == BlockOffset(offset) + CACHE_BLOCK_SIZE
  {
    var k := offset / CACHE_BLOCK_SIZE;
    assert BlockOffset(offset) == CACHE_BLOCK_SIZE * k;
    assert CACHE_BLOCK_SIZE * 2048 == TWO_32;
  }

  /** What a download of a block delivers, when it does not fail. */
  type Contents = Key -> seq<u8>

  /** A block as it ends up in a buffer: zeros behind what was downloaded. */
  function Padded(data: seq<u8>): (b: seq<u8>)
    requires |data| <= CACHE_BLOCK_SIZE
    ensures |b| == CACHE_BLOCK_SIZE
  {
    data + Zeros(CACHE_BLOCK_SIZE - |data|)
  }

  ghost predicate GoodContents(content: Contents) {
    forall k :: |content(k)| <= CACHE_BLOCK_SIZE
  }

  /** The slots a thread holds. */
  function HeldBy(r: Reader): seq<nat> {
    match r
    case Idle => []
    case Scheduling(_, held) => held
    case Polling(_, held) => held
    case Checking(_, held) => held
    case Copying(_, held, _) => held
    case Releasing(_, held, _, _) => held
    case Returned(_, _, _) => []
  }

  function FetchedBy(f: Fetcher): seq<nat> {
    match f
    case Waiting => []
    case Fetching(s) => [s]
    case Writing(s, _) => [s]
    case Written(s, _) => [s]
  }

  /** One atomic step, with its nondeterministic choices. */
  datatype Step =
    | Call(r: nat, q: Request)
    | Schedule(r: nat, now: int, index: nat)
    | StopPolling(r: nat)
    | Check(r: nat)
    | CopyByte(r: nat)
    | Release(r: nat)
    | Return(r: nat)
    | Pick(f: nat, index: nat)
    | Download(f: nat, ok: bool)
    | WriteSome(f: nat, b: seq<u8>)
    | WriteRest(f: nat)
    | Finish(f: nat)

  function WithReader(s: System, r: nat, to: Reader): System
    requires r < |s.readers|
  {
    s.(readers := s.readers[r := to])
  }

  function WithFetcher(s: System, f: nat, to: Fetcher): System
    requires f < |s.fetchers|
  {
    s.(fetchers := s.fetchers[f := to])
  }

  /** How many more blocks a scheduling reader has to schedule. */
  function Remaining(q: Request, held: seq<nat>): int {
    PrefetchCount(q.offset, q.fileSize) - |held|
  }

  /** A call goes on to schedule its blocks, or, when there are none, to wait for slot 0. */
  function Started(q: Request): Reader {
    if PrefetchCount(q.offset, q.fileSize) == 0 then Polling(q, []) else Scheduling(q, [])
  }

  // ---- the steps ----

  /** schedule_sector for the next block; a failed search aborts the process. */
  ghost predicate ScheduleStep(s: System, r: nat, now: int, index: nat, s': System)
    requires r < |s.readers| && s.readers[r].Scheduling?
  {
    var Scheduling(q, held) := s.readers[r];
    && GoodRequest(q) && Remaining(q, held) > 0
    && var key := BlockKey(q, Remaining(q, held) - 1);
       if Find(s.slots, key) == |s.slots| && AllHeld(s.slots) then s' == s.(aborted := true)
       else
         && ScheduledAs(s.slots, key, now, index, s'.slots)
         && s' == WithReader(s, r, if Remaining(q, held) == 1 then Polling(q, [index] + held)
             else Scheduling(q, [index] + held))
                  .(slots := s'.slots)
  }

  ghost predicate ReaderStep(s: System, step: Step, s': System) {
    match step
    case Call(r, q) =>
      r < |s.readers| && (s.readers[r].Idle? || s.readers[r].Returned?) && GoodRequest(q) &&
          s' == WithReader(s, r, Started(q))
    case Schedule(r, now, index) =>
      r < |s.readers| && s.readers[r].Scheduling? && ScheduleStep(s, r, now, index, s')
    case StopPolling(r) =>
      r < |s.readers| && s.readers[r].Polling? && s' == WithReader(s, r, Checking(s.readers[r].q, s.readers[r].held))
    case Check(r) =>
      && r < |s.readers| && s.readers[r].Checking? && Polled(s.readers[r].held) < |s.slots|
      && var Checking(q, held) := s.readers[r];
         s' == WithReader(s, r, if s.slots[Polled(held)].state.Completed? then Copying(q, held, [])
             else Releasing(q, held, -1, []))
    case CopyByte(r) =>
      && r < |s.readers| && s.readers[r].Copying? && Polled(s.readers[r].held) < |s.slots|
      && var Copying(q, held, buf) := s.readers[r];
         var slot, at := s.slots[Polled(held)], q.offset % CACHE_BLOCK_SIZE + |buf|;
         && |buf| < Layout.BYTES_PER_SECTOR && at < |slot.buffer|
         && var buf' := buf + [slot.buffer[at]];
            s' == WithReader(s, r, if |buf'| == Layout.BYTES_PER_SECTOR then Releasing(q, held, 0, buf')
                else Copying(q, held, buf'))
    case Release(r) =>
      && r < |s.readers| && s.readers[r].Releasing? && s.readers[r].held != [] && s.readers[r].held[0] < |s.slots|
      && var Releasing(q, held, ret, buf) := s.readers[r];
         s' == WithReader(s, r, Releasing(q, held[1..], ret, buf)).(slots := Released(s.slots, held[0]))
    case Return(r) =>
      && r < |s.readers| && s.readers[r].Releasing? && s.readers[r].held == []
      && s' == WithReader(s, r, Returned(s.readers[r].q, s.readers[r].ret, s.readers[r].buf))
    case _ => false
  }

  ghost predicate FetcherStep(content: Contents, s: System, step: Step, s': System) {
    match step
    case Pick(f, index) =>
      && f < |s.fetchers| && s.fetchers[f].Waiting? && NextFetched(s.slots, index)
      && s' == WithFetcher(s, f, Fetching(index)).(slots := Picked(s.slots, index))
    case Download(f, ok) =>
      && f < |s.fetchers| && s.fetchers[f].Fetching? && s.fetchers[f].slot < |s.slots|
      && var i := s.fetchers[f].slot;
         s' == WithFetcher(s, f, if ok then Writing(i, content(s.slots[i].key)) else Written(i, false))
    case WriteSome(f, b) =>
      && f < |s.fetchers| && s.fetchers[f].Writing? && s.fetchers[f].slot < |s.slots| && |b| == CACHE_BLOCK_SIZE
      && s' == s.(slots := Filled(s.slots, s.fetchers[f].slot, b))
    case WriteRest(f) =>
      && f < |s.fetchers| && s.fetchers[f].Writing? && s.fetchers[f].slot < |s.slots| &&
          |s.fetchers[f].data| <= CACHE_BLOCK_SIZE
      && var Writing(i, data) := s.fetchers[f];
         s' == WithFetcher(s, f, Written(i, true)).(slots := Filled(s.slots, i, Padded(data)))
    case Finish(f) =>
      && f < |s.fetchers| && s.fetchers[f].Written? && s.fetchers[f].slot < |s.slots|
      && var Written(i, ok) := s.fetchers[f];
         s' == WithFetcher(s, f, Waiting).(slots := Finished(s.slots, i, ok))
    case _ => false
  }

  ghost predicate Next(content: Contents, s: System, step: Step, s': System) {
    !s.aborted && (ReaderStep(s, step, s') || FetcherStep(content, s, step, s'))
  }

  ghost predicate Initial(s: System) {
    && !s.aborted
    && (forall i :: 0 <= i < |s.slots| ==> s.slots[i] == FreshSlot())
    && (forall r :: 0 <= r < |s.readers| ==> s.readers[r] == Idle)
    && (forall f :: 0 <= f < |s.fetchers| ==> s.fetchers[f] == Waiting)
  }

  /** A run of the system: any number of threads, interleaved in any way. */
  ghost predicate Run(content: Contents, states: seq<System>, steps: seq<Step>) {
    && |states| == |steps| + 1 && Initial(states[0])
    && forall i :: 0 <= i < |steps| ==> Next(content, states[i], steps[i], states[i + 1])
  }
}
