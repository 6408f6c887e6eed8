/** The calls for which the file cache is not transparent, each with a run that shows it (dbfiles.c). */
module CacheFail {
  import opened Words
  import opened Layout
  import opened BlockCache
  import opened CacheSystem
  import opened CacheRoom
  import CacheProof

  /** A system with at least one slot and one thread of each kind, in a state some run reaches. */
  ghost predicate Live(content: Contents, s: System) {
    Reachable(content, s) && !s.aborted && |s.slots| >= 1 && |s.readers| >= 1 && |s.fetchers| >= 1
  }

  ghost predicate SameSizes(a: System, b: System) {
    |a.slots| == |b.slots| && |a.readers| == |b.readers| && |a.fetchers| == |b.fetchers|
  }

  lemma SectorInBlock(q: Request)
    requires GoodRequest(q)
    ensures q.offset % CACHE_BLOCK_SIZE + BYTES_PER_SECTOR <= CACHE_BLOCK_SIZE
  {
    var at, k := q.offset % CACHE_BLOCK_SIZE, q.offset / BYTES_PER_SECTOR;
    assert q.offset == BYTES_PER_SECTOR * k && at == BYTES_PER_SECTOR * (k % 4096);
  }

  /** The sector of a block that a request is after. */
  function SectorOf(q: Request, block: seq<u8>): (b: seq<u8>)
    requires GoodRequest(q) && |block| == CACHE_BLOCK_SIZE
    ensures |b| == BYTES_PER_SECTOR
  {
    SectorInBlock(q);
    block[q.offset % CACHE_BLOCK_SIZE..q.offset % CACHE_BLOCK_SIZE + BYTES_PER_SECTOR]
  }

  // ---- a reader that finds slot 0 completed ----

  /** Reader 0 copies the rest of its sector from slot 0. */
  lemma {:induction false} CopyAll(content: Contents, s: System, q: Request, held: seq<nat>, buf: seq<u8>)
    returns (s': System)
    requires Live(content, s) && GoodRequest(q) && Polled(held) == 0 && |s.slots[0].buffer| == CACHE_BLOCK_SIZE
    requires s.readers[0] == Copying(q, held, buf) && |buf| < BYTES_PER_SECTOR && buf <= SectorOf(q, s.slots[0].buffer)
    ensures Live(content, s')
    ensures s' == WithReader(s, 0, Releasing(q, held, 0, SectorOf(q, s.slots[0].buffer)))
    decreases BYTES_PER_SECTOR - |buf|
  {
    hide Reachable;
    SectorInBlock(q);
    var sector, n := SectorOf(q, s.slots[0].buffer), |buf|;
    var buf' := buf + [sector[n]];
    assert buf' == sector[..n + 1];
    var to := if |buf'| == BYTES_PER_SECTOR then Releasing(q, held, 0, buf') else Copying(q, held, buf');
    var s1 := WithReader(s, 0, to);
    assert sector[n] == s.slots[0].buffer[q.offset % CACHE_BLOCK_SIZE + n];
    ReachStep(content, s, CopyByte(0), s1);
    if |buf'| == BYTES_PER_SECTOR {
      assert buf' == sector;
      s' := s1;
    } else {
      s' := CopyAll(content, s1, q, held, buf');
      assert s'.readers == s.readers[0 := Releasing(q, held, 0, sector)];
    }
  }

  /** Reader 0 waits for slot 0, which is completed: the call returns 0 with the sector found there. */
  lemma ReadOn(content: Contents, s: System, q: Request, held: seq<nat>) returns (s': System)
    requires Live(content, s) && GoodRequest(q) && (held == [] || held == [0])
    requires s.readers[0] == Polling(q, held)
    requires s.slots[0].state == Completed && |s.slots[0].buffer| == CACHE_BLOCK_SIZE
    ensures Live(content, s') && SameSizes(s', s)
    ensures s'.readers[0] == Returned(q, 0, SectorOf(q, s.slots[0].buffer))
    ensures s'.slots[0].state == Completed && s'.slots[0].buffer == s.slots[0].buffer
  {
    hide Reachable, GoodRequest, SectorOf;
    var s1 := WithReader(s, 0, Checking(q, held));
    ReachStep(content, s, StopPolling(0), s1);
    var s2 := WithReader(s1, 0, Copying(q, held, []));
    ReachStep(content, s1, Check(0), s2);
    var s3 := CopyAll(content, s2, q, held, []);
    var sector := SectorOf(q, s.slots[0].buffer);
    var s4 := s3;
    if held == [0] {
      s4 := WithReader(s3, 0, Releasing(q, held[1..], 0, sector)).(slots := Released(s3.slots, 0));
      ReachStep(content, s3, Release(0), s4);
    }
    s' := WithReader(s4, 0, Returned(q, 0, sector));
    ReachStep(content, s4, Return(0), s');
  }

  // ---- a block that is downloaded ----

  ghost predicate Untouched(s: System) {
    Initial(s) && |s.slots| >= 1 && |s.readers| >= 1 && |s.fetchers| >= 1
  }

  /** Reader 0 asks for a block, which is given slot 0. */
  lemma AskBlock(content: Contents, s: System, q: Request) returns (s': System)
    requires Untouched(s) && GoodRequest(q) && PrefetchCount(q.offset, q.fileSize) == 1
    ensures Live(content, s') && SameSizes(s', s) && NextFetched(s'.slots, 0)
    ensures s'.readers[0] == Polling(q, [0]) && s'.slots[0].key == BlockKey(q, 0) && s'.fetchers == s.fetchers
  {
    hide Reachable, FreshSlot, PrefetchCount;
    ReachInitial(content, s);
    FreshIs();
    var s1 := WithReader(s, 0, Scheduling(q, []));
    ReachStep(content, s, Call(0, q), s1);
    var key := BlockKey(q, 0);
    assert key.path == q.path;
    assert Busy(s.slots, 0, |key.path|);
    NewKey(s.slots, 0, |key.path|, key);
    s' := WithReader(s1, 0, Polling(q, [0])).(slots := s.slots[0 := Slot(1, Scheduled, 1, key, s.slots[0].buffer)]);
    assert ScheduledAs(s1.slots, key, 1, 0, s'.slots);
    assert [0] + [] == [0];
    assert ScheduleStep(s1, 0, 1, 0, s');
    ReachStep(content, s1, Schedule(0, 1, 0), s');
  }

  /** Fetcher 0 downloads the block in slot 0. */
  lemma FetchBlock(content: Contents, s: System) returns (s': System)
    requires Live(content, s) && NextFetched(s.slots, 0) && s.fetchers[0] == Waiting && GoodContents(content)
    ensures Live(content, s') && SameSizes(s', s) && s'.readers == s.readers
    ensures s'.slots[0].state == Completed && s'.slots[0].buffer == Padded(content(s.slots[0].key))
  {
    hide Reachable, NextFetched, Padded;
    var data := content(s.slots[0].key);
    var s1 := WithFetcher(s, 0, Fetching(0)).(slots := Picked(s.slots, 0));
    ReachStep(content, s, Pick(0, 0), s1);
    var s2 := WithFetcher(s1, 0, Writing(0, data));
    ReachStep(content, s1, Download(0, true), s2);
    var s3 := WithFetcher(s2, 0, Written(0, true)).(slots := Filled(s2.slots, 0, Padded(data)));
    ReachStep(content, s2, WriteRest(0), s3);
    s' := WithFetcher(s3, 0, Waiting).(slots := Finished(s3.slots, 0, true));
    ReachStep(content, s3, Finish(0), s');
  }

  /** A call for one block, served: what was downloaded is delivered, and stays in slot 0. */
  lemma ReadBlock(content: Contents, s: System, q: Request) returns (s': System)
    requires Untouched(s) && GoodRequest(q) && PrefetchCount(q.offset, q.fileSize) == 1 && GoodContents(content)
    ensures Live(content, s') && SameSizes(s', s)
    ensures s'.slots[0].state == Completed && s'.slots[0].buffer == Padded(content(BlockKey(q, 0)))
    ensures s'.readers[0] == Returned(q, 0, SectorOf(q, Padded(content(BlockKey(q, 0)))))
  {
    hide Reachable, NextFetched, Padded, BlockKey, SectorOf, PrefetchCount, Live;
    var s1 := AskBlock(content, s, q);
    assert s1.fetchers[0] == Waiting;
    var s2 := FetchBlock(content, s1);
    s' := ReadOn(content, s2, q, [0]);
  }

  // ---- calls that schedule no block ----

  /** A call with more than 2^32 - 2^21 bytes left returns 0 with the bytes of whatever block slot 0 holds: here that of
      any other request. */
  lemma OtherBytes(content: Contents, s: System, other: Request, q: Request) returns (s': System)
    requires Untouched(s) && GoodContents(content) && GoodRequest(q) && !Prefetched(q)
    requires GoodRequest(other) && PrefetchCount(other.offset, other.fileSize) == 1
    ensures Reachable(content, s') && SameSizes(s', s)
    ensures s'.readers[0] == Returned(q, 0, SectorOf(q, Padded(content(BlockKey(other, 0)))))
  {
    hide Reachable, Padded, BlockKey, SectorOf, PrefetchCount;
    PrefetchAtLeastOne(q.offset, q.fileSize);
    var s1 := ReadBlock(content, s, other);
    var s2 := WithReader(s1, 0, Polling(q, []));
    assert Started(q) == Polling(q, []);
    ReachStep(content, s1, Call(0, q), s2);
    s' := ReadOn(content, s2, q, []);
  }

  // ---- wherever transparency is not proved it fails ----

  function Ones(n: nat): (b: seq<u8>)
    ensures |b| == n
  {
    seq<u8>(n, _ => 1)
  }

  /** A file of zeros is served right at `path`; everything else that can be downloaded is ones. */
  function OneWrong(path: seq<u8>, size: nat): Contents {
    (k: Key) =>
      if k.path == path && k.offset < size && k.offset < RangeEnd(k.offset) then
        Zeros(if RangeEnd(k.offset) < size then CACHE_BLOCK_SIZE else size - k.offset)
      else Ones(CACHE_BLOCK_SIZE)
  }

  lemma OneWrongServes(path: seq<u8>, rev: seq<u8>, size: u32)
    ensures GoodContents(OneWrong(path, size)) && CacheProof.Serves(OneWrong(path, size), path, rev, Zeros(size))
  {
    forall k: Key ensures |OneWrong(path, size)(k)| <= CACHE_BLOCK_SIZE {
      RangeLength(k.offset);
    }
    forall b: u32 | b < size && b % CACHE_BLOCK_SIZE == 0 && b < RangeEnd(b)
      ensures OneWrong(path, size)(Key(path, rev, b)) ==
              Zeros(size)[b..if RangeEnd(b) < size then RangeEnd(b) else size]
    {
      RangeLength(b);
      SomeZeros(size, b, if RangeEnd(b) < size then RangeEnd(b) else size);
    }
  }

  lemma SomeZeros(n: nat, i: nat, j: nat)
    requires i <= j <= n
    ensures Zeros(n)[i..j] == Zeros(j - i)
  {
  }

  lemma RangeLength(b: u32)
    ensures b < RangeEnd(b) ==> RangeEnd(b) == b + CACHE_BLOCK_SIZE
  {
  }

  lemma SectorOfOnes(q: Request)
    requires GoodRequest(q)
    ensures SectorOf(q, Padded(Ones(CACHE_BLOCK_SIZE)))[0] == 1
  {
    SectorInBlock(q);
  }

  lemma LastBlock(q: Request)
    requires GoodRequest(q) && q.offset >= MAX_CACHED
    ensures Prefetched(q) && PrefetchCount(q.offset, q.fileSize) == 1
    ensures RangeEnd(BlockKey(q, 0).offset) == 0
  {
    RangeWraps(q.offset);
  }
  /** For every request outside the domain of ReadsTheFile there are downloads that serve the file right and a run in
      which the call returns 0 with a byte that is not the file's. */
  lemma NotTheFile(q: Request, slots: nat, readers: nat, fetchers: nat)
    returns (content: Contents, file: seq<u8>, s: System)
    requires GoodRequest(q) && (!Prefetched(q) || q.offset >= MAX_CACHED)
    requires slots >= 1 && readers >= 1 && fetchers >= 1
    ensures GoodContents(content) && CacheProof.Serves(content, q.path, q.rev, file) && |file| == q.fileSize
    ensures Reachable(content, s) && |s.slots| == slots && |s.readers| == readers && |s.fetchers| == fetchers
    ensures s.readers[0].Returned? && s.readers[0].q == q && s.readers[0].ret == 0
    ensures s.readers[0].buf != [] && s.readers[0].buf[0] != file[q.offset]
  {
    hide Reachable, Padded, SectorOf, CacheProof.Serves, FreshSlot;
    content, file := OneWrong(q.path, q.fileSize), Zeros(q.fileSize);
    OneWrongServes(q.path, q.rev, q.fileSize);
    SectorOfOnes(q);
    var s0 := System(seq(slots, _ => FreshSlot()), seq(readers, _ => Idle), seq(fetchers, _ => Waiting), false);
    if Prefetched(q) {
      LastBlock(q);
      s := ReadBlock(content, s0, q);
    } else {
      var other := Request(q.path + [1], q.rev, 0, 512);
      assert other.path != q.path;
      s := OtherBytes(content, s0, other, q);
    }
  }

  /** Reader `r` has come back from the call `q` with 0 and these bytes, from a server that has `file` at its path. */
  ghost predicate Answered(content: Contents, s: System, r: nat, q: Request, file: seq<u8>, buf: seq<u8>) {
    && GoodContents(content) && CacheProof.Serves(content, q.path, q.rev, file) && |file| == q.fileSize
    && Reachable(content, s) && r < |s.readers| && s.readers[r] == Returned(q, 0, buf)
  }

  /** The sector of the file that the call asks for, with zeros past its end. */
  function FilePiece(q: Request, file: seq<u8>): (b: seq<u8>)
    ensures |b| == BYTES_PER_SECTOR
  {
    seq<u8>(BYTES_PER_SECTOR, i requires 0 <= i => if q.offset + i < |file| then file[q.offset + i] else 0)
  }

  /** Whatever is downloaded and however the threads run, the call is answered with the bytes of the file. */
  ghost predicate Transparent(q: Request) {
    forall content: Contents, s: System, r: nat, file: seq<u8>, buf: seq<u8> ::
      Answered(content, s, r, q, file, buf) ==> buf == FilePiece(q, file)
  }

  /** Cache transparency, exactly: for the calls that schedule a block and do not lie in the last 2^21 bytes below
      2^32, and for no others. */
  lemma TransparentExactly(q: Request)
    requires GoodRequest(q)
    ensures Transparent(q) <==> q.fileSize - q.offset <= 0xFFE0_0000 && q.offset < 0xFFE0_0000
  {
    hide Answered, FilePiece;
    if Prefetched(q) && q.offset < MAX_CACHED {
      forall content: Contents, s: System, r: nat, file: seq<u8>, buf: seq<u8> | Answered(content, s, r, q, file, buf)
        ensures buf == FilePiece(q, file)
      {
        AnsweredRight(content, s, r, q, file, buf);
      }
    } else {
      var content, file, s, buf := AnsweredWrong(q);
      assert Answered(content, s, 0, q, file, buf) && buf != FilePiece(q, file);
    }
  }

  lemma AnsweredRight(content: Contents, s: System, r: nat, q: Request, file: seq<u8>, buf: seq<u8>)
    requires GoodRequest(q) && Prefetched(q) && q.offset < MAX_CACHED && Answered(content, s, r, q, file, buf)
    ensures buf == FilePiece(q, file)
  {
    hide Next, Initial, CacheProof.Serves, Prefetched;
    var states, steps :| Run(content, states, steps) && states[|states| - 1] == s;
    CacheProof.ReadsTheFile(content, states, steps, |states| - 1, r, file);
  }

  lemma AnsweredWrong(q: Request) returns (content: Contents, file: seq<u8>, s: System, buf: seq<u8>)
    requires GoodRequest(q) && !(Prefetched(q) && q.offset < MAX_CACHED)
    ensures Answered(content, s, 0, q, file, buf) && buf != FilePiece(q, file)
  {
    hide Reachable, CacheProof.Serves, Prefetched;
    content, file, s := NotTheFile(q, 1, 1, 1);
    buf := s.readers[0].buf;
    assert FilePiece(q, file)[0] == file[q.offset];
  }
}
