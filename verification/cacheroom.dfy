/** How many slots the file cache needs (dbfiles.c). */
module CacheRoom {
  import opened BlockCache
  import opened CacheSystem
  import opened CacheProof
  import Words

  // ---- enough slots ----

  ghost function Sum(n: nat, f: nat -> nat): nat {
    if n == 0 then 0 else f(n - 1) + Sum(n - 1, f)
  }

  lemma {:induction false} SumParts(n: nat, f: nat -> nat, g: nat -> nat, h: nat -> nat)
    requires forall i: nat :: i < n ==> h(i) == f(i) + g(i)
    ensures Sum(n, h) == Sum(n, f) + Sum(n, g)
  {
    if n > 0 {
      SumParts(n - 1, f, g, h);
    }
  }

  lemma {:induction false} SumAtLeast(n: nat, f: nat -> nat)
    requires forall i: nat :: i < n ==> f(i) >= 1
    ensures Sum(n, f) >= n
  {
    if n > 0 {
      SumAtLeast(n - 1, f);
    }
  }

  lemma {:induction false} SumOne(n: nat, f: nat -> nat, j: nat)
    requires forall i: nat :: i < n ==> f(i) == if i == j then 1 else 0
    ensures Sum(n, f) == if j < n then 1 else 0
  {
    if n > 0 {
      SumOne(n - 1, f, j);
    }
  }

  /** Slots held, counted over the slots, are at most those counted over the threads. */
  lemma {:induction false} TimesSum(n: nat, held: seq<nat>)
    ensures Sum(n, i => Times(held, i)) <= |held|
  {
    if held == [] {
      SumParts(n, i => 0, i => 0, i => 0);
      SumOne(n, i => Times(held, i), n);
    } else {
      TimesSum(n, held[1..]);
      SumOne(n, i => if held[0] == i then 1 else 0, held[0]);
      SumParts(n, i => if held[0] == i then 1 else 0, i => Times(held[1..], i), i => Times(held, i));
    }
  }

  ghost function ReaderHolds(readers: seq<Reader>): nat {
    if readers == [] then 0 else |HeldBy(readers[0])| + ReaderHolds(readers[1..])
  }

  lemma {:induction false} HoldsSum(n: nat, readers: seq<Reader>)
    ensures Sum(n, i => Holds(readers, i)) <= ReaderHolds(readers)
  {
    if readers == [] {
      SumOne(n, i => Holds(readers, i), n);
    } else {
      HoldsSum(n, readers[1..]);
      TimesSum(n, HeldBy(readers[0]));
      SumParts(n, i => Times(HeldBy(readers[0]), i), i => Holds(readers[1..], i), i => Holds(readers, i));
    }
  }

  lemma {:induction false} FetchesSum(n: nat, fetchers: seq<Fetcher>)
    ensures Sum(n, i => Fetches(fetchers, i)) <= |fetchers|
  {
    if fetchers == [] {
      SumOne(n, i => Fetches(fetchers, i), n);
    } else {
      FetchesSum(n, fetchers[1..]);
      TimesSum(n, FetchedBy(fetchers[0]));
      SumParts(n, i => Times(FetchedBy(fetchers[0]), i), i => Fetches(fetchers[1..], i), i => Fetches(fetchers, i));
    }
  }

  lemma {:induction false} TwoEach(readers: seq<Reader>, r: nat)
    requires forall k :: 0 <= k < |readers| ==> |HeldBy(readers[k])| <= 2
    ensures ReaderHolds(readers) <= 2 * |readers|
    ensures r < |readers| && |HeldBy(readers[r])| <= 1 ==> ReaderHolds(readers) <= 2 * |readers| - 1
  {
    if readers != [] {
      TwoEach(readers[1..], if r == 0 then 0 else r - 1);
    }
  }

  lemma HoldsAtMostTwo(content: Contents, slots: seq<Slot>, r: Reader)
    requires GoodContents(content) && ReaderOk(content, slots, r)
    ensures |HeldBy(r)| <= 2
    ensures r.Scheduling? ==> |HeldBy(r)| <= 1
  {
    if !r.Idle? {
      TwoBlocks(r.q);
    }
  }

  /** While a reader still has a block to schedule, some slot is not held. */
  lemma SlotLeft(content: Contents, s: System, r: nat)
    requires GoodContents(content) && Inv(content, s) && r < |s.readers| && s.readers[r].Scheduling?
    requires |s.slots| >= 2 * |s.readers| + |s.fetchers|
    ensures !AllHeld(s.slots)
  {
    hide ReaderOk, FetcherOk, KeysUnique, BuffersRight, OneFetcher;
    forall k | 0 <= k < |s.readers| ensures |HeldBy(s.readers[k])| <= 2 {
      HoldsAtMostTwo(content, s.slots, s.readers[k]);
    }
    HoldsAtMostTwo(content, s.slots, s.readers[r]);
    var n := |s.slots|;
    TwoEach(s.readers, r);
    HoldsSum(n, s.readers);
    FetchesSum(n, s.fetchers);
    SumParts(n, i => Holds(s.readers, i), i => Fetches(s.fetchers, i),
             i => Holds(s.readers, i) + Fetches(s.fetchers, i));
    if AllHeld(s.slots) {
      SumAtLeast(n, i => Holds(s.readers, i) + Fetches(s.fetchers, i));
    }
  }

  lemma SameThreads(content: Contents, s: System, step: Step, s': System)
    requires Next(content, s, step, s')
    ensures |s'.slots| == |s.slots| && |s'.readers| == |s.readers| && |s'.fetchers| == |s.fetchers|
  {
  }

  /** With two slots for every reader and one for every fetcher the search never fails, in any run. */
  lemma {:induction false} NeverAborts(content: Contents, states: seq<System>, steps: seq<Step>, n: nat)
    requires GoodContents(content) && Run(content, states, steps) && n < |states|
    requires |states[0].slots| >= 2 * |states[0].readers| + |states[0].fetchers|
    ensures !states[n].aborted
    ensures |states[n].slots| == |states[0].slots| && |states[n].readers| == |states[0].readers|
    ensures |states[n].fetchers| == |states[0].fetchers|
  {
    hide Inv;
    if n > 0 {
      var s, step, s' := states[n - 1], steps[n - 1], states[n];
      NeverAborts(content, states, steps, n - 1);
      assert Next(content, states[n - 1], steps[n - 1], states[n - 1 + 1]);
      SameThreads(content, s, step, s');
      RunKeeps(content, states, steps, n - 1);
      if step.Schedule? && s'.aborted {
        SlotLeft(content, s, step.r);
      }
    }
  }

  // ---- too few slots ----

  ghost predicate Reachable(content: Contents, s: System) {
    exists states: seq<System>, steps: seq<Step> :: Run(content, states, steps) && states[|states| - 1] == s
  }

  lemma ReachStep(content: Contents, s: System, step: Step, s': System)
    requires Reachable(content, s) && Next(content, s, step, s')
    ensures Reachable(content, s')
  {
    hide Next;
    var states: seq<System>, steps: seq<Step> :| Run(content, states, steps) && states[|states| - 1] == s;
    var states', steps' := states + [s'], steps + [step];
    forall i | 0 <= i < |steps'| ensures Next(content, states'[i], steps'[i], states'[i + 1]) {
      if i < |steps| {
        assert Next(content, states[i], steps[i], states[i + 1]);
      }
    }
    assert Run(content, states', steps') && states'[|states'| - 1] == s';
  }

  /** The first `m` slots are held, about paths of length 1 to `top`; the others were never used. */
  ghost predicate Busy(slots: seq<Slot>, m: nat, top: nat) {
    && m <= |slots|
    && (forall i :: 0 <= i < m ==> slots[i].refCount == 1 && 1 <= |slots[i].key.path| <= top)
    && (forall i :: m <= i < |slots| ==> slots[i] == FreshSlot())
  }

  /** A request for the start of a file of two blocks, with a path of length `n`. */
  function Ask(n: nat): (q: Request)
    requires n >= 1
    ensures GoodRequest(q) && |q.path| == n && PrefetchCount(q.offset, q.fileSize) == 2
  {
    Request(seq<Words.u8>(n, _ => 1), Words.Zeros(11), 0, 2 * CACHE_BLOCK_SIZE)
  }

  /** The same for a file of one sector. */
  function AskOne(n: nat): (q: Request)
    requires n >= 1
    ensures GoodRequest(q) && |q.path| == n && PrefetchCount(q.offset, q.fileSize) == 1
  {
    Request(seq<Words.u8>(n, _ => 1), Words.Zeros(11), 0, 1)
  }

  /** A key no slot has goes to the first slot never used; with none left the search fails. */
  lemma NewKey(slots: seq<Slot>, m: nat, top: nat, key: Key)
    requires Busy(slots, m, top) && key.path != [] && forall i :: 0 <= i < m ==> slots[i].key != key
    ensures Find(slots, key) == |slots|
    ensures m == |slots| ==> AllHeld(slots)
    ensures m < |slots| ==> Victim(slots, m) && !AllHeld(slots)
    ensures m < |slots| && |key.path| <= top ==>
              Busy(slots[m := Slot(1, Scheduled, 1, key, slots[m].buffer)], m + 1, top)
  {
    hide FreshSlot;
    assert FreshSlot().key.path == [] && FreshSlot().refCount == 0 by { FreshIs(); }
  }

  lemma FreshIs()
    ensures FreshSlot().key.path == [] && FreshSlot().refCount == 0 && FreshSlot().state == Clean
  {
  }

  /** `t` fetchers are stuck in downloads, each with a slot of its own; the readers are idle. */
  ghost predicate Stuck(s: System, t: nat) {
    && !s.aborted && t <= |s.fetchers| && Busy(s.slots, t, t)
    && (forall i :: 0 <= i < t ==> s.slots[i].state == Downloading)
    && (forall r :: 0 <= r < |s.readers| ==> s.readers[r].Idle? || s.readers[r].Returned?)
    && (forall f :: t <= f < |s.fetchers| ==> s.fetchers[f] == Waiting)
  }

  /** Reader 0 asks for another file, a fetcher takes the block, and the reader times out. */
  lemma OneMoreStuck(content: Contents, s: System, t: nat) returns (s': System)
    requires Reachable(content, s) && Stuck(s, t) && t < |s.slots| && t < |s.fetchers| && |s.readers| >= 1
    ensures Reachable(content, s') && Stuck(s', t + 1)
    ensures |s'.slots| == |s.slots| && |s'.readers| == |s.readers| && |s'.fetchers| == |s.fetchers|
  {
    hide Reachable, BlockKey, FreshSlot, Busy;
    var q := AskOne(t + 1);
    var s1 := WithReader(s, 0, Scheduling(q, []));
    ReachStep(content, s, Call(0, q), s1);
    var s2 := StuckSchedule(content, s1, t, q);
    var s3 := WithFetcher(s2, t, Fetching(t)).(slots := Picked(s2.slots, t));
    ReachStep(content, s2, Pick(t, t), s3);
    s' := GiveUp(content, s3, t, q);
    BusyAgain(s2.slots, s'.slots, t);
  }

  /** Reader 0 stops waiting for a block that is still being downloaded. */
  lemma GiveUp(content: Contents, s: System, t: nat, q: Request) returns (s': System)
    requires Reachable(content, s) && !s.aborted && |s.readers| >= 1 && s.readers[0] == Polling(q, [t])
    requires t < |s.slots| && s.slots[t].state == Downloading
    ensures Reachable(content, s')
    ensures s' == WithReader(s, 0, Returned(q, -1, [])).(slots := Released(s.slots, t))
  {
    hide Reachable, Released;
    var s1 := WithReader(s, 0, Checking(q, [t]));
    ReachStep(content, s, StopPolling(0), s1);
    var s2 := WithReader(s1, 0, Releasing(q, [t], -1, []));
    ReachStep(content, s1, Check(0), s2);
    var s3 := WithReader(s2, 0, Releasing(q, [t][1..], -1, [])).(slots := Released(s2.slots, t));
    ReachStep(content, s2, Release(0), s3);
    s' := WithReader(s3, 0, Returned(q, -1, []));
    ReachStep(content, s3, Return(0), s');
  }

  lemma BusyAgain(a: seq<Slot>, b: seq<Slot>, t: nat)
    requires Busy(a, t + 1, t + 1) && b == Released(Picked(a, t), t)
    ensures Busy(b, t + 1, t + 1)
  {
  }

  lemma StuckSchedule(content: Contents, s: System, t: nat, q: Request) returns (s': System)
    requires Reachable(content, s) && !s.aborted && t < |s.slots| && Busy(s.slots, t, t) && |s.readers| >= 1
    requires q == AskOne(t + 1) && s.readers[0] == Scheduling(q, [])
    requires forall i :: 0 <= i < t ==> s.slots[i].state == Downloading
    ensures Reachable(content, s') && NextFetched(s'.slots, t) && Busy(s'.slots, t + 1, t + 1)
    ensures s' == WithReader(s, 0, Polling(q, [t])).(slots := s'.slots)
    ensures |s'.slots| == |s.slots| && forall i :: 0 <= i < t ==> s'.slots[i] == s.slots[i]
  {
    hide Reachable, FreshSlot;
    var key := BlockKey(q, 0);
    assert key.path == q.path;
    NewKey(s.slots, t, t + 1, key);
    FreshIs();
    s' := WithReader(s, 0, Polling(q, [t])).(slots := s.slots[t := Slot(1, Scheduled, 1, key, s.slots[t].buffer)]);
    assert ScheduledAs(s.slots, key, 1, t, s'.slots);
    assert [t] + [] == [t];
    assert ScheduleStep(s, 0, 1, t, s');
    ReachStep(content, s, Schedule(0, 1, t), s');
  }

  /** The first `c` readers ask for two blocks each. */
  ghost predicate Calling(s: System, t: nat, c: nat) {
    && !s.aborted && Busy(s.slots, t, t) && c <= |s.readers|
    && (forall r :: 0 <= r < c ==> s.readers[r] == Scheduling(Ask(t + 1 + r), []))
    && (forall r :: c <= r < |s.readers| ==> s.readers[r].Idle? || s.readers[r].Returned?)
  }

  lemma {:induction false} AllCall(content: Contents, s: System, t: nat, c: nat) returns (s': System)
    requires Reachable(content, s) && Calling(s, t, c)
    ensures Reachable(content, s') && Calling(s', t, |s.readers|)
    ensures |s'.slots| == |s.slots| && |s'.readers| == |s.readers| && |s'.fetchers| == |s.fetchers|
    decreases |s.readers| - c
  {
    hide Reachable, Ask, Busy;
    if c == |s.readers| {
      s' := s;
    } else {
      var s1 := WithReader(s, c, Scheduling(Ask(t + 1 + c), []));
      ReachStep(content, s, Call(c, Ask(t + 1 + c)), s1);
      s' := AllCall(content, s1, t, c + 1);
    }
  }

  /** Block number `j` that the readers ask for, behind `t` stuck slots. */
  ghost function KeyNumber(t: nat, j: nat): Key {
    BlockKey(Ask(t + 1 + j / 2), 1 - j % 2)
  }

  ghost function HeldAt(t: nat, k: nat, r: nat): seq<nat> {
    if 2 * r + 1 == k then [t + 2 * r] else []
  }

  /** `k` blocks have been scheduled, each in a slot of its own. */
  ghost predicate Filling(s: System, t: nat, k: nat) {
    && !s.aborted && t + k <= |s.slots| && k <= 2 * |s.readers| && Busy(s.slots, t + k, t + |s.readers|)
    && (forall i :: 0 <= i < t ==> |s.slots[i].key.path| <= t)
    && (forall j :: 0 <= j < k ==> s.slots[t + j].key == KeyNumber(t, j))
    && (forall r :: 0 <= r < |s.readers| && k < 2 * r + 2 ==>
        s.readers[r] == Scheduling(Ask(t + 1 + r), HeldAt(t, k, r)))
  }

  lemma KeysApart(t: nat, j: nat, k: nat)
    requires j < k
    ensures KeyNumber(t, j) != KeyNumber(t, k) && |KeyNumber(t, k).path| == t + 1 + k / 2
  {
    if j / 2 == k / 2 {
      assert j % 2 == 0 && k % 2 == 1;
    }
  }

  /** The next block is nowhere in the cache. */
  lemma NextMissing(s: System, t: nat, k: nat)
    requires Filling(s, t, k)
    ensures forall i :: 0 <= i < t + k ==> s.slots[i].key != KeyNumber(t, k)
    ensures |KeyNumber(t, k).path| == t + 1 + k / 2
  {
    hide KeyNumber, Ask;
    KeysApart(t, k, k + 1);
    KeyLength(t, k);
    forall i | 0 <= i < t + k ensures s.slots[i].key != KeyNumber(t, k) {
      if i >= t {
        KeysApart(t, i - t, k);
        assert s.slots[t + (i - t)].key == KeyNumber(t, i - t);
      }
    }
  }

  lemma KeyLength(t: nat, k: nat)
    ensures |KeyNumber(t, k).path| == t + 1 + k / 2
  {
  }

  lemma FillOne(content: Contents, s: System, t: nat, k: nat) returns (s': System)
    requires Reachable(content, s) && Filling(s, t, k) && k < 2 * |s.readers|
    ensures Reachable(content, s')
    ensures |s'.slots| == |s.slots| && |s'.readers| == |s.readers| && |s'.fetchers| == |s.fetchers|
    ensures if t + k == |s.slots| then s'.aborted else Filling(s', t, k + 1)
  {
    hide Reachable, KeyNumber, Ask, FreshSlot, Busy, BlockKey;
    var r := k / 2;
    var q, held, key := Ask(t + 1 + r), HeldAt(t, k, r), KeyNumber(t, k);
    assert s.readers[r] == Scheduling(q, held);
    NextMissing(s, t, k);
    NewKey(s.slots, t + k, t + |s.readers|, key);
    assert key == BlockKey(q, Remaining(q, held) - 1) by { KeyAsked(t, k); }
    if t + k == |s.slots| {
      s' := s.(aborted := true);
      ReachStep(content, s, Schedule(r, 1, 0), s');
    } else {
      var slots' := s.slots[t + k := Slot(1, Scheduled, 1, key, s.slots[t + k].buffer)];
      var to := if Remaining(q, held) == 1 then Polling(q, [t + k] + held) else Scheduling(q, [t + k] + held);
      s' := WithReader(s, r, to).(slots := slots');
      assert ScheduledAs(s.slots, key, 1, t + k, s'.slots);
      assert ScheduleStep(s, r, 1, t + k, s');
      ReachStep(content, s, Schedule(r, 1, t + k), s');
      FillNext(s, t, k, s', to);
    }
  }

  /** The reader whose turn it was has one block more, the later ones have none yet. */
  lemma ReaderNext(s: System, t: nat, k: nat, s': System, to: Reader, i: nat)
    requires Filling(s, t, k) && k + 1 < 2 * i + 2 && i < |s.readers|
    requires var r := k / 2;
             var q, held := Ask(t + 1 + r), HeldAt(t, k, r);
             && to == (if Remaining(q, held) == 1 then Polling(q, [t + k] + held) else Scheduling(q, [t + k] + held))
             && s'.readers == s.readers[r := to]
    ensures s'.readers[i] == Scheduling(Ask(t + 1 + i), HeldAt(t, k + 1, i))
  {
    hide Ask, Busy, KeyNumber, PrefetchCount;
    if i == k / 2 {
      AskTwo(t + 1 + i);
      assert [t + k] + [] == [t + k];
    }
  }

  lemma FillNext(s: System, t: nat, k: nat, s': System, to: Reader)
    requires Filling(s, t, k) && k < 2 * |s.readers| && t + k < |s.slots|
    requires var r := k / 2;
             var q, held := Ask(t + 1 + r), HeldAt(t, k, r);
             && to == (if Remaining(q, held) == 1 then Polling(q, [t + k] + held) else Scheduling(q, [t + k] + held))
             && s' == WithReader(s, r, to).(slots := s'.slots)
    requires s'.slots == s.slots[t + k := Slot(1, Scheduled, 1, KeyNumber(t, k), s.slots[t + k].buffer)]
    requires Busy(s'.slots, t + k + 1, t + |s.readers|)
    ensures Filling(s', t, k + 1)
  {
    hide KeyNumber, Ask, FreshSlot, Busy, BlockKey, HeldAt, Remaining;
    forall i | 0 <= i < |s'.readers| && k + 1 < 2 * i + 2
      ensures s'.readers[i] == Scheduling(Ask(t + 1 + i), HeldAt(t, k + 1, i))
    {
      ReaderNext(s, t, k, s', to, i);
    }
  }

  lemma AskTwo(n: nat)
    requires n >= 1
    ensures PrefetchCount(Ask(n).offset, Ask(n).fileSize) == 2
  {
  }

  lemma KeyAsked(t: nat, k: nat)
    ensures var q, held := Ask(t + 1 + k / 2), HeldAt(t, k, k / 2);
            Remaining(q, held) > 0 && KeyNumber(t, k) == BlockKey(q, Remaining(q, held) - 1)
  {
  }

  lemma {:induction false} FillAll(content: Contents, s: System, t: nat, k: nat) returns (s': System)
    requires Reachable(content, s) && Filling(s, t, k) && |s.slots| < t + 2 * |s.readers|
    ensures Reachable(content, s') && s'.aborted
    ensures |s'.slots| == |s.slots| && |s'.readers| == |s.readers| && |s'.fetchers| == |s.fetchers|
    decreases 2 * |s.readers| - k
  {
    hide Reachable, Filling;
    assert t + k <= |s.slots| by { FillBound(s, t, k); }
    s' := FillOne(content, s, t, k);
    if !s'.aborted {
      s' := FillAll(content, s', t, k + 1);
    }
  }

  lemma FillBound(s: System, t: nat, k: nat)
    requires Filling(s, t, k)
    ensures t + k <= |s.slots|
  {
  }

  lemma {:induction false} StuckAll(content: Contents, s: System, t: nat, m: nat) returns (s': System)
    requires Reachable(content, s) && Stuck(s, t) && t <= m <= |s.slots| && m <= |s.fetchers| && |s.readers| >= 1
    ensures Reachable(content, s') && Stuck(s', m)
    ensures |s'.slots| == |s.slots| && |s'.readers| == |s.readers| && |s'.fetchers| == |s.fetchers|
    decreases m - t
  {
    hide Reachable, Stuck;
    if t == m {
      s' := s;
    } else {
      s' := OneMoreStuck(content, s, t);
      s' := StuckAll(content, s', t + 1, m);
    }
  }

  lemma StartFilling(s: System, t: nat)
    requires Calling(s, t, |s.readers|)
    ensures Filling(s, t, 0)
  {
  }

  /** With fewer slots than that the search fails in some run: the bound is exact, and 8 slots for 8 fetchers
      miss it however few the readers are. */
  lemma TooFewSlots(content: Contents, slots: nat, readers: nat, fetchers: nat) returns (s: System)
    requires readers >= 1 && slots < 2 * readers + fetchers
    ensures Reachable(content, s) && s.aborted
    ensures |s.slots| == slots && |s.readers| == readers && |s.fetchers| == fetchers
  {
    hide Reachable, FreshSlot, Calling, Filling;
    var s0 := System(seq(slots, _ => FreshSlot()), seq(readers, _ => Idle), seq(fetchers, _ => Waiting), false);
    ReachInitial(content, s0);
    var m := if fetchers < slots then fetchers else slots;
    var s1 := StuckAll(content, s0, 0, m);
    assert Calling(s1, m, 0) by { StuckCalls(s1, m); }
    var s2 := AllCall(content, s1, m, 0);
    StartFilling(s2, m);
    s := FillAll(content, s2, m, 0);
  }

  lemma StuckCalls(s: System, t: nat)
    requires Stuck(s, t)
    ensures Calling(s, t, 0)
  {
  }

  lemma ReachInitial(content: Contents, s: System)
    requires Initial(s)
    ensures Reachable(content, s)
  {
    var states, steps: seq<Step> := [s], [];
    assert Run(content, states, steps) && states[|states| - 1] == s;
  }
}
