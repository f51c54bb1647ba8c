// The overwriting statistics ring: a power-of-two buffer that drops its oldest
// entry when full and is searched backwards to patch in late timestamps. It
// simulates an unbounded log of which it shows the tail.
module StatsRing {
  import opened Bits
  import opened TimestampNames

  datatype StatsMode = ClientOneway | ClientRoundtrip | ServerOneway | ServerRoundtrip

  /** `stats_entry_t` without its padding. */
  datatype StatsEntry = StatsEntry(seqNum: nat, timestampNs: seq<nat>, srcPort: nat, entryType: nat, timestampMask: nat)

  /** The three late updates: kernel TX, application TX, and the RX group. */
  datatype Update =
    | KernelTx(kerTx: nat)
    | AppTx(appTx: nat, tscTx: nat)
    | Rx(hwRx: nat, kerRx: nat, appRx: nat, tscRx: nat)

  function SetStamp(ts: seq<nat>, i: nat, v: nat): (r: seq<nat>)
    ensures |r| == |ts|
  {
    if i < |ts| then ts[i := v] else ts
  }

  /** The switch on the mode in each update function. */
  function PatchedStamps(ts: seq<nat>, u: Update, mode: StatsMode): seq<nat> {
    match (u, mode)
    case (KernelTx(v), ClientOneway) => SetStamp(ts, 2, v)
    case (KernelTx(v), ClientRoundtrip) => SetStamp(ts, 2, v)
    case (KernelTx(v), ServerOneway) => ts
    case (KernelTx(v), ServerRoundtrip) => SetStamp(ts, 11, v)
    case (AppTx(v, tsc), ClientOneway) => SetStamp(ts, 1, v)
    case (AppTx(v, tsc), ClientRoundtrip) => SetStamp(if tsc > 0 then SetStamp(ts, 0, tsc) else ts, 1, v)
    case (AppTx(v, tsc), ServerOneway) => ts
    case (AppTx(v, tsc), ServerRoundtrip) => SetStamp(ts, 10, v)
    case (Rx(hw, ker, app, tsc), ClientOneway) => ts
    case (Rx(hw, ker, app, tsc), ClientRoundtrip) =>
      var kernel := SetStamp(SetStamp(ts, 3, hw), 4, ker);
      SetStamp(if tsc > 0 then SetStamp(kernel, 5, tsc) else kernel, 6, app)
    case (Rx(hw, ker, app, tsc), ServerOneway) => SetStamp(SetStamp(SetStamp(ts, 7, hw), 8, ker), 9, app)
    case (Rx(hw, ker, app, tsc), ServerRoundtrip) => SetStamp(SetStamp(SetStamp(ts, 7, hw), 8, ker), 9, app)
  }

  function Patched(e: StatsEntry, u: Update, mode: StatsMode): (r: StatsEntry)
    ensures r.seqNum == e.seqNum
  {
    e.(timestampNs := PatchedStamps(e.timestampNs, u, mode))
  }

  /** The newest entry with sequence number q patched; nothing when there is none. */
  function PatchNewest(log: seq<StatsEntry>, q: nat, u: Update, mode: StatsMode): (r: seq<StatsEntry>)
    ensures |r| == |log|
  {
    if log == [] then []
    else
      var front, last := log[..|log| - 1], log[|log| - 1];
      if last.seqNum == q then front + [Patched(last, u, mode)] else PatchNewest(front, q, u, mode) + [last]
  }

  /** The last n elements, or all when there are fewer. */
  function LastN<T>(s: seq<T>, n: nat): (r: seq<T>)
    ensures |r| == if |s| < n then |s| else n
  {
    if |s| <= n then s else s[|s| - n..]
  }

  lemma {:induction false} LastNAppend<T>(s: seq<T>, x: T, n: nat)
    ensures LastN(s + [x], n) == LastN(LastN(s, n) + [x], n)
  {
  }

  lemma {:induction false} LastNSnoc<T>(s: seq<T>, x: T, n: nat)
    ensures n > 0 ==> LastN(s + [x], n) == LastN(s, n - 1) + [x]
    ensures LastN(s, 0) == []
  {
  }

  lemma {:induction false} PatchSnoc(front: seq<StatsEntry>, last: StatsEntry, q: nat, u: Update, mode: StatsMode)
    ensures PatchNewest(front + [last], q, u, mode)
      == if last.seqNum == q then front + [Patched(last, u, mode)] else PatchNewest(front, q, u, mode) + [last]
    ensures PatchNewest([], q, u, mode) == []
  {
    hide Patched;
    assert (front + [last])[..|front|] == front;
  }

  /** Patching the shown tail is the tail of patching the whole log: an evicted newest entry is a no-op on the tail. */
  lemma {:induction false} PatchCommutesWithTail(log: seq<StatsEntry>, q: nat, u: Update, mode: StatsMode, n: nat)
    ensures LastN(PatchNewest(log, q, u, mode), n) == PatchNewest(LastN(log, n), q, u, mode)
    decreases |log|
  {
    hide Patched, PatchNewest, LastN;
    if log == [] {
      assert LastN<StatsEntry>([], n) == [];
      PatchSnoc([], StatsEntry(0, [], 0, 0, 0), q, u, mode);
    } else {
      var front, last := log[..|log| - 1], log[|log| - 1];
      assert log == front + [last];
      PatchSnoc(front, last, q, u, mode);
      LastNSnoc(front, last, n);
      LastNSnoc(front, Patched(last, u, mode), n);
      LastNSnoc(PatchNewest(front, q, u, mode), last, n);
      if n == 0 {
        LastNSnoc(log, last, 0);
        LastNSnoc(PatchNewest(log, q, u, mode), last, 0);
      } else {
        PatchCommutesWithTail(front, q, u, mode, n - 1);
        PatchSnoc(LastN(front, n - 1), last, q, u, mode);
      }
    }
  }

  lemma {:induction false} PatchAt(log: seq<StatsEntry>, q: nat, u: Update, mode: StatsMode, p: nat)
    requires p < |log| && log[p].seqNum == q && forall i :: p < i < |log| ==> log[i].seqNum != q
    ensures PatchNewest(log, q, u, mode) == log[p := Patched(log[p], u, mode)]
    decreases |log|
  {
    hide Patched;
    var m := |log| - 1;
    if p < m {
      PatchAt(log[..m], q, u, mode, p);
    }
  }

  lemma {:induction false} PatchNothing(log: seq<StatsEntry>, q: nat, u: Update, mode: StatsMode)
    requires forall i :: 0 <= i < |log| ==> log[i].seqNum != q
    ensures PatchNewest(log, q, u, mode) == log
  {
    if log != [] { PatchNothing(log[..|log| - 1], q, u, mode); }
  }

  // ---- Which timestamp a late update goes to.

  datatype Named = Named(name: string, ns: nat)

  /** The values a late update brings, by name: its own side's timestamps, and none in the direction a one-way program
      does not see. A round-trip client also keeps its cycle counts, when there are any. */
  ghost function LateValues(u: Update, mode: StatsMode): seq<Named> {
    var client := mode.ClientOneway? || mode.ClientRoundtrip?;
    match u
    case KernelTx(ker) =>
      if mode.ServerOneway? then [] else [Named(if client then "clt_ker_tx_ts" else "svr_ker_tx_ts", ker)]
    case AppTx(app, tsc) =>
      if mode.ServerOneway? then []
      else
        (if mode.ClientRoundtrip? && tsc > 0 then [Named("clt_app_tx_tsc_ts", tsc)] else [])
        + [Named(if client then "clt_app_tx_ts" else "svr_app_tx_ts", app)]
    case Rx(hw, ker, app, tsc) =>
      if mode.ClientOneway? then []
      else if client then
        (if tsc > 0 then [Named("clt_app_rx_tsc_ts", tsc)] else [])
        + [Named("clt_hw_rx_ts", hw)] + [Named("clt_ker_rx_ts", ker)] + [Named("clt_app_rx_ts", app)]
      else [Named("svr_hw_rx_ts", hw)] + [Named("svr_ker_rx_ts", ker)] + [Named("svr_app_rx_ts", app)]
  }

  /** The value listed for a name, or another when the name is not listed. */
  ghost function ValueOf(values: seq<Named>, name: string, otherwise: nat): nat {
    if values == [] then otherwise
    else if values[|values| - 1].name == name then values[|values| - 1].ns
    else ValueOf(values[..|values| - 1], name, otherwise)
  }

  lemma {:induction false} ValueSnoc(values: seq<Named>, p: nat, ns: nat, i: nat, otherwise: nat)
    requires p < 12 && i < 12
    ensures ValueOf(values + [Named(STAMP_NAMES[p], ns)], STAMP_NAMES[i], otherwise)
         == if i == p then ns else ValueOf(values, STAMP_NAMES[i], otherwise)
    ensures ValueOf([], STAMP_NAMES[i], otherwise) == otherwise
  {
    var all := values + [Named(STAMP_NAMES[p], ns)];
    assert all[..|values|] == values;
    if STAMP_NAMES[p] == STAMP_NAMES[i] { NamesDiffer(p, i); }
  }

  lemma {:induction false} ValueOnly(p: nat, ns: nat, i: nat, otherwise: nat)
    requires p < 12 && i < 12
    ensures ValueOf([Named(STAMP_NAMES[p], ns)], STAMP_NAMES[i], otherwise) == if i == p then ns else otherwise
  {
    ValueSnoc([], p, ns, i, otherwise);
    assert [] + [Named(STAMP_NAMES[p], ns)] == [Named(STAMP_NAMES[p], ns)];
  }

  lemma {:induction false} StampsByName(ts: seq<nat>, u: Update, mode: StatsMode, i: nat)
    requires |ts| == 12 && i < 12
    ensures |PatchedStamps(ts, u, mode)| == 12
    ensures PatchedStamps(ts, u, mode)[i] == ValueOf(LateValues(u, mode), STAMP_NAMES[i], ts[i])
  {
    hide ValueOf;
    ValueSnoc([], 0, 0, i, ts[i]);
    match u
    case KernelTx(ker) =>
      ValueOnly(2, ker, i, ts[i]);
      ValueOnly(11, ker, i, ts[i]);
    case AppTx(app, tsc) =>
      ValueSnoc([], 1, app, i, ts[i]);
      ValueSnoc([], 10, app, i, ts[i]);
      ValueOnly(0, tsc, i, ts[i]);
      ValueSnoc([Named(STAMP_NAMES[0], tsc)], 1, app, i, ts[i]);
    case Rx(hw, ker, app, tsc) =>
      LateRxByName(ts, hw, ker, app, tsc, mode, i);
  }

  lemma {:induction false} LateRxByName(ts: seq<nat>, hw: nat, ker: nat, app: nat, tsc: nat, mode: StatsMode, i: nat)
    requires |ts| == 12 && i < 12
    ensures var u := Rx(hw, ker, app, tsc);
      && |PatchedStamps(ts, u, mode)| == 12
      && PatchedStamps(ts, u, mode)[i] == ValueOf(LateValues(u, mode), STAMP_NAMES[i], ts[i])
  {
    hide ValueOf;
    ValueSnoc([], 0, 0, i, ts[i]);
    if mode.ClientRoundtrip? {
      var cycles := if tsc > 0 then [Named("clt_app_rx_tsc_ts", tsc)] else [];
      ValueOnly(5, tsc, i, ts[i]);
      ValueSnoc(cycles, 3, hw, i, ts[i]);
      ValueSnoc(cycles + [Named("clt_hw_rx_ts", hw)], 4, ker, i, ts[i]);
      ValueSnoc(cycles + [Named("clt_hw_rx_ts", hw)] + [Named("clt_ker_rx_ts", ker)], 6, app, i, ts[i]);
    } else {
      ValueOnly(7, hw, i, ts[i]);
      ValueSnoc([Named("svr_hw_rx_ts", hw)], 8, ker, i, ts[i]);
      ValueSnoc([Named("svr_hw_rx_ts", hw)] + [Named("svr_ker_rx_ts", ker)], 9, app, i, ts[i]);
    }
  }

  /** A late update stores each value under its own name and leaves every other timestamp, and the rest of the entry, as
      it was. */
  lemma {:induction false} LateUpdateByName(e: StatsEntry, u: Update, mode: StatsMode, i: nat)
    requires |e.timestampNs| == 12 && i < 12
    ensures var after := Patched(e, u, mode);
      && |after.timestampNs| == 12
      && after.timestampNs[i] == ValueOf(LateValues(u, mode), STAMP_NAMES[i], e.timestampNs[i])
      && after.seqNum == e.seqNum && after.srcPort == e.srcPort
      && after.entryType == e.entryType && after.timestampMask == e.timestampMask
  {
    hide PatchedStamps, ValueOf, LateValues;
    StampsByName(e.timestampNs, u, mode, i);
  }

  // ---- Ring indices.

  /** The slot i places after `from`, going round. */
  function SlotAfter(from: nat, i: nat, size: nat): (s: nat)
    requires from < size && i < size
    ensures s < size
  {
    if from + i < size then from + i else from + i - size
  }

  function Distance(head: nat, tail: nat, size: nat): (d: nat)
    requires head < size && tail < size
    ensures d < size
  {
    if tail <= head then head - tail else head + size - tail
  }

  /** The live entries: from `tail` round to just before `head`. */
  function LiveEntries(buffer: seq<StatsEntry>, tail: nat, count: nat): (live: seq<StatsEntry>)
    requires tail < |buffer| && count < |buffer|
    ensures |live| == count
  {
    seq(count, i requires 0 <= i < count => buffer[SlotAfter(tail, i, |buffer|)])
  }

  predicate RingSize(size: nat) {
    0 < size <= 0x8000_0000 && BitAnd(size, size - 1) == 0
  }

  function NextSlot(i: nat, size: nat): (s: nat)
    requires i < size
    ensures s < size
  {
    if i + 1 == size then 0 else i + 1
  }

  /** Masking any sum or difference of ring indices on uint32 brings it back into the ring. */
  lemma {:induction false} MaskedIndex(x: int, size: nat)
    requires RingSize(size) && 0 <= x + size && x < 2 * size
    ensures BitAnd(Wrap32(x), size - 1) == if x < 0 then x + size else if x < size then x else x - size
  {
    hide BitAnd, Pow2, Wrap32;
    PowerOfTwoTest(size);
    var k: nat :| size == Pow2(k);
    Pow2Values();
    if k > 32 { Pow2Monotone(32, k); }
    WrapThenMask(x, k);
    var q := if x < 0 then -1 else if x < size then 0 else 1;
    RemainderIs(x, size, q, if x < 0 then x + size else if x < size then x else x - size);
  }

  /** `(i + 1) & size_mask`. */
  lemma {:induction false} MaskedNext(i: nat, size: nat)
    requires RingSize(size) && i < size
    ensures BitAnd(Wrap32(i + 1), size - 1) == NextSlot(i, size)
  {
    hide BitAnd, Wrap32, RingSize;
    MaskedIndex(i + 1, size);
  }

  /** `stats_collector_t` with the unbounded log it stands for. */
  class StatsCollector {
    var buffer: array<StatsEntry>
    var head: nat
    var tail: nat
    var sizeMask: nat
    var totalEntries: nat
    var droppedEntries: nat
    ghost var log: seq<StatsEntry>

    ghost predicate Valid()
      reads this, buffer
    {
      && RingSize(buffer.Length) && sizeMask == buffer.Length - 1
      && head < buffer.Length && tail < buffer.Length
      && Contents() == LastN(log, buffer.Length - 1)
      && totalEntries == Wrap64(|log|) && droppedEntries == Wrap64(|log| - |Contents()|)
    }

    ghost function Contents(): seq<StatsEntry>
      requires head < buffer.Length && tail < buffer.Length
      reads this, buffer
    {
      LiveEntries(buffer[..], tail, Distance(head, tail, buffer.Length))
    }

    /** `create_stats_collector`, given the rounded-up size. */
    constructor (size: nat)
      requires RingSize(size)
      ensures Valid() && log == [] && fresh(buffer) && buffer.Length == size
    {
      buffer := new StatsEntry[size](_ => StatsEntry(0, seq(12, _ => 0), 0, 0, 0));
      head, tail, sizeMask := 0, 0, size - 1;
      totalEntries, droppedEntries := 0, 0;
      log := [];
    }

    /** `get_buffer_count`. */
    method GetBufferCount() returns (count: nat)
      requires Valid()
      ensures count == |Contents()|
      ensures Wrap64(totalEntries - droppedEntries) == count
    {
      hide BitAnd, Wrap32, Wrap64, LiveEntries;
      MaskedIndex(head - tail, buffer.Length);
      CounterDifference(|log|, |Contents()|);
      count := BitAnd(Wrap32(head - tail), sizeMask);
    }

    /** `stats_enqueue`. */
    method Enqueue(entry: StatsEntry)
      requires Valid()
      modifies this, buffer
      ensures Valid() && buffer == old(buffer) && log == old(log) + [entry]
    {
      hide BitAnd, LiveEntries, Wrap32, Wrap64, RingSize, NextSlot, Distance, LastN;
      ghost var size := buffer.Length;
      MaskedNext(head, size);
      MaskedNext(tail, size);
      EnqueueContents(buffer[..], head, tail, entry);
      LastNAppend(log, entry, size - 1);
      var nextHead := BitAnd(Wrap32(head + 1), sizeMask);
      EnqueueCounters(|log|, Distance(head, tail, size), nextHead == tail);
      FullRing(head, tail, size);
      if nextHead == tail {
        tail := BitAnd(Wrap32(tail + 1), sizeMask);
        droppedEntries := Wrap64(droppedEntries + 1);
      }
      buffer[head] := entry;
      assert buffer[..] == old(buffer[..])[old(head) := entry];
      head := nextHead;
      totalEntries := Wrap64(totalEntries + 1);
      log := log + [entry];
    }

    /** `update_stats_buffer_with_*_timestamp(s)`: the backward search, then the patch for the mode. */
    method UpdateTimestamps(q: nat, u: Update, mode: StatsMode)
      requires Valid()
      modifies this, buffer
      ensures Valid() && buffer == old(buffer) && log == PatchNewest(old(log), q, u, mode)
      ensures totalEntries == old(totalEntries) && droppedEntries == old(droppedEntries)
    {
      hide BitAnd, LiveEntries, Wrap32, Wrap64, RingSize, LastN, Patched, PatchNewest, SlotAfter, Distance;
      var count := GetBufferCount();
      ghost var live, size := Contents(), buffer.Length;
      PatchCommutesWithTail(log, q, u, mode, size - 1);
      var i := 0;
      while i < count
        invariant unchanged(this) && unchanged(buffer)
        invariant 0 <= i <= count && live == Contents()
        invariant forall p :: count - i <= p < count ==> live[p].seqNum != q
      {
        var index := BitAnd(Wrap32(head - 1 - i), sizeMask);
        BackSlot(head, tail, size, i);
        LiveAt(buffer[..], tail, count, count - 1 - i);
        if buffer[index].seqNum == q {
          PatchAt(live, q, u, mode, count - 1 - i);
          StoreLive(buffer[..], tail, count, count - 1 - i, Patched(buffer[index], u, mode));
          ghost var before := buffer[..];
          buffer[index] := Patched(buffer[index], u, mode);
          assert buffer[..] == before[index := Patched(before[index], u, mode)];
          log := PatchNewest(log, q, u, mode);
          return;
        }
        i := i + 1;
      }
      PatchNothing(live, q, u, mode);
      log := PatchNewest(log, q, u, mode);
    }
  }

  /** The i-th slot back from the head is the i-th live entry from the end. */
  lemma {:induction false} BackSlot(head: nat, tail: nat, size: nat, i: nat)
    requires RingSize(size) && head < size && tail < size && i < Distance(head, tail, size)
    ensures BitAnd(Wrap32(head - 1 - i), size - 1) == SlotAfter(tail, Distance(head, tail, size) - 1 - i, size)
  {
    hide BitAnd, Wrap32, RingSize;
    MaskedIndex(head - 1 - i, size);
  }

  /** Storing over a live slot replaces that live entry and no other. */
  lemma {:induction false} StoreLive(buffer: seq<StatsEntry>, tail: nat, count: nat, p: nat, entry: StatsEntry)
    requires tail < |buffer| && count < |buffer| && p < count
    ensures LiveEntries(buffer[SlotAfter(tail, p, |buffer|) := entry], tail, count)
         == LiveEntries(buffer, tail, count)[p := entry]
  {
  }

  lemma {:induction false} FullRing(head: nat, tail: nat, size: nat)
    requires head < size && tail < size
    ensures NextSlot(head, size) == tail <==> Distance(head, tail, size) == size - 1
    ensures Distance(NextSlot(head, size), if NextSlot(head, size) == tail then NextSlot(tail, size) else tail, size)
         == if NextSlot(head, size) == tail then size - 1 else Distance(head, tail, size) + 1
  {
  }

  /** `total_entries - dropped_entries` counts the live entries, even after the counters have wrapped. */
  lemma {:induction false} CounterDifference(logged: nat, live: nat)
    requires live < 0x8000_0000
    ensures Wrap64(Wrap64(logged) - Wrap64(logged - live)) == live
  {
  }

  /** The 64-bit counters keep to the log length and the number of evicted entries. */
  lemma {:induction false} EnqueueCounters(logged: nat, live: nat, full: bool)
    ensures Wrap64(Wrap64(logged) + 1) == Wrap64(logged + 1)
    ensures full ==> Wrap64(Wrap64(logged - live) + 1) == Wrap64(logged + 1 - live)
    ensures !full ==> Wrap64(logged - live) == Wrap64(logged + 1 - (live + 1))
  {
  }

  lemma {:induction false} LiveAt(buffer: seq<StatsEntry>, tail: nat, count: nat, i: nat)
    requires tail < |buffer| && count < |buffer| && i < count
    ensures LiveEntries(buffer, tail, count)[i] == buffer[SlotAfter(tail, i, |buffer|)]
  {
  }

  lemma {:induction false} EnqueueWithRoom(buffer: seq<StatsEntry>, head: nat, tail: nat, entry: StatsEntry)
    requires head < |buffer| && tail < |buffer| && NextSlot(head, |buffer|) != tail
    ensures LiveEntries(buffer[head := entry], tail, Distance(NextSlot(head, |buffer|), tail, |buffer|))
         == LiveEntries(buffer, tail, Distance(head, tail, |buffer|)) + [entry]
  {
    FullRing(head, tail, |buffer|);
  }

  lemma {:induction false} EnqueueWhenFull(buffer: seq<StatsEntry>, head: nat, tail: nat, entry: StatsEntry)
    requires head < |buffer| && tail < |buffer| && NextSlot(head, |buffer|) == tail
    ensures LiveEntries(buffer[head := entry], NextSlot(tail, |buffer|), |buffer| - 1)
         == (LiveEntries(buffer, tail, |buffer| - 1) + [entry])[1..]
  {
    var n := |buffer| - 1;
    var a := LiveEntries(buffer[head := entry], NextSlot(tail, |buffer|), n);
    var b := (LiveEntries(buffer, tail, n) + [entry])[1..];
    forall i | 0 <= i < n ensures a[i] == b[i] {
      LiveAt(buffer[head := entry], NextSlot(tail, |buffer|), n, i);
      if i + 1 < n { LiveAt(buffer, tail, n, i + 1); }
    }
  }

  /** The live entries after an enqueue: the old ones and the new, less the oldest when the ring was full. */
  lemma {:induction false} EnqueueContents(buffer: seq<StatsEntry>, head: nat, tail: nat, entry: StatsEntry)
    requires head < |buffer| && tail < |buffer|
    ensures var size := |buffer|;
      var next := NextSlot(head, size);
      var newTail := if next != tail then tail else NextSlot(tail, size);
      LiveEntries(buffer[head := entry], newTail, Distance(next, newTail, size))
        == LastN(LiveEntries(buffer, tail, Distance(head, tail, size)) + [entry], size - 1)
  {
    hide LiveEntries, NextSlot, Distance;
    FullRing(head, tail, |buffer|);
    if NextSlot(head, |buffer|) != tail {
      EnqueueWithRoom(buffer, head, tail, entry);
    } else {
      EnqueueWhenFull(buffer, head, tail, entry);
    }
  }

  // ---- Whole runs.

  datatype Op = Enqueue(entry: StatsEntry) | Late(seqNum: nat, update: Update, mode: StatsMode)

  /** The unbounded log after a run: every update patches the newest entry of its number. */
  function LogAfter(ops: seq<Op>): seq<StatsEntry> {
    if ops == [] then []
    else
      var log := LogAfter(ops[..|ops| - 1]);
      match ops[|ops| - 1]
      case Enqueue(e) => log + [e]
      case Late(q, u, mode) => PatchNewest(log, q, u, mode)
  }

  /** What a ring with room for `capacity` live entries shows after a run, seeing only itself. */
  function WindowAfter(ops: seq<Op>, capacity: nat): seq<StatsEntry> {
    if ops == [] then []
    else
      var window := WindowAfter(ops[..|ops| - 1], capacity);
      match ops[|ops| - 1]
      case Enqueue(e) => LastN(window + [e], capacity)
      case Late(q, u, mode) => PatchNewest(window, q, u, mode)
  }

  function Enqueues(ops: seq<Op>): nat {
    if ops == [] then 0 else Enqueues(ops[..|ops| - 1]) + if ops[|ops| - 1].Enqueue? then 1 else 0
  }

  /** After any run the bounded ring shows exactly the last min(total, capacity) entries of the unbounded log. */
  lemma {:induction false} WindowIsTailOfLog(ops: seq<Op>, capacity: nat)
    ensures WindowAfter(ops, capacity) == LastN(LogAfter(ops), capacity)
    ensures |LogAfter(ops)| == Enqueues(ops)
  {
    hide PatchNewest, LastN;
    EmptyTail(capacity);
    if ops != [] {
      var log := LogAfter(ops[..|ops| - 1]);
      WindowIsTailOfLog(ops[..|ops| - 1], capacity);
      match ops[|ops| - 1]
      case Enqueue(e) => LastNAppend(log, e, capacity);
      case Late(q, u, mode) => PatchCommutesWithTail(log, q, u, mode, capacity);
    }
  }

  lemma {:induction false} EmptyTail(n: nat)
    ensures LastN<StatsEntry>([], n) == []
  {
  }

  /** A run of the real collector, operation by operation. */
  method Replay(stats: StatsCollector, ops: seq<Op>)
    requires stats.Valid() && stats.log == []
    modifies stats, stats.buffer
    ensures stats.Valid() && stats.log == LogAfter(ops)
    ensures stats.Contents() == WindowAfter(ops, stats.buffer.Length - 1)
    ensures stats.totalEntries == Wrap64(Enqueues(ops))
  {
    hide PatchNewest, LastN, LiveEntries, Wrap64, RingSize, Distance;
    assert ops[..0] == [];
    for i := 0 to |ops|
      invariant stats.Valid() && stats.buffer == old(stats.buffer) && stats.log == LogAfter(ops[..i])
    {
      assert ops[..i + 1][..i] == ops[..i];
      match ops[i]
      case Enqueue(e) => stats.Enqueue(e);
      case Late(q, u, mode) => stats.UpdateTimestamps(q, u, mode);
    }
    assert ops[..|ops|] == ops;
    WindowIsTailOfLog(ops, stats.buffer.Length - 1);
  }
}
