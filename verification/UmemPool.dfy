// The UMEM frame pool of one AF_XDP socket: the four rings shared with the
// kernel, the frames waiting to be recycled and the TX counters. Application and
// kernel steps interleave freely; every RX frame keeps exactly one owner.
module UmemPool {
  import opened Bits

  const TX_FRAMES: nat := 2048
  const RX_FRAMES: nat := 2048
  const CHUNK: nat := 4096
  const TX_BATCH_SIZE: nat := 64
  const FILL_SIZE: nat := 4096     // RX_FRAMES * 2
  const COMP_SIZE: nat := 4096     // TX_FRAMES * 2

  datatype Desc = Desc(addr: nat, len: nat)

  /** Rings hold UMEM addresses; `kernelRx` and `inFlight` are what the kernel has taken from the fill and TX rings.
      `peeked` is the completion ring's own position: entries peeked and not yet released. `cached` is the socket's
      counter. */
  datatype Xsk = Xsk(
    fill: seq<nat>, kernelRx: seq<nat>, rx: seq<Desc>, pending: seq<nat>,
    tx: seq<Desc>, inFlight: seq<nat>, comp: seq<nat>, peeked: int,
    outstanding: nat, cached: nat, prevTx: nat,
    submitted: nat, released: nat)

  /** The frame an address lies in. */
  function FrameOf(addr: nat): nat { addr / 4096 }

  function FramesOf(addrs: seq<nat>): (f: seq<nat>)
    ensures |f| == |addrs|
  {
    seq<nat>(|addrs|, i requires 0 <= i < |addrs| => FrameOf(addrs[i]))
  }

  function Addrs(descs: seq<Desc>): (a: seq<nat>)
    ensures |a| == |descs|
  {
    seq<nat>(|descs|, i requires 0 <= i < |descs| => descs[i].addr)
  }

  /** The addresses bind puts into the fill ring. */
  function FillAddrs(n: nat): (a: seq<nat>)
    ensures |a| == n
  {
    seq<nat>(n, i requires 0 <= i < n => (TX_FRAMES + i) * 4096)
  }

  /** All or nothing: n entries when n are free, none otherwise. */
  function Reserve(used: nat, size: nat, n: nat): (r: nat)
    ensures r == n || r == 0
  {
    if used + n <= size then n else 0
  }

  // ---- Steps of the application.

  function Bound(): Xsk {
    var n := Reserve(0, FILL_SIZE, RX_FRAMES);
    Xsk(FillAddrs(n), [], [], [], [], [], [], 0, 0, 0, 0, 0, 0)
  }

  /** `receive`, peeking n entries: the peeked addresses replace the pending list, unless there were none. */
  function Receive(s: Xsk, n: nat): Xsk
    requires n <= |s.rx|
  {
    if n == 0 then s else s.(pending := Addrs(s.rx[..n]), rx := s.rx[n..])
  }

  /** `recycleFrames`: the pending list is cleared whether or not the fill ring had room. */
  function Recycle(s: Xsk): Xsk {
    if Reserve(|s.fill|, FILL_SIZE, |s.pending|) > 0
    then s.(fill := s.fill + s.pending, pending := [])
    else s.(pending := [])
  }

  /** `xsk_ring_cons__peek` on the completion ring: n further entries, out of those not yet peeked. */
  function PeekCompletions(s: Xsk, n: nat): Xsk { s.(peeked := s.peeked + n) }

  /** `xsk_ring_cons__release`: the consumer index moves on by n, whatever was peeked. */
  function ReleaseCompletions(s: Xsk, n: nat): Xsk {
    s.(comp := if n <= |s.comp| then s.comp[n..] else [], peeked := s.peeked - n, released := s.released + n)
  }

  /** `pollTxCompletions`, peeking n new completions: released in batches of at least 64, counters on uint32. */
  function Poll(s: Xsk, n: nat): Xsk {
    if s.outstanding == 0 then s
    else if n == 0 then PeekCompletions(s, 0)
    else
      var p := PeekCompletions(s, n);
      var cached := Wrap32(s.cached + n);
      if cached < TX_BATCH_SIZE then p.(cached := cached)
      else ReleaseCompletions(p, cached).(cached := 0, outstanding := Wrap32(s.outstanding - cached))
  }

  /** Completions are held back until 64 are at hand; then all of them are released and none is held any more. */
  lemma {:induction false} PollHoldsBack(s: Xsk, n: nat)
    requires s.cached <= s.outstanding < TWO_32 && s.outstanding > 0 && s.cached + n < TWO_32
    ensures var p := Poll(s, n);
      if n == 0 || s.cached + n < 64 then
        p.comp == s.comp && p.released == s.released && p.outstanding == s.outstanding && p.cached == s.cached + n
      else
        && p.released == s.released + s.cached + n && p.cached == 0
        && p.outstanding == Wrap32(s.outstanding - (s.cached + n))
        && (s.cached + n <= |s.comp| ==> p.comp == s.comp[s.cached + n..])
  {
  }

  /** `fetch_add(1) % tx_frames_` on a uint32 counter. */
  function NextTxFrame(s: Xsk): (f: nat)
    ensures f < TX_FRAMES
  {
    s.prevTx % 2048
  }

  function TakeTxFrame(s: Xsk): Xsk { s.(prevTx := Wrap32(s.prevTx + 1)) }

  function Submit(s: Xsk, descs: seq<Desc>): Xsk {
    s.(tx := s.tx + descs, outstanding := Wrap32(s.outstanding + |descs|), submitted := s.submitted + |descs|)
  }

  /** `sendSinglePacketDirect` after its poll: the frame number is taken even when the ring has no room. */
  function SendSingle(s: Xsk, len: nat): Xsk {
    var next := TakeTxFrame(s);
    if Reserve(|s.tx|, TX_FRAMES, 1) == 1 then Submit(next, [Desc(NextTxFrame(s) * 4096, len)]) else next
  }

  // ---- Runs: application and kernel steps in any order.

  datatype Event =
    | AppReceive(n: nat) | AppSend(polled: nat, len: nat) | AppRecycle
    | KernelTakesFill | KernelDelivers(i: nat, offset: nat, len: nat)
    | KernelTakesTx | KernelCompletes

  /** Between a non-empty receive and the recycle the loop body is processing. */
  datatype Loop = Loop(xsk: Xsk, processing: bool)

  predicate CanHappen(l: Loop, ev: Event) {
    var s := l.xsk;
    match ev
    case AppReceive(n) => !l.processing && n <= |s.rx| && n <= 64
    case AppSend(polled, len) => l.processing && s.peeked + polled <= |s.comp| && polled <= TX_FRAMES
    case AppRecycle => l.processing
    case KernelTakesFill => s.fill != []
    case KernelDelivers(i, offset, len) =>
      i < |s.kernelRx| && |s.rx| < RX_FRAMES && offset + len <= CHUNK && offset < CHUNK
    case KernelTakesTx => s.tx != [] && |s.inFlight| + |s.comp| < COMP_SIZE
    case KernelCompletes => s.inFlight != []
  }

  /** The start of the chunk an address lies in. */
  function ChunkStart(addr: nat): nat { FrameOf(addr) * 4096 }

  function Perform(l: Loop, ev: Event): Loop
    requires CanHappen(l, ev)
  {
    var s := l.xsk;
    match ev
    case AppReceive(n) => Loop(Receive(s, n), n > 0)
    case AppSend(polled, len) => l.(xsk := SendSingle(Poll(s, polled), len))
    case AppRecycle => Loop(Recycle(s), false)
    case KernelTakesFill => l.(xsk := s.(fill := s.fill[1..], kernelRx := s.kernelRx + [s.fill[0]]))
    case KernelDelivers(i, offset, len) =>
      l.(xsk := s.(kernelRx := s.kernelRx[..i] + s.kernelRx[i + 1..],
                   rx := s.rx + [Desc(ChunkStart(s.kernelRx[i]) + offset, len)]))
    case KernelTakesTx => l.(xsk := s.(tx := s.tx[1..], inFlight := s.inFlight + [s.tx[0].addr]))
    case KernelCompletes => l.(xsk := s.(inFlight := s.inFlight[1..], comp := s.comp + [s.inFlight[0]]))
  }

  ghost predicate PoolRun(states: seq<Loop>, events: seq<Event>) {
    && |states| == |events| + 1 && states[0] == Loop(Bound(), false)
    && forall i :: 0 <= i < |events| ==> PoolStep(states[i], events[i], states[i + 1])
  }

  ghost predicate PoolStep(l: Loop, ev: Event, l': Loop) {
    CanHappen(l, ev) && l' == Perform(l, ev)
  }

  // ---- One owner per RX frame.

  /** Every place an RX frame can be, with multiplicity. */
  ghost function Owned(s: Xsk): multiset<nat> {
    multiset(FramesOf(s.fill)) + multiset(FramesOf(s.kernelRx))
    + multiset(FramesOf(Addrs(s.rx))) + multiset(FramesOf(s.pending))
  }

  ghost function RxPool(): multiset<nat> { multiset(FramesOf(FillAddrs(RX_FRAMES))) }

  ghost predicate OwnerInv(l: Loop) {
    && Owned(l.xsk) == RxPool()
    && (!l.processing ==> l.xsk.pending == [])
  }

  /** Completions, transmissions in flight and the TX ring make up what is outstanding. */
  ghost predicate CounterInv(s: Xsk) {
    && s.submitted == s.released + s.outstanding
    && s.outstanding == |s.tx| + |s.inFlight| + |s.comp|
    && s.cached == s.peeked <= |s.comp| && s.cached < TX_BATCH_SIZE
    && |s.tx| <= TX_FRAMES && |s.inFlight| + |s.comp| <= COMP_SIZE
  }

  ghost predicate TxInv(s: Xsk) {
    && (forall i :: 0 <= i < |s.tx| ==> FrameOf(s.tx[i].addr) < TX_FRAMES)
    && (forall i :: 0 <= i < |s.inFlight| ==> FrameOf(s.inFlight[i]) < TX_FRAMES)
    && (forall i :: 0 <= i < |s.comp| ==> FrameOf(s.comp[i]) < TX_FRAMES)
    && s.prevTx < TWO_32
  }

  lemma {:induction false} FramesAppend(a: seq<nat>, b: seq<nat>)
    ensures FramesOf(a + b) == FramesOf(a) + FramesOf(b)
    ensures multiset(FramesOf(a + b)) == multiset(FramesOf(a)) + multiset(FramesOf(b))
  {
    hide FrameOf;
  }

  lemma {:induction false} AddrsAppend(a: seq<Desc>, b: seq<Desc>)
    ensures Addrs(a + b) == Addrs(a) + Addrs(b)
  {
  }

  lemma {:induction false} OneFrame(addr: nat)
    ensures multiset(FramesOf([addr])) == multiset{FrameOf(addr)}
    ensures Addrs([Desc(addr, 0)]) == [addr]
  {
    hide FrameOf;
    assert FramesOf([addr]) == [FrameOf(addr)];
  }

  lemma {:induction false} SameChunk(addr: nat, offset: nat)
    requires offset < CHUNK
    ensures FrameOf(ChunkStart(addr) + offset) == FrameOf(addr)
  {
  }

  /** Conservation through receive: nothing is lost exactly when the pending list was empty or nothing arrived. */
  lemma {:induction false} ReceiveConserves(s: Xsk, n: nat)
    requires n <= |s.rx|
    ensures Owned(Receive(s, n)) == Owned(s) <==> s.pending == [] || n == 0
  {
    hide FramesOf, Addrs;
    if n > 0 {
      assert s.rx == s.rx[..n] + s.rx[n..];
      AddrsAppend(s.rx[..n], s.rx[n..]);
      FramesAppend(Addrs(s.rx[..n]), Addrs(s.rx[n..]));
      NoFrames();
      var lost := multiset(FramesOf(s.pending));
      assert Owned(s) == Owned(Receive(s, n)) + lost;
      assert |lost| == |s.pending|;
      assert |Owned(s)| == |Owned(Receive(s, n))| + |lost|;
    }
  }

  lemma {:induction false} NoFrames()
    ensures multiset(FramesOf([])) == multiset{}
  {
  }

  /** Conservation through recycle: nothing is lost exactly when the fill ring has room for the pending frames. */
  lemma {:induction false} RecycleConserves(s: Xsk)
    ensures Owned(Recycle(s)) == Owned(s) <==> s.pending == [] || |s.fill| + |s.pending| <= FILL_SIZE
  {
    hide FramesOf, Addrs;
    FramesAppend(s.fill, s.pending);
    NoFrames();
    var lost := multiset(FramesOf(s.pending));
    assert |lost| == |s.pending|;
    assert Owned(s) == Owned(s.(pending := [])) + lost;
    assert |Owned(s)| == |Owned(s.(pending := []))| + |lost|;
  }

  lemma {:induction false} OwnedSize(s: Xsk)
    ensures |Owned(s)| == |s.fill| + |s.kernelRx| + |s.rx| + |s.pending|
  {
    hide FramesOf, Addrs;
    var a, b := multiset(FramesOf(s.fill)), multiset(FramesOf(s.kernelRx));
    var c, d := multiset(FramesOf(Addrs(s.rx))), multiset(FramesOf(s.pending));
    assert |a + b| == |a| + |b|;
    assert |a + b + c| == |a + b| + |c|;
  }

  /** The fill ring always has room: it can never hold more than the 2048 RX frames. */
  lemma {:induction false} FillHasRoom(s: Xsk)
    requires Owned(s) == RxPool()
    ensures |s.fill| + |s.pending| <= RX_FRAMES
  {
    hide Owned, FramesOf;
    OwnedSize(s);
  }

  lemma {:induction false} KernelFillConserves(s: Xsk)
    requires s.fill != []
    ensures Owned(s.(fill := s.fill[1..], kernelRx := s.kernelRx + [s.fill[0]])) == Owned(s)
  {
    hide FramesOf, Addrs;
    assert s.fill == [s.fill[0]] + s.fill[1..];
    FramesAppend([s.fill[0]], s.fill[1..]);
    FramesAppend(s.kernelRx, [s.fill[0]]);
  }

  lemma {:induction false} DeliveryConserves(s: Xsk, i: nat, offset: nat, len: nat)
    requires i < |s.kernelRx| && offset < CHUNK
    ensures Owned(s.(kernelRx := s.kernelRx[..i] + s.kernelRx[i + 1..],
                     rx := s.rx + [Desc(ChunkStart(s.kernelRx[i]) + offset, len)]))
         == Owned(s)
  {
    hide FramesOf, ChunkStart, FrameOf;
    var front, mid, back := s.kernelRx[..i], [s.kernelRx[i]], s.kernelRx[i + 1..];
    var d := Desc(ChunkStart(s.kernelRx[i]) + offset, len);
    assert s.kernelRx == front + (mid + back);
    FramesAppend(front, mid + back);
    FramesAppend(mid, back);
    FramesAppend(front, back);
    AddrsAppend(s.rx, [d]);
    assert Addrs([d]) == [d.addr];
    FramesAppend(Addrs(s.rx), [d.addr]);
    OneFrame(d.addr);
    OneFrame(s.kernelRx[i]);
    SameChunk(s.kernelRx[i], offset);
  }

  lemma {:induction false} SendKeepsRx(s: Xsk, polled: nat, len: nat)
    ensures Owned(SendSingle(Poll(s, polled), len)) == Owned(s)
    ensures SendSingle(Poll(s, polled), len).pending == s.pending
  {
    hide FramesOf, Addrs, Reserve, NextTxFrame;
  }

  lemma {:induction false} StepKeepsOwners(l: Loop, ev: Event)
    requires OwnerInv(l) && CanHappen(l, ev)
    ensures OwnerInv(Perform(l, ev))
  {
    hide Owned, RxPool, FramesOf, ChunkStart, SendSingle, Poll;
    var s := l.xsk;
    match ev
    case AppReceive(n) => ReceiveConserves(s, n);
    case AppSend(polled, len) => SendKeepsRx(s, polled, len);
    case AppRecycle =>
      FillHasRoom(s);
      RecycleConserves(s);
    case KernelTakesFill => KernelFillConserves(s);
    case KernelDelivers(i, offset, len) => DeliveryConserves(s, i, offset, len);
    case KernelTakesTx => OwnedIgnoresTx(s, Perform(l, ev).xsk);
    case KernelCompletes => OwnedIgnoresTx(s, Perform(l, ev).xsk);
  }

  lemma {:induction false} OwnedIgnoresTx(s: Xsk, t: Xsk)
    requires t.fill == s.fill && t.kernelRx == s.kernelRx && t.rx == s.rx && t.pending == s.pending
    ensures Owned(t) == Owned(s)
  {
  }

  // ---- The TX counters.

  lemma {:induction false} PollKeepsCounters(s: Xsk, n: nat)
    requires CounterInv(s) && s.peeked + n <= |s.comp|
    ensures CounterInv(Poll(s, n))
    ensures Poll(s, n).outstanding <= s.outstanding && Poll(s, n).tx == s.tx
  {
  }

  lemma {:induction false} SendKeepsCounters(s: Xsk, len: nat)
    requires CounterInv(s)
    ensures CounterInv(SendSingle(s, len))
  {
    hide NextTxFrame, Wrap32;
  }

  lemma {:induction false} StepKeepsCounters(l: Loop, ev: Event)
    requires CounterInv(l.xsk) && CanHappen(l, ev)
    ensures CounterInv(Perform(l, ev).xsk)
  {
    hide FramesOf, ChunkStart, FrameOf, SendSingle, Poll;
    match ev
    case AppSend(polled, len) =>
      PollKeepsCounters(l.xsk, polled);
      SendKeepsCounters(Poll(l.xsk, polled), len);
    case _ =>
  }

  lemma {:induction false} FrameAddress(f: nat)
    ensures FrameOf(f * 4096) == f
  {
  }

  lemma {:induction false} PollKeepsTx(s: Xsk, n: nat)
    requires TxInv(s)
    ensures TxInv(Poll(s, n))
  {
    hide FrameOf, Wrap32;
  }

  lemma {:induction false} SendKeepsTx(s: Xsk, len: nat)
    requires TxInv(s)
    ensures TxInv(SendSingle(s, len))
  {
    hide FrameOf, NextTxFrame, Wrap32;
    FrameAddress(NextTxFrame(s));
  }

  lemma {:induction false} StepKeepsTx(l: Loop, ev: Event)
    requires TxInv(l.xsk) && CanHappen(l, ev)
    ensures TxInv(Perform(l, ev).xsk)
  {
    hide FrameOf, FramesOf, NextTxFrame, Addrs, Poll, SendSingle;
    if ev.AppSend? {
      PollKeepsTx(l.xsk, ev.polled);
      SendKeepsTx(Poll(l.xsk, ev.polled), ev.len);
    }
  }

  lemma {:induction false} BoundInv()
    ensures OwnerInv(Loop(Bound(), false)) && CounterInv(Bound()) && TxInv(Bound())
  {
    hide FrameOf;
    NoFrames();
    assert Addrs([]) == [];
  }

  lemma {:induction false} RunKeepsInv(states: seq<Loop>, events: seq<Event>, i: nat)
    requires PoolRun(states, events) && i <= |events|
    ensures OwnerInv(states[i]) && CounterInv(states[i].xsk) && TxInv(states[i].xsk)
  {
    hide OwnerInv, CounterInv, TxInv, CanHappen, Perform, Bound;
    if i == 0 {
      BoundInv();
    } else {
      RunKeepsInv(states, events, i - 1);
      assert PoolStep(states[i - 1], events[i - 1], states[i]);
      StepKeepsOwners(states[i - 1], events[i - 1]);
      StepKeepsCounters(states[i - 1], events[i - 1]);
      StepKeepsTx(states[i - 1], events[i - 1]);
    }
  }

  // ---- What every run guarantees.

  lemma {:induction false} PoolHasEachOnce(f: nat)
    ensures RxPool()[f] == if TX_FRAMES <= f < TX_FRAMES + RX_FRAMES then 1 else 0
  {
    FirstFrames(RX_FRAMES, f);
  }

  lemma {:induction false} FirstFrames(n: nat, f: nat)
    ensures multiset(FramesOf(FillAddrs(n)))[f] == if TX_FRAMES <= f < TX_FRAMES + n then 1 else 0
  {
    hide FrameOf, FramesOf;
    if n == 0 {
      NoFrames();
      assert FillAddrs(0) == [];
    } else {
      FirstFrames(n - 1, f);
      var last := (TX_FRAMES + (n - 1)) * 4096;
      assert FillAddrs(n) == FillAddrs(n - 1) + [last];
      FramesAppend(FillAddrs(n - 1), [last]);
      OneFrame(last);
      FrameAddress(TX_FRAMES + (n - 1));
    }
  }

  /** In every reachable state each RX frame is in exactly one place, once, and nothing else is in any of them. */
  lemma {:induction false} EveryRxFrameHasOneOwner(states: seq<Loop>, events: seq<Event>, i: nat, f: nat)
    requires PoolRun(states, events) && i <= |events|
    ensures var s := states[i].xsk;
      multiset(FramesOf(s.fill))[f] + multiset(FramesOf(s.kernelRx))[f]
        + multiset(FramesOf(Addrs(s.rx)))[f] + multiset(FramesOf(s.pending))[f]
        == if TX_FRAMES <= f < TX_FRAMES + RX_FRAMES then 1 else 0
  {
    RunKeepsInv(states, events, i);
    hide PoolRun, RxPool, CounterInv, TxInv, FramesOf, Addrs;
    PoolHasEachOnce(f);
  }

  /** So recycling always finds room, and puts every pending frame back. */
  lemma {:induction false} RecyclingLosesNothing(states: seq<Loop>, events: seq<Event>, i: nat)
    requires PoolRun(states, events) && i <= |events|
    ensures var s := states[i].xsk;
      && |s.fill| + |s.pending| <= RX_FRAMES < FILL_SIZE
      && Recycle(s).fill == s.fill + s.pending && Recycle(s).pending == [] && Owned(Recycle(s)) == Owned(s)
  {
    RunKeepsInv(states, events, i);
    hide PoolRun, RxPool, CounterInv, TxInv, FramesOf, Addrs, Owned;
    FillHasRoom(states[i].xsk);
    RecycleConserves(states[i].xsk);
  }

  function SendCount(events: seq<Event>): nat {
    if events == [] then 0 else SendCount(events[..|events| - 1]) + if events[|events| - 1].AppSend? then 1 else 0
  }

  lemma {:induction false} NextTakes(s: Xsk, n: nat)
    requires s.prevTx == Wrap32(n)
    ensures NextTxFrame(s) == n % 2048 && TakeTxFrame(s).prevTx == Wrap32(n + 1)
  {
    RemainderOfRemainder(n, 2048, 0x1_0000_0000);
  }

  lemma {:induction false} PollKeepsFrame(s: Xsk, n: nat)
    ensures Poll(s, n).prevTx == s.prevTx && Poll(s, n).tx == s.tx
  {
    hide Wrap32;
  }

  /** TX frames are used in turn: the n-th send of a run, counting from zero, takes frame n modulo 2048, whether or not
      the ring had room, and the descriptor it adds points there. */
  lemma {:induction false} SendsTakeFramesInTurn(states: seq<Loop>, events: seq<Event>, i: nat)
    requires PoolRun(states, events) && i <= |events|
    ensures NextTxFrame(states[i].xsk) == SendCount(events[..i]) % 2048
    ensures states[i].xsk.prevTx == Wrap32(SendCount(events[..i]))
    ensures i < |events| && events[i].AppSend? && |states[i].xsk.tx| < TX_FRAMES ==>
      states[i + 1].xsk.tx == states[i].xsk.tx + [Desc(SendCount(events[..i]) % 2048 * 4096, events[i].len)]
  {
    hide NextTxFrame, Wrap32, Poll, FramesOf, Addrs, ChunkStart, FillAddrs;
    if i > 0 {
      SendsTakeFramesInTurn(states, events, i - 1);
      assert PoolStep(states[i - 1], events[i - 1], states[i]);
      assert events[..i][..i - 1] == events[..i - 1];
      if events[i - 1].AppSend? {
        PollKeepsFrame(states[i - 1].xsk, events[i - 1].polled);
        NextTakes(states[i - 1].xsk, SendCount(events[..i - 1]));
      }
    }
    FrameZero();
    NextTakes(states[i].xsk, SendCount(events[..i]));
    if i < |events| && events[i].AppSend? {
      assert PoolStep(states[i], events[i], states[i + 1]);
      PollKeepsFrame(states[i].xsk, events[i].polled);
      NextTakes(Poll(states[i].xsk, events[i].polled), SendCount(events[..i]));
    }
  }

  lemma {:induction false} FrameZero()
    ensures Wrap32(0) == 0
  {
  }

  /** No run receives over frames still pending, so receiving loses none either. */
  lemma {:induction false} ReceivingLosesNothing(states: seq<Loop>, events: seq<Event>, i: nat, n: nat)
    requires PoolRun(states, events) && i <= |events| && CanHappen(states[i], AppReceive(n))
    ensures states[i].xsk.pending == [] && Owned(Receive(states[i].xsk, n)) == Owned(states[i].xsk)
  {
    RunKeepsInv(states, events, i);
    hide PoolRun, CounterInv, TxInv, Owned, FramesOf, Addrs;
    ReceiveConserves(states[i].xsk, n);
  }

  /** The counters: submitted = released + outstanding; the socket's count of held-back completions is exactly what
      the ring has peeked and not released, and fewer than 64; no uint32 wrap. */
  lemma {:induction false} CountersAgree(states: seq<Loop>, events: seq<Event>, i: nat)
    requires PoolRun(states, events) && i <= |events|
    ensures var s := states[i].xsk;
      && s.submitted == s.released + s.outstanding
      && s.cached == s.peeked <= |s.comp| && s.cached < 64
      && s.outstanding <= 2048 + 4096
  {
    RunKeepsInv(states, events, i);
    hide PoolRun, OwnerInv, TxInv;
  }

  /** An RX frame the application reads, the kernel fills, or the ring holds. */
  ghost predicate HeldForReceiving(s: Xsk, addr: nat) {
    addr in s.pending || addr in s.kernelRx || addr in s.fill || addr in Addrs(s.rx)
  }

  /** A frame queued for sending, being sent by the kernel, or completed and not yet released. */
  ghost predicate OnItsWayOut(s: Xsk, addr: nat) {
    addr in Addrs(s.tx) || addr in s.inFlight || addr in s.comp
  }

  /** No frame on its way out shares a byte with a frame being read, filled or received into; nor will the next one. */
  lemma {:induction false} TxNeverOverlapsRx(states: seq<Loop>, events: seq<Event>, i: nat, t: nat, r: nat)
    requires PoolRun(states, events) && i <= |events|
    requires OnItsWayOut(states[i].xsk, t) && HeldForReceiving(states[i].xsk, r)
    ensures ChunkStart(t) + CHUNK <= TX_FRAMES * CHUNK <= ChunkStart(r)
    ensures (NextTxFrame(states[i].xsk) + 1) * CHUNK <= TX_FRAMES * CHUNK
  {
    RunKeepsInv(states, events, i);
    var s := states[i].xsk;
    hide PoolRun, CounterInv, Owned, RxPool, FramesOf, FrameOf;
    if t in Addrs(s.tx) { var k :| 0 <= k < |s.tx| && s.tx[k].addr == t; }
    FrameOfRx(s, r);
  }

  lemma {:induction false} FrameOfRx(s: Xsk, addr: nat)
    requires Owned(s) == RxPool() && HeldForReceiving(s, addr)
    ensures TX_FRAMES <= FrameOf(addr) < TX_FRAMES + RX_FRAMES
  {
    hide RxPool, FrameOf;
    PoolHasEachOnce(FrameOf(addr));
    FrameIn(s.pending, addr);
    FrameIn(s.kernelRx, addr);
    FrameIn(s.fill, addr);
    FrameIn(Addrs(s.rx), addr);
  }

  lemma {:induction false} FrameIn(addrs: seq<nat>, addr: nat)
    ensures addr in addrs ==> multiset(FramesOf(addrs))[FrameOf(addr)] > 0
  {
    hide FrameOf;
    if addr in addrs {
      var k :| 0 <= k < |addrs| && addrs[k] == addr;
      assert FramesOf(addrs)[k] == FrameOf(addr);
    }
  }

  /** Releasing does not look at the socket's counters. */
  lemma {:induction false} ReleaseFirst(s: Xsk, n: nat)
    ensures forall c :: ReleaseCompletions(s.(cached := c), n) == ReleaseCompletions(s, n).(cached := c)
    ensures ReleaseCompletions(s, n).outstanding == s.outstanding && ReleaseCompletions(s, n).cached == s.cached
  {
  }

  // ---- The socket object.

  /** `AFXDPSocket`: the rings as it sees them, its counters, and the kernel's side as ghosts. */
  class AFXDPSocket {
    var fill: seq<nat>
    var rx: seq<Desc>
    var tx: seq<Desc>
    var comp: seq<nat>
    var compPeeked: int
    var pendingRecycleAddrs: seq<nat>
    var outstandingTx: nat
    var cachedCompletions: nat
    var prevUmemTxFrame: nat
    ghost var kernelRx: seq<nat>
    ghost var inFlight: seq<nat>
    ghost var submitted: nat
    ghost var released: nat

    ghost function State(): Xsk
      reads this
    {
      Xsk(fill, kernelRx, rx, pendingRecycleAddrs, tx, inFlight, comp, compPeeked,
          outstandingTx, cachedCompletions, prevUmemTxFrame, submitted, released)
    }

    /** `bind`, once the socket exists: RX_FRAMES chunks after the TX ones go into the fill ring. */
    constructor ()
      ensures State() == Bound()
    {
      rx, tx, comp, pendingRecycleAddrs := [], [], [], [];
      compPeeked, outstandingTx, cachedCompletions, prevUmemTxFrame := 0, 0, 0, 0;
      kernelRx, inFlight, submitted, released := [], [], 0, 0;
      var reserved := Reserve(0, FILL_SIZE, RX_FRAMES);
      var slots: seq<nat> := [];
      var i := 0;
      while i < reserved
        invariant i <= reserved && slots == FillAddrs(i)
      {
        slots := slots + [(TX_FRAMES + i) * 4096];
        i := i + 1;
      }
      fill := slots;
    }

    /** `receive`, given how many entries the peek found: descriptors out, addresses kept for recycling. */
    method ReceiveFrames(offsets: array<nat>, lengths: array<nat>, peeked: nat) returns (valid: nat)
      requires offsets != lengths && peeked <= |rx| && peeked <= offsets.Length && peeked <= lengths.Length
      modifies this, offsets, lengths
      ensures State() == Receive(old(State()), peeked) && valid == peeked
      ensures forall i :: 0 <= i < peeked ==> offsets[i] == old(rx)[i].addr && lengths[i] == old(rx)[i].len
    {
      valid := 0;
      if peeked == 0 { return; }
      var recycle: seq<nat> := [];
      for i := 0 to peeked
        invariant unchanged(this) && valid == i && recycle == Addrs(rx[..i])
        invariant forall k :: 0 <= k < i ==> offsets[k] == rx[k].addr && lengths[k] == rx[k].len
      {
        recycle := recycle + [rx[i].addr];
        offsets[valid] := rx[i].addr;
        lengths[valid] := rx[i].len;
        valid := valid + 1;
      }
      rx := rx[peeked..];
      pendingRecycleAddrs := recycle;
    }

    /** `recycleFrames`. */
    method RecycleFrames()
      modifies this
      ensures State() == Recycle(old(State()))
    {
      if |pendingRecycleAddrs| > 0 {
        var capacity := Reserve(|fill|, FILL_SIZE, |pendingRecycleAddrs|);
        if capacity > 0 {
          var slots: seq<nat> := [];
          for i := 0 to capacity
            invariant unchanged(this) && slots == pendingRecycleAddrs[..i]
          {
            slots := slots + [pendingRecycleAddrs[i]];
          }
          assert pendingRecycleAddrs[..capacity] == pendingRecycleAddrs;
          fill := fill + slots;
        }
        pendingRecycleAddrs := [];
      }
    }

    /** `xsk_ring_cons__peek` on the completion ring. */
    method PeekCompletionRing(found: nat)
      modifies `compPeeked
      ensures State() == PeekCompletions(old(State()), found)
    {
      compPeeked := compPeeked + found;
    }

    /** `xsk_ring_cons__release` on the completion ring. */
    method ReleaseCompletionRing(n: nat)
      modifies `comp, `compPeeked, `released
      ensures State() == ReleaseCompletions(old(State()), n)
    {
      comp := if n <= |comp| then comp[n..] else [];
      compPeeked := compPeeked - n;
      released := released + n;
    }

    /** `pollTxCompletions`, given how many completions the peek finds. */
    method PollTxCompletions(found: nat)
      modifies this
      ensures State() == Poll(old(State()), found)
    {
      hide Wrap32, ReleaseCompletions;
      if outstandingTx == 0 { return; }
      PeekCompletionRing(found);
      if found == 0 { return; }
      cachedCompletions := Wrap32(cachedCompletions + found);
      if cachedCompletions < TX_BATCH_SIZE { return; }
      ReleaseFirst(State(), cachedCompletions);
      ReleaseCompletionRing(cachedCompletions);
      outstandingTx := Wrap32(outstandingTx - cachedCompletions);
      cachedCompletions := 0;
    }

    /** `getNextTxFrame`. */
    method GetNextTxFrame() returns (frame: nat)
      modifies this
      ensures frame == NextTxFrame(old(State())) && State() == TakeTxFrame(old(State()))
    {
      frame := prevUmemTxFrame % 2048;
      prevUmemTxFrame := Wrap32(prevUmemTxFrame + 1);
    }

    /** The ring part of sendSinglePacketDirect: poll, take a frame, reserve, submit. */
    method SendSinglePacket(found: nat, len: nat) returns (sent: bool)
      modifies this
      ensures State() == SendSingle(Poll(old(State()), found), len)
      ensures sent <==> Reserve(|old(tx)|, TX_FRAMES, 1) == 1
    {
      PollTxCompletions(found);
      var frame := GetNextTxFrame();
      var reserved := Reserve(|tx|, TX_FRAMES, 1);
      if reserved != 1 { return false; }
      tx := tx + [Desc(frame * 4096, len)];
      outstandingTx, submitted := Wrap32(outstandingTx + 1), submitted + 1;
      sent := true;
    }

    /** `sendBatch`: its guard on outstanding_tx_ means the reservation that follows never fails. */
    method SendBatch(offsets: seq<nat>, lengths: seq<nat>, batchSize: int, found: nat) returns (sent: nat)
      requires CounterInv(State()) && compPeeked + found <= |comp|
      requires batchSize <= |offsets| && batchSize <= |lengths|
      modifies this
      ensures var polled := Poll(old(State()), found);
        && CounterInv(State())
        && sent == (if polled.outstanding > 1984 || batchSize <= 0 then 0 else if batchSize < 64 then batchSize else 64)
        && State() == Submit(polled, seq(sent, i requires 0 <= i < sent => Desc(offsets[i], lengths[i])))
    {
      hide FrameOf, Wrap32;
      PollKeepsCounters(State(), found);
      PollTxCompletions(found);
      sent := 0;
      if outstandingTx > TX_FRAMES - TX_BATCH_SIZE { return; }
      var size: int := if batchSize < TX_BATCH_SIZE then batchSize else TX_BATCH_SIZE;
      if size <= 0 { return; }
      var reserved := Reserve(|tx|, TX_FRAMES, size);
      assert reserved == size;
      var slots: seq<Desc> := [];
      for i := 0 to size
        invariant State() == Poll(old(State()), found)
        invariant slots == seq(i, k requires 0 <= k < i => Desc(offsets[k], lengths[k]))
      {
        slots := slots + [Desc(offsets[i], lengths[i])];
      }
      tx := tx + slots;
      outstandingTx, submitted := Wrap32(outstandingTx + size), submitted + size;
      sent := size;
    }
  }
}
