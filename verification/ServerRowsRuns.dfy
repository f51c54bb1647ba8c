// A run of the round-trip server in which the TX thread overtakes the receiving
// thread: the reply is out and its row logged before the packet is stored.
module ServerRowsRuns {
  import opened Bits
  import opened Correlation
  import opened Runs
  import opened SpscQueue
  import opened TxReplies
  import opened ServerRows

  ghost predicate At(s: Server, z: Server) {
    Leads(ServerStep, s, z) && RowsInv(z) && Shape(z.tx.queue)
  }

  lemma {:induction false} StartAt(s: Server)
    requires ServerStart(s)
    ensures At(s, s)
  {
    hide RowsInv, Leads, Shape;
    Stay(ServerStep, s);
    StartRows(s);
    InvShape(s);
  }

  lemma {:induction false} AtShape(s: Server, z: Server)
    requires At(s, z)
    ensures Shape(z.tx.queue) && SpscQueue.Inv(z.tx.queue) && z.tx.queue.width == 13 && TxInv(z.tx) && RowsInv(z)
  {
    hide Leads;
  }

  /** One more event. */
  lemma {:induction false} Then(s: Server, z: Server, ev: ServerEvent) returns (z': Server)
    requires At(s, z) && Shape(z.tx.queue) && ServerCan(z, ev)
    ensures z' == ServerPerform(z, ev) && At(s, z')
  {
    hide RowsInv, ServerCan, ServerPerform, Shape, Leads;
    z' := ServerPerform(z, ev);
    StepKeepsRows(z, ev);
    InvShape(z');
    LeadsThen(ServerStep, s, z, ev, z');
  }

  // ---- The receiving thread hands a request over.

  /** Only the queue's producing side has moved, and the receiving thread is still at its enqueue. */
  ghost predicate OnlyProducerMoved(y: Server, z: Server) {
    && z == y.(tx := y.tx.(queue := z.tx.queue)) && z.tx.queue.accepted == y.tx.queue.accepted
    && z.tx.queue.consumed == y.tx.queue.consumed && z.tx.queue.consumer == y.tx.queue.consumer
    && z.tx.queue.width == y.tx.queue.width && z.tx.queue.size == y.tx.queue.size
  }

  lemma {:induction false} CopyWordsIn(s: Server, z: Server) returns (y: Server)
    requires At(s, z) && z.rx == Enqueuing && z.tx.queue.producer.Copying?
    ensures At(s, y) && OnlyProducerMoved(z, y)
    ensures y.tx.queue.producer.Copying? && y.tx.queue.producer.done == y.tx.queue.width
    ensures y.tx.queue.producer.entry == z.tx.queue.producer.entry
    decreases if z.tx.queue.producer.done < z.tx.queue.width then z.tx.queue.width - z.tx.queue.producer.done else 0
  {
    hide At, RowsInv, TxInv, SpscQueue.Inv, Leads;
    AtShape(s, z);
    y := z;
    if z.tx.queue.producer.done < z.tx.queue.width {
      var x := Then(s, z, Rx(CopyIn));
      y := CopyWordsIn(s, x);
    }
  }

  /** A packet arrives and its request is published; the packet is not stored yet. */
  lemma {:induction false} HandOver(s: Server, p: Packet) returns (z: Server)
    requires ServerStart(s) && s.tx.queue.size >= 2 && |p.bytes| >= 8 && p.port < 0x1_0000 && Bytes(p.bytes)
    ensures At(s, z) && z.rx == Storing && z.packets == [p] && z.stored == 0 && z.origins == [0]
    ensures z.logging == [] && z.rows == [] && z.tx == s.tx.(queue := z.tx.queue)
    ensures z.tx.queue.accepted == [Words(p)] && z.tx.queue.consumed == [] && z.tx.queue.consumer.Resting?
  {
    hide At, RowsInv, TxInv, SpscQueue.Inv, Words, NextIndex;
    StartAt(s);
    AtShape(s, s);
    var a := Then(s, s, Receive(p));
    WordsAreRequest(p);
    AtShape(s, a);
    var b := Then(s, a, Rx(StartEnqueue(Words(p))));
    AtShape(s, b);
    StepRefinesBoundedFifo(b.tx.queue, CheckFull);
    var c := Then(s, b, Rx(CheckFull));
    var d := CopyWordsIn(s, c);
    AtShape(s, d);
    z := Then(s, d, Rx(Publish));
  }

  // ---- The TX thread takes it, sends it and logs it.

  /** Only the TX thread's batch, phase and side of the queue have moved. */
  ghost predicate OnlyTxMoved(y: Server, z: Server) {
    && z == y.(tx := y.tx.(queue := z.tx.queue, batch := z.tx.batch, phase := z.tx.phase))
    && z.tx.queue.accepted == y.tx.queue.accepted && z.tx.queue.producer == y.tx.queue.producer
    && z.tx.queue.width == y.tx.queue.width
  }

  lemma {:induction false} LookAround(s: Server, z: Server) returns (y: Server)
    requires At(s, z) && z.logging == [] && z.tx.phase == LoopTop && z.tx.batch == []
    requires |z.tx.queue.accepted| == 1 && z.tx.queue.consumed == []
    ensures At(s, y) && OnlyTxMoved(z, y) && y.tx.queue == z.tx.queue && y.tx.batch == [] && y.tx.phase == Filling(1)
  {
    hide At, RowsInv, TxInv, SpscQueue.Inv, BitAnd;
    AtShape(s, z);
    var a := Then(s, z, Tx(ReadHead));
    AtShape(s, a);
    HeadSeen(a.tx);
    DepthIsBacklog(a.tx.queue);
    y := Then(s, a, Tx(ReadTail));
  }

  lemma {:induction false} HeadSeen(t: TxThread)
    requires TxInv(t)
    ensures t.queue.role == ReturnQueue && (t.phase.SawHead? ==> t.phase.head == t.queue.head)
  {
  }

  lemma {:induction false} CopyWordsOut(s: Server, z: Server) returns (y: Server)
    requires At(s, z) && z.logging == [] && z.tx.phase.Filling? && z.tx.queue.consumer.Reading?
    ensures At(s, y) && OnlyTxMoved(z, y) && y.tx.phase == z.tx.phase && y.tx.batch == z.tx.batch
    ensures y.tx.queue.consumer.Reading? && |y.tx.queue.consumer.copy| == y.tx.queue.width
    ensures y.tx.queue.consumed == z.tx.queue.consumed
    decreases if |z.tx.queue.consumer.copy| < z.tx.queue.width then z.tx.queue.width - |z.tx.queue.consumer.copy| else 0
  {
    hide At, RowsInv, TxInv, SpscQueue.Inv, Leads;
    AtShape(s, z);
    y := z;
    if |z.tx.queue.consumer.copy| < z.tx.queue.width {
      var x := Then(s, z, Tx(Consume(CopyOut)));
      y := CopyWordsOut(s, x);
    }
  }

  lemma {:induction false} BeginTake(s: Server, z: Server) returns (y: Server)
    requires At(s, z) && z.logging == [] && z.tx.phase == Filling(1) && z.tx.batch == []
    requires |z.tx.queue.accepted| == 1 && z.tx.queue.consumed == [] && z.tx.queue.consumer.Resting?
    ensures At(s, y) && OnlyTxMoved(z, y) && y.tx.phase == Filling(1) && y.tx.batch == []
    ensures y.tx.queue.consumer.Reading? && y.tx.queue.consumed == []
  {
    hide At, RowsInv, TxInv, SpscQueue.Inv, Decode, NextIndex;
    AtShape(s, z);
    var a := Then(s, z, Tx(Consume(StartDequeue)));
    AtShape(s, a);
    StepRefinesBoundedFifo(a.tx.queue, CheckEmpty);
    y := Then(s, a, Tx(Consume(CheckEmpty)));
  }

  lemma {:induction false} FinishTake(s: Server, z: Server) returns (y: Server)
    requires At(s, z) && z.logging == [] && z.tx.phase == Filling(1) && z.tx.batch == []
    requires |z.tx.queue.accepted| == 1 && z.tx.queue.consumed == []
    requires z.tx.queue.consumer.Reading? && |z.tx.queue.consumer.copy| == z.tx.queue.width
    ensures At(s, y) && OnlyTxMoved(z, y) && y.tx.phase == Sending(1)
    ensures |y.tx.batch| == 1 && |y.tx.queue.consumed| == 1
  {
    hide At, RowsInv, TxInv, SpscQueue.Inv, Decode, NextIndex;
    AtShape(s, z);
    ConsumeFrame(z.tx.queue, Release);
    var d := Then(s, z, Tx(Consume(Release)));
    AtShape(s, d);
    y := Then(s, d, Tx(BatchFull));
  }

  /** sendmmsg takes the one message, and the TX thread logs its row. */
  lemma {:induction false} SendAndLog(s: Server, z: Server) returns (y: Server)
    requires At(s, z) && z.logging == [] && z.tx.phase == Sending(1) && |z.tx.batch| == 1
    requires z.tx.picks == [] && |z.tx.queue.accepted| == |z.tx.queue.consumed| == 1
    ensures At(s, y) && y.packets == z.packets && y.origins == z.origins && y.stored == z.stored && y.rx == z.rx
    ensures |y.rows| == |z.rows| + 1 && y.rows[|z.rows|].pick == 0 && y.rows[|z.rows|].stored == z.stored
  {
    hide At, RowsInv, TxInv, SpscQueue.Inv, SlotValue;
    AtShape(s, z);
    PickOne(Sent(1));
    var a := Then(s, z, Tx(Send(Sent(1))));
    AtShape(s, a);
    assert a.logging == [0];
    y := Then(s, a, LogRow);
  }

  lemma {:induction false} PickOne(o: Outcome)
    requires WentOut(o, 0)
    ensures Picked(o, 1) == [0] && Shifted([0], 0) == [0]
  {
    assert Picked(o, 0) == [];
    assert [0 as nat][..0] == [];
  }

  lemma {:induction false} RunTo(s: Server, z: Server) returns (states: seq<Server>, events: seq<ServerEvent>)
    requires ServerStart(s) && Leads(ServerStep, s, z)
    ensures ServerRun(states, events) && states[0] == s && states[|events|] == z
  {
    hide ServerStart, ServerStep;
    states, events :| Path(ServerStep, states, events, s, z);
  }

  /** The race is real: from any start, for any packet that gets a reply, some run logs its row before the packet is
      stored, and the row holds the zeros of an untouched slot. */
  lemma {:induction false} RowLoggedTooEarly(s: Server, p: Packet)
    returns (states: seq<Server>, events: seq<ServerEvent>)
    requires ServerStart(s) && s.tx.queue.size >= 2 && |p.bytes| >= 8 && p.port < 0x1_0000 && Bytes(p.bytes)
    ensures ServerRun(states, events) && states[0] == s
    ensures var last := states[|events|];
      && last.packets == [p] && last.origins == [0] && |last.rows| == 1
      && last.rows[0].pick == 0 && last.rows[0].stored == 0 && !ReadOwn(last, last.rows[0])
      && last.rows[0].number == SeqNumber(p) && last.rows[0].values == Received(0, 0, 0, "", 0)
  {
    hide At, RowsInv, TxInv, ServerRun, SeqNumber, CircularIndex, Words, Decode;
    var a := HandOver(s, p);
    StartTx(s);
    var b := LookAround(s, a);
    var c := BeginTake(s, b);
    var d := CopyWordsOut(s, c);
    var e := FinishTake(s, d);
    var z := SendAndLog(s, e);
    AtLeads(s, z);
    states, events := RunTo(s, z);
    RowHoldsOwnIff(states, events, |events|, 0);
    assert z.packets[..0] == [];
  }

  lemma {:induction false} StartTx(s: Server)
    requires ServerStart(s)
    ensures s.tx.phase == LoopTop && s.tx.batch == [] && s.tx.picks == []
  {
  }

  lemma {:induction false} AtLeads(s: Server, z: Server)
    requires At(s, z)
    ensures Leads(ServerStep, s, z)
  {
  }
}
