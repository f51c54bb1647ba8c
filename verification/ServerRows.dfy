// The CSV rows of the round-trip server, across its two threads. The receiving
// thread hands a request to the TX thread before it stores that packet's
// timestamps; the TX thread reads them back when the reply is out.
module ServerRows {
  import opened Bits
  import opened Correlation
  import opened SpscQueue
  import opened TxReplies

  /** A received packet with what the receiving thread stores for it. */
  datatype Packet = Packet(bytes: seq<nat>, ip: nat, port: nat, values: Received)

  /** `pkt_data.seq_num`: -1, as uint32, when the packet has no room for one. */
  function SeqNumber(p: Packet): nat {
    if |p.bytes| >= 4 then BigEndian(p.bytes[..4]) else 0xFFFF_FFFF
  }

  /** The request made for a packet, as queued. */
  function Words(p: Packet): seq<nat>
    requires |p.bytes| >= 8
  {
    Encode(RequestFor(p.bytes, p.ip, p.port).value)
  }

  /** A row of the server's main CSV file. `pick` and `stored` are history: the request's place among the accepted ones
      and how many packets had been stored when the slot was read. */
  datatype Row = Row(number: nat, clientPort: nat, values: Received, pick: nat, stored: nat)

  /** Where the receiving thread stands with its newest packet. */
  datatype RxPhase = Polling | Building | Enqueuing | Storing

  /** Both threads, every packet received, how many of them have been stored, which packet each accepted request
      came from, the sent requests still to be logged, and the rows. */
  datatype Server = Server(
    tx: TxThread, packets: seq<Packet>, rx: RxPhase, stored: nat,
    origins: seq<nat>, logging: seq<nat>, rows: seq<Row>)

  datatype ServerEvent =
    | Receive(packet: Packet)
    | Rx(step: Step<nat>)      // a micro-step of enqueue_return_packet_request
    | StoreRx                  // store_server_rx_timestamps
    | Tx(event: Event)         // an event of the TX thread
    | LogRow                   // the TX thread reads a slot and builds the row

  function Numbers(packets: seq<Packet>): (n: seq<nat>)
    ensures |n| == |packets|
  {
    seq<nat>(|packets|, i requires 0 <= i < |packets| => SeqNumber(packets[i]))
  }

  /** What a store leaves in the arrays. */
  function Kept(r: Received): Received { r.(clientIp := ClipIp(r.clientIp)) }

  /** What a slot of the correlation arrays holds after the given packets have been stored. */
  function SlotValue(packets: seq<Packet>, slot: nat): Received {
    var p := Newest(Numbers(packets), slot);
    if p < 0 then Received(0, 0, 0, "", 0) else Kept(packets[p].values)
  }

  function FirstPackets(packets: seq<Packet>, n: nat): seq<Packet> {
    if n <= |packets| then packets[..n] else packets
  }

  function RequestAt(s: Server, pick: nat): Request {
    Decode(if pick < |s.tx.queue.accepted| then s.tx.queue.accepted[pick] else [])
  }

  ghost predicate ServerStart(s: Server) {
    && Start(s.tx) && s.packets == [] && s.rx == Polling && s.stored == 0
    && s.origins == [] && s.logging == [] && s.rows == []
  }

  ghost predicate ServerCan(s: Server, ev: ServerEvent)
    requires Shape(s.tx.queue)
  {
    match ev
    case Receive(p) => s.rx == Polling && p.port < 0x1_0000 && Bytes(p.bytes)
    case Rx(step) =>
      && ProducerStep(step) && Enabled(s.tx.queue, step)
      && if step.StartEnqueue? then
           && s.rx == Building && s.packets != [] && |s.packets[|s.packets| - 1].bytes| >= 8
           && step.entry == Words(s.packets[|s.packets| - 1])
         else s.rx == Enqueuing
    case StoreRx => s.rx == Storing
    case Tx(event) => !event.Produce? && s.logging == [] && CanHappen(s.tx, event)
    case LogRow => s.logging != []
  }

  /** Only the sendmmsg path logs: the picks it has just added. */
  ghost function ToLog(before: TxThread, event: Event, after: TxThread): seq<nat> {
    if event.Send? && event.outcome.Sent? && |before.picks| <= |after.picks| then after.picks[|before.picks|..] else []
  }

  ghost function ServerPerform(s: Server, ev: ServerEvent): Server
    requires Shape(s.tx.queue) && ServerCan(s, ev)
  {
    match ev
    case Receive(p) => s.(packets := s.packets + [p], rx := if |p.bytes| >= 8 then Building else Storing)
    case Rx(step) =>
      var queue := Apply(s.tx.queue, step);
      s.(tx := s.tx.(queue := queue), rx := if queue.producer.Idle? then Storing else Enqueuing,
         origins := if step.Publish? && s.packets != [] then s.origins + [|s.packets| - 1] else s.origins)
    case StoreRx => s.(stored := s.stored + 1, rx := Polling)
    case Tx(event) =>
      var tx := Perform(s.tx, event);
      s.(tx := tx, logging := ToLog(s.tx, event, tx))
    case LogRow =>
      var r := RequestAt(s, s.logging[0]);
      var value := SlotValue(FirstPackets(s.packets, s.stored), CircularIndex(r.seqNum));
      s.(logging := s.logging[1..],
         rows := s.rows + [Row(r.seqNum, r.clientPort % 0x1_0000, value, s.logging[0], s.stored)])
  }

  ghost predicate ServerStep(s: Server, ev: ServerEvent, s': Server) {
    Shape(s.tx.queue) && ServerCan(s, ev) && s' == ServerPerform(s, ev)
  }

  ghost predicate ServerRun(states: seq<Server>, events: seq<ServerEvent>) {
    && |states| == |events| + 1 && ServerStart(states[0])
    && forall i :: 0 <= i < |events| ==> ServerStep(states[i], events[i], states[i + 1])
  }

  // ---- The invariant of a run.

  /** Accepted request p was made from packet origins[p]. */
  ghost predicate OriginsInv(s: Server) {
    && |s.origins| == |s.tx.queue.accepted|
    && (forall p, q :: 0 <= p < q < |s.origins| ==> s.origins[p] < s.origins[q])
    && forall p :: 0 <= p < |s.origins| ==>
         && s.origins[p] < |s.packets| && |s.packets[s.origins[p]].bytes| >= 8
         && s.tx.queue.accepted[p] == Words(s.packets[s.origins[p]])
  }

  /** Packets are stored one by one, each right after its enqueue: the newest accepted one may still be missing. */
  ghost predicate RxInv(s: Server) {
    && (forall k :: 0 <= k < |s.packets| ==> s.packets[k].port < 0x1_0000 && Bytes(s.packets[k].bytes))
    && |s.packets| == s.stored + (if s.rx == Polling then 0 else 1)
    && (s.rx == Enqueuing <==> !s.tx.queue.producer.Idle?)
    && (s.rx == Building || s.rx == Enqueuing ==> |s.packets[s.stored].bytes| >= 8)
    && (s.rx == Enqueuing ==> s.tx.queue.producer.entry == Words(s.packets[s.stored]))
    && forall p :: 0 <= p < |s.origins| ==>
         s.origins[p] < s.stored || (s.origins[p] == s.stored && s.rx == Storing)
  }

  /** A row: read from the slot of its own request's number, when that packet was stored or just about to be. */
  ghost predicate RowInv(s: Server, r: Row) {
    && r.pick < |s.origins| && s.origins[r.pick] < |s.packets|
    && r.number == SeqNumber(s.packets[s.origins[r.pick]]) && r.clientPort == s.packets[s.origins[r.pick]].port
    && s.origins[r.pick] <= r.stored <= s.stored <= |s.packets|
    && r.values == SlotValue(s.packets[..r.stored], CircularIndex(r.number))
    && r.pick in s.tx.picks
  }

  ghost predicate RowsInv(s: Server) {
    && TxInv(s.tx) && OriginsInv(s) && RxInv(s)
    && (forall i :: 0 <= i < |s.logging| ==> s.logging[i] in s.tx.picks)
    && forall i :: 0 <= i < |s.rows| ==> RowInv(s, s.rows[i])
  }

  lemma {:induction false} InvShape(s: Server)
    requires RowsInv(s)
    ensures Shape(s.tx.queue) && SpscQueue.Inv(s.tx.queue)
  {
  }

  lemma {:induction false} StartRows(s: Server)
    requires ServerStart(s)
    ensures RowsInv(s)
  {
    StartInv(s.tx);
    hide TxInv, Shape;
    InitEmpty(s.tx.queue);
  }

  lemma {:induction false} PrefixOfLonger<T>(a: seq<T>, x: T, n: nat)
    requires n <= |a|
    ensures (a + [x])[..n] == a[..n]
  {
  }

  lemma {:induction false} ReceiveKeepsRows(s: Server, p: Packet)
    requires RowsInv(s) && Shape(s.tx.queue) && ServerCan(s, Receive(p))
    ensures RowsInv(ServerPerform(s, Receive(p)))
  {
    hide TxInv, Shape, SlotValue, CircularIndex, SeqNumber, Words;
    forall i | 0 <= i < |s.rows| ensures (s.packets + [p])[..s.rows[i].stored] == s.packets[..s.rows[i].stored] {
      PrefixOfLonger(s.packets, p, s.rows[i].stored);
    }
  }

  lemma {:induction false} WordsAreRequest(p: Packet)
    requires |p.bytes| >= 8 && p.port < 0x1_0000 && Bytes(p.bytes)
    ensures IsRequest(Words(p))
    ensures |Words(p)| == 13 && Decode(Words(p)).seqNum == SeqNumber(p) && Decode(Words(p)).clientPort == p.port
  {
    hide BigEndian, Signed32;
    DecodeEncode(RequestFor(p.bytes, p.ip, p.port).value);
    assert FromPacket(Words(p), p.bytes, p.ip, p.port);
  }

  /** The number is read from the first four bytes in network order. */
  lemma {:induction false} NumberIs(p: Packet, n: nat)
    requires n < TWO_32
    ensures |p.bytes| >= 4 && p.bytes[..4] == NetworkBytes(n) ==> SeqNumber(p) == n
    ensures |p.bytes| < 4 ==> SeqNumber(p) == TWO_32 - 1
  {
    hide BigEndian, NetworkBytes;
    ReadsBack(n);
  }

  /** What a producer micro-step does to the queue's producing side. */
  lemma {:induction false} ProducerStepIs(q: Queue<nat>, step: Step<nat>)
    requires SpscQueue.Inv(q) && Shape(q) && ProducerStep(step) && Enabled(q, step)
    ensures var q' := Apply(q, step);
      && q'.accepted == (if step.Publish? then q.accepted + [q.producer.entry] else q.accepted)
      && (step.Publish? ==> q'.producer.Idle? && !q.producer.Idle?)
      && (step.StartEnqueue? ==> !q'.producer.Idle? && q'.producer.entry == step.entry && q.producer.Idle?)
      && (!step.StartEnqueue? && !q'.producer.Idle? ==> !q.producer.Idle? && q'.producer.entry == q.producer.entry)
  {
    StepRefinesBoundedFifo(q, step);
    StepFrame(q, step);
    hide SpscQueue.Inv;
  }

  /** A producer step that accepts nothing. */
  lemma {:induction false} UnpublishedKeepsRows(s: Server, q: Queue<nat>, rx: RxPhase)
    requires RowsInv(s) && (s.rx == Building || s.rx == Enqueuing) && TxInv(s.tx.(queue := q))
    requires q.accepted == s.tx.queue.accepted && (rx == Enqueuing || rx == Storing)
    requires rx == Enqueuing <==> !q.producer.Idle?
    requires rx == Enqueuing ==> q.producer.entry == Words(s.packets[s.stored])
    ensures RowsInv(s.(tx := s.tx.(queue := q), rx := rx))
  {
    hide TxInv, SlotValue, CircularIndex, SeqNumber, Words;
  }

  /** The step that accepts the request of the newest packet. */
  lemma {:induction false} PublishedKeepsRows(s: Server, q: Queue<nat>)
    requires RowsInv(s) && s.rx == Enqueuing && TxInv(s.tx.(queue := q)) && q.producer.Idle?
    requires q.accepted == s.tx.queue.accepted + [Words(s.packets[s.stored])]
    ensures RowsInv(s.(tx := s.tx.(queue := q), rx := Storing, origins := s.origins + [s.stored]))
  {
    hide TxInv, SlotValue, CircularIndex, SeqNumber, Words;
  }

  lemma {:induction false} RxKeepsRows(s: Server, step: Step<nat>)
    requires RowsInv(s) && Shape(s.tx.queue) && ServerCan(s, Rx(step))
    ensures RowsInv(ServerPerform(s, Rx(step)))
  {
    hide TxInv, OriginsInv, RowInv, Shape, Enabled, Apply, SlotValue, CircularIndex, SeqNumber, Words, IsRequest;
    InvShape(s);
    if step.StartEnqueue? { WordsAreRequest(s.packets[s.stored]); }
    ProduceKeepsTxInv(s.tx, step);
    ProducerStepIs(s.tx.queue, step);
    var q := Apply(s.tx.queue, step);
    if step.Publish? {
      PublishedKeepsRows(s, q);
    } else {
      UnpublishedKeepsRows(s, q, if q.producer.Idle? then Storing else Enqueuing);
    }
  }

  lemma {:induction false} ProduceKeepsTxInv(t: TxThread, step: Step<nat>)
    requires TxInv(t) && Shape(t.queue) && ProducerStep(step) && Enabled(t.queue, step)
    requires step.StartEnqueue? ==> IsRequest(step.entry)
    ensures TxInv(t.(queue := Apply(t.queue, step)))
  {
    hide TxInv, Shape, Enabled, Apply, IsRequest;
    StepKeepsTxInv(t, Produce(step));
  }

  lemma {:induction false} StoreKeepsRows(s: Server)
    requires RowsInv(s) && Shape(s.tx.queue) && ServerCan(s, StoreRx)
    ensures RowsInv(ServerPerform(s, StoreRx))
  {
    hide TxInv, Shape, SlotValue, CircularIndex, SeqNumber, Words;
  }

  /** The TX thread leaves the producing side of the queue alone and only adds picks. */
  lemma {:induction false} TxFrame(t: TxThread, event: Event)
    requires TxInv(t) && Shape(t.queue) && !event.Produce? && CanHappen(t, event)
    ensures var t' := Perform(t, event);
      && TxInv(t') && t'.queue.accepted == t.queue.accepted && t'.queue.producer == t.queue.producer
      && |t.picks| <= |t'.picks| && t'.picks[..|t.picks|] == t.picks
  {
    StepKeepsTxInv(t, event);
    TxQueue(t);
    hide TxInv, Shape, Decode, Transmitted, Picked, Shifted;
    if event.Consume? { ConsumeFrame(t.queue, event.step); }
  }

  lemma {:induction false} TxQueue(t: TxThread)
    requires TxInv(t)
    ensures SpscQueue.Inv(t.queue)
  {
  }

  lemma {:induction false} TxKeepsRows(s: Server, event: Event)
    requires RowsInv(s) && Shape(s.tx.queue) && ServerCan(s, Tx(event))
    ensures RowsInv(ServerPerform(s, Tx(event)))
  {
    hide TxInv, Shape, CanHappen, Perform, SlotValue, CircularIndex, SeqNumber, Words;
    TxFrame(s.tx, event);
  }

  lemma {:induction false} PicksBounded(t: TxThread, pick: nat)
    requires TxInv(t) && pick in t.picks
    ensures pick < |t.queue.accepted|
  {
    hide SpscQueue.Inv, BatchInv, TargetInv, CountInv, Increasing, ReplyTo, Decode;
  }

  lemma {:induction false} LogKeepsRows(s: Server)
    requires RowsInv(s) && Shape(s.tx.queue) && ServerCan(s, LogRow)
    ensures RowsInv(ServerPerform(s, LogRow))
  {
    hide TxInv, Shape, SlotValue, CircularIndex, SeqNumber, Words, Decode;
    PicksBounded(s.tx, s.logging[0]);
    WordsAreRequest(s.packets[s.origins[s.logging[0]]]);
  }

  lemma {:induction false} StepKeepsRows(s: Server, ev: ServerEvent)
    requires RowsInv(s) && Shape(s.tx.queue) && ServerCan(s, ev)
    ensures RowsInv(ServerPerform(s, ev))
  {
    hide RowsInv, ServerCan, ServerPerform, Shape;
    match ev
    case Receive(p) => ReceiveKeepsRows(s, p);
    case Rx(step) => RxKeepsRows(s, step);
    case StoreRx => StoreKeepsRows(s);
    case Tx(event) => TxKeepsRows(s, event);
    case LogRow => LogKeepsRows(s);
  }

  lemma {:induction false} RunKeepsRows(states: seq<Server>, events: seq<ServerEvent>, i: nat)
    requires ServerRun(states, events) && i <= |events|
    ensures RowsInv(states[i])
  {
    hide RowsInv, ServerStart, ServerCan, ServerPerform, Shape;
    if i == 0 {
      StartRows(states[0]);
    } else {
      RunKeepsRows(states, events, i - 1);
      assert ServerStep(states[i - 1], events[i - 1], states[i]);
      StepKeepsRows(states[i - 1], events[i - 1]);
    }
  }

  // ---- Whose values a row holds.

  /** The slot a row was read from then held its own packet's store. */
  ghost predicate ReadOwn(s: Server, r: Row)
    requires r.pick < |s.origins| && r.stored <= |s.packets|
  {
    Newest(Numbers(s.packets[..r.stored]), CircularIndex(r.number)) == s.origins[r.pick]
  }

  /** The packet's store came before the read, and no later packet's store hit the slot in between. */
  ghost predicate StoredInTime(s: Server, r: Row)
    requires r.pick < |s.origins| && r.stored <= |s.packets|
  {
    && s.origins[r.pick] < r.stored
    && forall j :: s.origins[r.pick] < j < r.stored ==>
         CircularIndex(SeqNumber(s.packets[j])) != CircularIndex(r.number)
  }

  lemma {:induction false} OwnIff(s: Server, r: Row)
    requires RowInv(s, r)
    ensures ReadOwn(s, r) <==> StoredInTime(s, r)
    ensures ReadOwn(s, r) ==> r.values == Kept(s.packets[s.origins[r.pick]].values)
  {
    hide CircularIndex, SeqNumber, Newest, Kept;
    var k, numbers := s.origins[r.pick], Numbers(s.packets[..r.stored]);
    assert forall j :: 0 <= j < r.stored ==> numbers[j] == SeqNumber(s.packets[j]);
    if k < r.stored { HoldsOwnIff(numbers, k); }
  }

  /** In every run, every logged row names its own request's number and client port, and holds that packet's own values
      exactly when the packet was stored before the read and its slot not hit again; the read can come at most that one
      store too early. */
  lemma {:induction false} RowHoldsOwnIff(states: seq<Server>, events: seq<ServerEvent>, i: nat, n: nat)
    requires ServerRun(states, events) && i <= |events| && n < |states[i].rows|
    ensures var s, r := states[i], states[i].rows[n];
      && r.pick < |s.origins| && s.origins[r.pick] < |s.packets| && s.origins[r.pick] <= r.stored <= |s.packets|
      && |s.packets[s.origins[r.pick]].bytes| >= 8
      && (forall q: nat :: q < TWO_32 && s.packets[s.origins[r.pick]].bytes[..4] == NetworkBytes(q) ==> r.number == q)
      && r.number == SeqNumber(s.packets[s.origins[r.pick]]) && r.clientPort == s.packets[s.origins[r.pick]].port
      && (ReadOwn(s, r) <==> StoredInTime(s, r))
      && (ReadOwn(s, r) ==> r.values == Kept(s.packets[s.origins[r.pick]].values))
      && r.values == SlotValue(s.packets[..r.stored], CircularIndex(r.number))
  {
    RunKeepsRows(states, events, i);
    hide ServerRun, TxInv, CircularIndex, SeqNumber, SlotValue, Kept, ReadOwn, StoredInTime, NetworkBytes, Words;
    OwnIff(states[i], states[i].rows[n]);
    var p := states[i].packets[states[i].origins[states[i].rows[n].pick]];
    forall q: nat | q < TWO_32 && p.bytes[..4] == NetworkBytes(q) ensures SeqNumber(p) == q {
      NumberIs(p, q);
    }
  }
}
