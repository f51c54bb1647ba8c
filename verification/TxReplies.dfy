// The server's reply path: requests from the receiving thread go through the
// return-packet queue to the TX thread, which takes adaptive batches and sends
// them, whole or in part. Any interleaving of the two threads, any send outcome.
module TxReplies {
  import opened Sequences
  import opened Wrappers
  import opened Bits
  import opened SpscQueue

  const BATCH_SIZE: nat := 128
  const RETURN_PACKET_SIZE: nat := 4

  /** `ReturnPacketRequest`; `data` is the first eight bytes of the received packet. */
  datatype Request = Request(seqNum: nat, ip: nat, port: nat, clientPort: nat, size: nat, data: seq<nat>)

  datatype Reply = Reply(payload: seq<nat>, ip: nat, port: nat)

  /** ntohl of four bytes. */
  function BigEndian(b: seq<nat>): nat
    requires |b| == 4
  {
    ((b[0] * 256 + b[1]) * 256 + b[2]) * 256 + b[3]
  }

  predicate Bytes(b: seq<nat>) { forall i :: 0 <= i < |b| ==> b[i] < 256 }

  /** A uint32 written most significant byte first. */
  function NetworkBytes(n: nat): (b: seq<nat>)
    ensures |b| == 4
  {
    [n / 0x100_0000, n / 0x1_0000 % 256, n / 256 % 256, n % 256]
  }

  /** Writing a uint32 in network order and reading it back gives it back, and so the other way round. */
  lemma {:induction false} NetworkOrder(n: nat, b: seq<nat>)
    requires n < TWO_32 && |b| == 4 && Bytes(b)
    ensures var w := NetworkBytes(n);
      && Bytes(w) && n == 0x100_0000 * w[0] + 0x1_0000 * w[1] + 0x100 * w[2] + w[3]
      && BigEndian(w) == n
    ensures BigEndian(b) < TWO_32 && NetworkBytes(BigEndian(b)) == b
  {
    ReadBack(n);
    var x, y, z := b[0] * 256 + b[1], (b[0] * 256 + b[1]) * 256 + b[2], BigEndian(b);
    RemainderIs(z, 256, y, b[3]);
    RemainderIs(y, 256, x, b[2]);
    RemainderIs(x, 256, b[0], b[1]);
    RemainderIs(z, 0x1_0000, x, 256 * b[2] + b[3]);
    RemainderIs(z, 0x100_0000, b[0], 0x1_0000 * b[1] + 256 * b[2] + b[3]);
  }

  lemma {:induction false} ReadBack(n: nat)
    requires n < TWO_32
    ensures var w := NetworkBytes(n);
      && Bytes(w) && n == 0x100_0000 * w[0] + 0x1_0000 * w[1] + 0x100 * w[2] + w[3]
      && BigEndian(w) == n
  {
    var h, m, l := n / 0x100_0000, n / 0x1_0000, n / 256;
    assert n == 256 * l + n % 256 && l == 256 * m + l % 256 && m == 256 * h + m % 256;
  }

  /** The cast of a uint32 to int. */
  function Signed32(x: nat): int { if x >= 0x8000_0000 then x - 0x1_0000_0000 else x }

  /** The receiving thread: sequence number and return port from the packet, or the source port. */
  function RequestFor(packet: seq<nat>, srcIp: nat, srcPort: nat): Option<Request> {
    if |packet| < 8 then None
    else
      var clientRxPort := Signed32(BigEndian(packet[4..8]));
      var returnPort := if clientRxPort > 0 then clientRxPort else srcPort;
      Some(Request(BigEndian(packet[..4]), srcIp, returnPort % 0x1_0000, srcPort, |packet|, packet[..8]))
  }

  /** `construct_return_packet` and the address the message is given. */
  function ReplyTo(r: Request): Reply {
    Reply(if |r.data| < 4 then r.data else r.data[..4], r.ip, r.port)
  }

  /** Where the client listens, from the port it advertises: that port, its low 16 bits when it is larger, or the
      source port when it is zero or, as an int, negative. */
  predicate ReturnsTo(port: nat, advertised: nat, srcPort: nat) {
    && (0 < advertised < 0x1_0000 ==> port == advertised)
    && (0x1_0000 <= advertised < 0x8000_0000 ==> port == advertised % 0x1_0000)
    && (advertised == 0 || 0x8000_0000 <= advertised ==> port == srcPort)
  }

  /** A packet that starts with number s and port p, in network order. */
  predicate Carries(packet: seq<nat>, s: nat, p: nat) {
    |packet| >= 8 && packet[..8] == NetworkBytes(s) + NetworkBytes(p)
  }

  /** A reply to a packet with number s and port p: the number as it came, to the packet's source address, at p. */
  predicate AnswersPacket(reply: Reply, s: nat, p: nat, srcIp: nat, srcPort: nat) {
    reply.payload == NetworkBytes(s) && reply.ip == srcIp && ReturnsTo(reply.port, p, srcPort)
  }

  /** Every packet of eight bytes or more carries some number and port. */
  lemma {:induction false} EveryPacketCarries(packet: seq<nat>) returns (s: nat, p: nat)
    requires |packet| >= 8 && Bytes(packet)
    ensures s < TWO_32 && p < TWO_32 && Carries(packet, s, p)
  {
    hide BigEndian, NetworkBytes;
    s, p := BigEndian(packet[..4]), BigEndian(packet[4..8]);
    NetworkOrder(0, packet[..4]);
    NetworkOrder(0, packet[4..8]);
    assert packet[..8] == packet[..4] + packet[4..8];
  }

  lemma {:induction false} CarriedParts(packet: seq<nat>, s: nat, p: nat)
    requires Carries(packet, s, p)
    ensures packet[..4] == NetworkBytes(s) && packet[4..8] == NetworkBytes(p)
  {
    hide NetworkBytes;
    assert packet[..4] == packet[..8][..4] && packet[4..8] == packet[..8][4..];
  }

  /** A packet numbered s that advertises port p: the request is numbered s, and its reply carries s back to where the
      client listens. */
  lemma {:induction false} ReplyAnswersItsPacket(packet: seq<nat>, s: nat, p: nat, srcIp: nat, srcPort: nat)
    requires s < TWO_32 && p < TWO_32 && Carries(packet, s, p) && srcPort < 0x1_0000
    ensures var r := RequestFor(packet, srcIp, srcPort);
      && r.Some? && |r.value.data| == 8 && r.value.seqNum == s && r.value.clientPort == srcPort
      && r.value.size == |packet|
      && AnswersPacket(ReplyTo(r.value), s, p, srcIp, srcPort)
  {
    hide BigEndian, NetworkBytes;
    CarriedParts(packet, s, p);
    ReadsBack(s);
    ReadsBack(p);
    assert packet[..8][..4] == packet[..4];
  }

  lemma {:induction false} ReadsBack(n: nat)
    requires n < TWO_32
    ensures BigEndian(NetworkBytes(n)) == n
  {
    ReadBack(n);
  }

  /** A queued request as the words the queue copies. */
  function Encode(r: Request): seq<nat> { [r.seqNum, r.ip, r.port, r.clientPort, r.size] + r.data }

  function Decode(words: seq<nat>): (r: Request)
  {
    if |words| != 13 then Request(0, 0, 0, 0, 0, [])
    else Request(words[0], words[1], words[2], words[3], words[4], words[5..])
  }

  lemma {:induction false} DecodeEncode(r: Request)
    requires |r.data| == 8
    ensures |Encode(r)| == 13 && Decode(Encode(r)) == r
  {
  }

  /** The words of a request made from some received packet. */
  ghost predicate IsRequest(words: seq<nat>) {
    exists packet: seq<nat>, ip: nat, port: nat :: FromPacket(words, packet, ip, port)
  }

  ghost predicate FromPacket(words: seq<nat>, packet: seq<nat>, ip: nat, port: nat) {
    && port < 0x1_0000 && |packet| >= 8 && Bytes(packet)
    && RequestFor(packet, ip, port).Some? && words == Encode(RequestFor(packet, ip, port).value)
  }

  /** The reply answers a packet the request was made from, whose number is the request's. */
  ghost predicate ReplyAnswers(words: seq<nat>, reply: Reply) {
    exists packet: seq<nat>, p: nat, ip: nat, port: nat ::
      && FromPacket(words, packet, ip, port)
      && Carries(packet, Decode(words).seqNum, p) && AnswersPacket(reply, Decode(words).seqNum, p, ip, port)
  }

  /** The reply to a queued request answers the packet the request was made from. */
  lemma {:induction false} QueuedReplyAnswers(words: seq<nat>)
    requires IsRequest(words)
    ensures |ReplyTo(Decode(words)).payload| == RETURN_PACKET_SIZE && Decode(words).seqNum < TWO_32
    ensures ReplyAnswers(words, ReplyTo(Decode(words)))
  {
    var packet: seq<nat>, ip: nat, port: nat :| FromPacket(words, packet, ip, port);
    hide BigEndian, NetworkBytes, RequestFor, Encode, Decode, ReplyTo, ReturnsTo, Carries;
    var s, p := EveryPacketCarries(packet);
    ReplyAnswersItsPacket(packet, s, p, ip, port);
    DecodeEncode(RequestFor(packet, ip, port).value);
    assert Carries(packet, Decode(words).seqNum, p);
  }

  // ---- Sending a batch.

  /** sendmmsg sent a prefix (perhaps nothing), would block, or failed so each packet went through sendto. */
  datatype Outcome = Sent(count: nat) | WouldBlock | Refused(accepted: seq<bool>)

  predicate Possible(o: Outcome, n: nat) {
    match o
    case Sent(count) => count <= n
    case WouldBlock => true
    case Refused(accepted) => |accepted| == n
  }

  /** Whether message i of the batch went out. */
  predicate WentOut(o: Outcome, i: nat) {
    match o
    case Sent(count) => i < count
    case WouldBlock => false
    case Refused(accepted) => i < |accepted| && accepted[i]
  }

  /** Positions of the first n messages that went out. */
  function Picked(o: Outcome, n: nat): (p: seq<nat>)
    ensures |p| <= n
  {
    if n == 0 then [] else Picked(o, n - 1) + if WentOut(o, n - 1) then [n - 1] else []
  }

  function Replies(batch: seq<Request>): (r: seq<Reply>)
    ensures |r| == |batch|
  {
    seq(|batch|, i requires 0 <= i < |batch| => ReplyTo(batch[i]))
  }

  function Transmitted(batch: seq<Request>, o: Outcome, n: nat): (r: seq<Reply>)
    requires n <= |batch|
    ensures |r| == |Picked(o, n)|
  {
    if n == 0 then [] else Transmitted(batch, o, n - 1) + if WentOut(o, n - 1) then [ReplyTo(batch[n - 1])] else []
  }

  /** The arrays of `TxThreadData`, allocated for BATCH_SIZE messages. */
  class TxBuffers {
    const packetBuffers: array<nat>
    const iovLen: array<nat>
    const msgName: array<(nat, nat)>

    constructor ()
      ensures Valid() && fresh(packetBuffers) && fresh(iovLen) && fresh(msgName)
    {
      packetBuffers := new nat[512](_ => 0);
      iovLen := new nat[128](_ => 4);
      msgName := new (nat, nat)[128](_ => (0, 0));
    }

    ghost predicate Valid() {
      && packetBuffers.Length == BATCH_SIZE * RETURN_PACKET_SIZE
      && iovLen.Length == msgName.Length == BATCH_SIZE && packetBuffers != iovLen
    }

    /** Message i as the kernel reads it: iov_len bytes of its buffer to msg_name. */
    function Message(i: nat): Reply
      requires Valid() && i < BATCH_SIZE && iovLen[i] <= RETURN_PACKET_SIZE
      reads packetBuffers, iovLen, msgName
    {
      Reply(packetBuffers[4 * i..4 * i + iovLen[i]], msgName[i].0, msgName[i].1)
    }

    /** `construct_return_packet` into buffer i, then the message header. */
    method PrepareOne(i: nat, req: Request)
      requires Valid() && i < BATCH_SIZE && |req.data| == 8
      modifies packetBuffers, iovLen, msgName
      ensures iovLen[i] == 4 && Message(i) == ReplyTo(req)
      ensures forall j :: 0 <= j < i ==> iovLen[j] == old(iovLen[j]) && msgName[j] == old(msgName[j])
      ensures forall k :: 0 <= k < 4 * i ==> packetBuffers[k] == old(packetBuffers[k])
    {
      for b := 0 to 4
        invariant forall k :: 0 <= k < b ==> packetBuffers[4 * i + k] == req.data[k]
        invariant forall k :: 0 <= k < 4 * i ==> packetBuffers[k] == old(packetBuffers[k])
        invariant unchanged(iovLen) && unchanged(msgName)
      {
        packetBuffers[4 * i + b] := req.data[b];
      }
      iovLen[i] := 4;
      msgName[i] := (req.ip, req.port);
      assert packetBuffers[4 * i..4 * i + 4] == req.data[..4];
    }

    /** The preparation loop of tx_thread_func: the buffers hold exactly the batch's replies. */
    method Prepare(batch: seq<Request>)
      requires Valid() && |batch| <= BATCH_SIZE && forall r :: r in batch ==> |r.data| == 8
      modifies packetBuffers, iovLen, msgName
      ensures forall i :: 0 <= i < |batch| ==> iovLen[i] == 4 && Message(i) == ReplyTo(batch[i])
    {
      hide ReplyTo;
      for i := 0 to |batch|
        invariant forall j :: 0 <= j < i ==> iovLen[j] == 4 && Message(j) == ReplyTo(batch[j])
      {
        ghost var before := packetBuffers[..];
        PrepareOne(i, batch[i]);
        forall j | 0 <= j < i ensures iovLen[j] == 4 && Message(j) == ReplyTo(batch[j]) {
          assert packetBuffers[4 * j..4 * j + 4] == before[4 * j..4 * j + 4];
        }
      }
    }

    /** From a dequeued batch to what leaves the socket, with the number added to the packet counter. */
    method Transmit(batch: seq<Request>, o: Outcome) returns (replies: seq<Reply>, counted: nat)
      requires Valid() && |batch| <= BATCH_SIZE && Possible(o, |batch|)
      requires forall r :: r in batch ==> |r.data| == 8
      modifies packetBuffers, iovLen, msgName
      ensures replies == Transmitted(batch, o, |batch|) && counted == |replies|
    {
      hide ReplyTo, Message;
      Prepare(batch);
      match o {
        case Sent(count) =>
          replies := [];
          for i := 0 to count
            invariant replies == Transmitted(batch, o, i) && |replies| == i
          {
            replies := replies + [Message(i)];
          }
          counted := count;
          NothingAfter(batch, o, count, |batch|);
        case WouldBlock =>
          replies, counted := [], 0;
          NothingAfter(batch, o, 0, |batch|);
        case Refused(accepted) =>
          replies, counted := [], 0;
          for i := 0 to |batch|
            invariant replies == Transmitted(batch, o, i) && counted == |replies|
          {
            if accepted[i] {
              replies := replies + [Message(i)];
              counted := counted + 1;
            }
          }
      }
    }
  }

  lemma {:induction false} NothingAfter(batch: seq<Request>, o: Outcome, lo: nat, hi: nat)
    requires lo <= hi <= |batch| && forall i :: lo <= i < hi ==> !WentOut(o, i)
    ensures Transmitted(batch, o, hi) == Transmitted(batch, o, lo) && Picked(o, hi) == Picked(o, lo)
    decreases hi
  {
    if lo < hi { NothingAfter(batch, o, lo, hi - 1); }
  }

  // ---- The two threads together.

  datatype Phase = LoopTop | SawHead(head: nat) | Filling(target: nat) | Sending(target: nat)

  /** The queue, the TX thread's locals, everything sent, which accepted request each reply answers, and how many
      were dropped. */
  datatype TxThread = TxThread(
    queue: Queue<nat>, phase: Phase, batch: seq<Request>,
    replies: seq<Reply>, picks: seq<nat>, packetsSent: nat, lost: nat)

  datatype Event =
    | Produce(step: Step<nat>)      // a micro-step of enqueue_return_packet_request
    | ReadHead | ReadTail           // the two loads behind queue_depth
    | Consume(step: Step<nat>)      // a micro-step of dequeue_return_packet_request
    | BatchFull                     // dequeue_return_packet_batch leaves its loop on the count
    | Send(outcome: Outcome)

  /** max(min(max_batch_size, queue_depth), 1). */
  function TargetBatch(depth: nat): (t: nat)
    ensures 1 <= t <= BATCH_SIZE
    ensures t == 1 || t <= depth
    ensures 1 <= depth && t < depth ==> t == BATCH_SIZE
  {
    if depth == 0 then 1 else if depth < BATCH_SIZE then depth else BATCH_SIZE
  }

  ghost predicate Start(t: TxThread) {
    && Init(t.queue) && t.queue.role == ReturnQueue && t.queue.width == 13
    && t.phase == LoopTop && t.batch == [] && t.replies == [] && t.picks == [] && t.packetsSent == 0 && t.lost == 0
  }

  ghost predicate CanHappen(t: TxThread, ev: Event)
    requires Shape(t.queue)
  {
    match ev
    case Produce(step) =>
      ProducerStep(step) && Enabled(t.queue, step) && (step.StartEnqueue? ==> IsRequest(step.entry))
    case ReadHead => t.phase == LoopTop
    case ReadTail => t.phase.SawHead?
    case Consume(step) =>
      && !ProducerStep(step) && Enabled(t.queue, step) && t.phase.Filling?
      && (step.StartDequeue? ==> |t.batch| < t.phase.target)
    case BatchFull => t.phase.Filling? && t.queue.consumer.Resting? && |t.batch| >= t.phase.target
    case Send(o) => t.phase.Sending? && Possible(o, |t.batch|)
  }

  /** The accepted requests from position lo up to hi. */
  function RequestsIn(accepted: seq<seq<nat>>, lo: nat, hi: nat): (rs: seq<Request>)
    requires lo <= hi <= |accepted|
    ensures |rs| == hi - lo
  {
    seq(hi - lo, i requires 0 <= i < hi - lo => Decode(accepted[lo + i]))
  }

  /** Batch positions as positions among the accepted requests. */
  function Shifted(p: seq<nat>, base: nat): (s: seq<nat>)
    ensures |s| == |p|
  {
    if p == [] then [] else Shifted(p[..|p| - 1], base) + [base + p[|p| - 1]]
  }

  /** An empty batch goes back to the top of the loop, any other is sent. */
  function AfterDequeue(p: Phase, batch: seq<Request>): Phase {
    if p.Filling? && batch != [] then Sending(p.target) else LoopTop
  }

  ghost function Perform(t: TxThread, ev: Event): TxThread
    requires Shape(t.queue) && CanHappen(t, ev)
  {
    match ev
    case Produce(step) => t.(queue := Apply(t.queue, step))
    case ReadHead => t.(phase := SawHead(t.queue.head))
    case ReadTail =>
      t.(phase := Filling(TargetBatch(BitAnd(Sub32(t.queue.tail, t.phase.head), t.queue.size - 1))))
    case Consume(step) =>
      var t' := t.(queue := Apply(t.queue, step));
      if step.Release? then t'.(batch := t.batch + [Decode(t.queue.consumer.copy)])
      else if step.CheckEmpty? && t'.queue.consumer.Resting? then
        t'.(phase := AfterDequeue(t.phase, t.batch))
      else t'
    case BatchFull => t.(phase := Sending(t.phase.target))
    case Send(o) =>
      var n := |t.batch|;
      var sent := Transmitted(t.batch, o, n);
      var base := if |t.queue.consumed| < n then 0 else |t.queue.consumed| - n;
      t.(phase := LoopTop, batch := [], replies := t.replies + sent, packetsSent := t.packetsSent + |sent|,
         picks := t.picks + Shifted(Picked(o, n), base), lost := t.lost + (n - |sent|))
  }

  ghost predicate TxStep(t: TxThread, ev: Event, t': TxThread) {
    Shape(t.queue) && CanHappen(t, ev) && t' == Perform(t, ev)
  }

  ghost predicate TxRun(states: seq<TxThread>, events: seq<Event>) {
    && |states| == |events| + 1 && Start(states[0])
    && forall i :: 0 <= i < |events| ==> TxStep(states[i], events[i], states[i + 1])
  }

  // ---- The invariant of a run.

  ghost predicate Increasing(p: seq<nat>, bound: int) {
    && (forall i, j :: 0 <= i < j < |p| ==> p[i] < p[j])
    && forall i :: 0 <= i < |p| ==> p[i] < bound
  }

  /** Reply j answers accepted request picks[j]. */
  ghost predicate Answers(t: TxThread) {
    && |t.picks| == |t.replies|
    && forall j :: 0 <= j < |t.picks| ==>
         t.picks[j] < |t.queue.accepted| && t.replies[j] == ReplyTo(Decode(t.queue.accepted[t.picks[j]]))
  }

  ghost predicate BatchInv(t: TxThread) {
    && |t.batch| <= |t.queue.consumed| <= |t.queue.accepted|
    && t.batch == RequestsIn(t.queue.accepted, |t.queue.consumed| - |t.batch|, |t.queue.consumed|)
    && (t.phase == LoopTop || t.phase.SawHead? ==> t.batch == [])
    && (t.queue.consumer != Resting ==> t.phase.Filling? && |t.batch| < t.phase.target)
  }

  /** The depth read before filling never over-reports, so a batch is cut short only when its target was one. */
  ghost predicate TargetInv(t: TxThread) {
    match t.phase
    case LoopTop => true
    case SawHead(head) => head == t.queue.head
    case Filling(target) =>
      && 1 <= target <= BATCH_SIZE && |t.batch| <= target
      && (target == 1 || target <= |t.batch| + |t.queue.accepted| - |t.queue.consumed|)
    case Sending(target) => |t.batch| == target <= BATCH_SIZE
  }

  ghost predicate CountInv(t: TxThread) {
    && |t.replies| + t.lost == |t.queue.consumed| - |t.batch|
    && t.packetsSent == |t.replies|
  }

  ghost predicate TxInv(t: TxThread) {
    && SpscQueue.Inv(t.queue) && t.queue.width == 13 && t.queue.role == ReturnQueue
    && BatchInv(t) && TargetInv(t) && CountInv(t)
    && Increasing(t.picks, |t.queue.consumed| - |t.batch|) && Answers(t)
  }

  lemma {:induction false} StartInv(t: TxThread)
    requires Start(t)
    ensures TxInv(t)
  {
    hide SpscQueue.Inv, Init, BatchInv, TargetInv, CountInv, Increasing, Answers;
    InitInv(t.queue);
    InitEmpty(t.queue);
    EmptyInv(t);
  }

  lemma {:induction false} EmptyInv(t: TxThread)
    requires t.queue.consumer.Resting? && t.queue.accepted == [] && t.queue.consumed == []
    requires t.phase == LoopTop && t.batch == [] && t.replies == [] && t.picks == []
    requires t.packetsSent == 0 && t.lost == 0
    ensures BatchInv(t) && TargetInv(t) && CountInv(t)
    ensures Increasing(t.picks, |t.queue.consumed| - |t.batch|) && Answers(t)
  {
    hide Decode, ReplyTo;
  }

  lemma {:induction false} InitEmpty(q: Queue<nat>)
    requires Init(q)
    ensures q.head == 0 && q.consumer.Resting? && q.accepted == [] && q.consumed == [] && q.producer.Idle?
  {
  }

  lemma {:induction false} ProducedKeepsInv(t: TxThread, q': Queue<nat>)
    requires TxInv(t) && ProducedFrom(t.queue, q')
    ensures TxInv(t.(queue := q'))
  {
    hide SpscQueue.Inv, ReplyTo, Decode;
    var q, n := t.queue, |t.queue.consumed| - |t.batch|;
    SliceOfPrefix(q'.accepted, |q.accepted|, n, |q.consumed|);
    forall j | 0 <= j < |t.picks| ensures q'.accepted[t.picks[j]] == q.accepted[t.picks[j]] {
      assert q'.accepted[..|q.accepted|][t.picks[j]] == q.accepted[t.picks[j]];
    }
  }

  lemma {:induction false} ReleaseGrowsBatch(t: TxThread, q': Queue<nat>)
    requires TxInv(t) && t.queue.consumer != Resting
    requires SpscQueue.Inv(q') && q'.accepted == t.queue.accepted && q'.role == t.queue.role
    requires q'.width == t.queue.width && q'.consumer.Resting?
    requires |t.queue.consumed| < |t.queue.accepted| && |q'.consumed| == |t.queue.consumed| + 1
    ensures TxInv(t.(queue := q', batch := t.batch + [Decode(t.queue.accepted[|t.queue.consumed|])]))
  {
    hide SpscQueue.Inv, ReplyTo, Decode;
    var q, c := t.queue, |t.queue.consumed|;
    var n := c - |t.batch|;
    assert q.accepted[n..c + 1] == q.accepted[n..c] + [q.accepted[c]];
  }

  lemma {:induction false} LookKeepsInv(t: TxThread, q': Queue<nat>, p: Phase)
    requires TxInv(t) && t.phase.Filling?
    requires SpscQueue.Inv(q') && q'.accepted == t.queue.accepted && q'.role == t.queue.role
    requires q'.width == t.queue.width && q'.consumed == t.queue.consumed
    requires |t.batch| < t.phase.target && (q'.consumer.Resting? ==> |q'.consumed| == |q'.accepted|)
    requires p == if !q'.consumer.Resting? then t.phase else AfterDequeue(t.phase, t.batch)
    ensures TxInv(t.(queue := q', phase := p))
  {
    hide SpscQueue.Inv, ReplyTo, Decode;
  }

  lemma {:induction false} ConsumeKeepsInv(t: TxThread, step: Step<nat>)
    requires TxInv(t) && CanHappen(t, Consume(step))
    ensures TxInv(Perform(t, Consume(step)))
  {
    var q' := Apply(t.queue, step);
    ConsumeFrame(t.queue, step);
    assert step.StartDequeue? || |t.batch| < t.phase.target;
    assert step.StartDequeue? ==> q'.consumer.Looking?;
    hide TxInv, Apply, Enabled, Shape, Decode;
    if step.Release? {
      ReleaseGrowsBatch(t, q');
    } else {
      LookKeepsInv(t, q', if !q'.consumer.Resting? then t.phase else AfterDequeue(t.phase, t.batch));
    }
  }

  lemma {:induction false} DepthIsBacklog(q: Queue<nat>)
    requires SpscQueue.Inv(q) && q.role == ReturnQueue
    ensures BitAnd(Sub32(q.tail, q.head), q.size - 1) == |q.accepted| - |q.consumed|
  {
    hide BitAnd, SlotOf;
    var k: nat :| q.size == Pow2(k);
    Pow2Values();
    if k > 32 { Pow2Monotone(32, k); }
    MaskedDistance(q.WriteIndex(), q.ReadIndex(), k);
    BacklogIsDistance(|q.accepted|, |q.consumed|, q.size);
  }

  lemma {:induction false} LookAroundKeepsInv(t: TxThread, ev: Event)
    requires TxInv(t) && CanHappen(t, ev) && (ev.ReadHead? || ev.ReadTail? || ev.BatchFull?)
    ensures TxInv(Perform(t, ev))
  {
    hide SpscQueue.Inv, ReplyTo, Decode, BitAnd, Apply, Shape, Increasing, Sub32;
    DepthIsBacklog(t.queue);
  }

  lemma {:induction false} PickedIncreasing(o: Outcome, n: nat)
    ensures Increasing(Picked(o, n), n)
  {
    hide WentOut;
    if n > 0 { PickedIncreasing(o, n - 1); }
  }

  lemma {:induction false} ShiftedAt(p: seq<nat>, base: nat)
    ensures forall i :: 0 <= i < |p| ==> Shifted(p, base)[i] == base + p[i]
  {
    if p != [] { ShiftedAt(p[..|p| - 1], base); }
  }

  lemma {:induction false} TransmittedAt(batch: seq<Request>, o: Outcome, n: nat)
    requires n <= |batch|
    ensures forall i :: 0 <= i < |Picked(o, n)| ==>
      Picked(o, n)[i] < n && Transmitted(batch, o, n)[i] == ReplyTo(batch[Picked(o, n)[i]])
  {
    hide WentOut, ReplyTo;
    if n > 0 { TransmittedAt(batch, o, n - 1); }
  }

  /** What a send adds: replies to requests of the batch, in order. */
  ghost predicate AddedReplies(accepted: seq<seq<nat>>, lo: int, hi: int, picks: seq<nat>, replies: seq<Reply>) {
    && |picks| == |replies| && hi <= |accepted|
    && (forall i, j :: 0 <= i < j < |picks| ==> picks[i] < picks[j])
    && forall i :: 0 <= i < |picks| ==>
         lo <= picks[i] < hi && replies[i] == ReplyTo(Decode(accepted[picks[i]]))
  }

  lemma {:induction false} SentReplies(accepted: seq<seq<nat>>, lo: nat, batch: seq<Request>, o: Outcome)
    requires lo + |batch| <= |accepted| && batch == RequestsIn(accepted, lo, lo + |batch|)
    ensures AddedReplies(accepted, lo, lo + |batch|, Shifted(Picked(o, |batch|), lo), Transmitted(batch, o, |batch|))
  {
    hide ReplyTo, Decode, Picked, Shifted, Transmitted;
    var picked := Picked(o, |batch|);
    PickedIncreasing(o, |batch|);
    ShiftedAt(picked, lo);
    TransmittedAt(batch, o, |batch|);
    forall i | 0 <= i < |picked| ensures batch[picked[i]] == Decode(accepted[lo + picked[i]]) {
    }
  }

  lemma {:induction false} RepliesGrow(t: TxThread, picks: seq<nat>, replies: seq<Reply>)
    requires TxInv(t) && |replies| <= |t.batch|
    requires AddedReplies(t.queue.accepted, |t.queue.consumed| - |t.batch|, |t.queue.consumed|, picks, replies)
    requires t.phase.Sending?
    ensures TxInv(t.(phase := LoopTop, batch := [],
                     replies := t.replies + replies, packetsSent := t.packetsSent + |replies|,
                     picks := t.picks + picks, lost := t.lost + (|t.batch| - |replies|)))
  {
    hide SpscQueue.Inv, ReplyTo, Decode, Possible;
    assert t.queue.accepted[|t.queue.consumed|..|t.queue.consumed|] == [];
  }

  lemma {:induction false} SendKeepsInv(t: TxThread, o: Outcome)
    requires TxInv(t) && CanHappen(t, Send(o))
    ensures TxInv(Perform(t, Send(o)))
  {
    hide SpscQueue.Inv, ReplyTo, Decode, Picked, Shifted, Transmitted, Possible, Answers, Increasing,
      AddedReplies, CountInv, TargetInv;
    var base := |t.queue.consumed| - |t.batch|;
    SentReplies(t.queue.accepted, base, t.batch, o);
    RepliesGrow(t, Shifted(Picked(o, |t.batch|), base), Transmitted(t.batch, o, |t.batch|));
  }

  lemma {:induction false} ProduceKeepsInv(t: TxThread, step: Step<nat>)
    requires TxInv(t) && CanHappen(t, Produce(step))
    ensures TxInv(Perform(t, Produce(step)))
  {
    ProduceFrame(t.queue, step);
    hide TxInv, Apply, Enabled, Shape, ProducedFrom;
    ProducedKeepsInv(t, Apply(t.queue, step));
  }

  lemma {:induction false} StepKeepsTxInv(t: TxThread, ev: Event)
    requires TxInv(t) && CanHappen(t, ev)
    ensures TxInv(Perform(t, ev))
  {
    hide TxInv, CanHappen, Perform;
    match ev
    case Produce(step) => ProduceKeepsInv(t, step);
    case Consume(step) => ConsumeKeepsInv(t, step);
    case Send(o) => SendKeepsInv(t, o);
    case _ => LookAroundKeepsInv(t, ev);
  }

  lemma {:induction false} RunKeepsTxInv(states: seq<TxThread>, events: seq<Event>, i: nat)
    requires TxRun(states, events) && i <= |events|
    ensures TxInv(states[i])
  {
    hide TxInv, Start, Perform, CanHappen;
    if i == 0 {
      StartInv(states[0]);
    } else {
      RunKeepsTxInv(states, events, i - 1);
      assert TxStep(states[i - 1], events[i - 1], states[i]);
      StepKeepsTxInv(states[i - 1], events[i - 1]);
    }
  }

  // ---- What every run guarantees.

  /** Everything queued or being queued was made from a received packet. */
  ghost predicate RequestsQueued(q: Queue<nat>) {
    && (forall i :: 0 <= i < |q.accepted| ==> IsRequest(q.accepted[i]))
    && (!q.producer.Idle? ==> IsRequest(q.producer.entry))
  }

  lemma {:induction false} StepKeepsRequests(t: TxThread, ev: Event)
    requires TxInv(t) && RequestsQueued(t.queue) && CanHappen(t, ev)
    ensures RequestsQueued(Perform(t, ev).queue)
  {
    hide IsRequest, Decode, BitAnd, Transmitted, Picked, Shifted, BatchInv, TargetInv, CountInv, Answers, Increasing;
    match ev
    case Produce(step) => ProduceKeepsRequests(t.queue, step);
    case Consume(step) => ConsumeFrame(t.queue, step);
    case _ =>
  }

  lemma {:induction false} ProduceKeepsRequests(q: Queue<nat>, step: Step<nat>)
    requires SpscQueue.Inv(q) && ProducerStep(step) && Enabled(q, step)
    requires RequestsQueued(q) && (step.StartEnqueue? ==> IsRequest(step.entry))
    ensures RequestsQueued(Apply(q, step))
  {
    assert Shape(q);
    hide SpscQueue.Inv, IsRequest, Apply;
    StepRefinesBoundedFifo(q, step);
    StepFrame(q, step);
  }

  lemma {:induction false} RunKeepsRequests(states: seq<TxThread>, events: seq<Event>, i: nat)
    requires TxRun(states, events) && i <= |events|
    ensures RequestsQueued(states[i].queue)
  {
    hide TxInv, RequestsQueued, Perform, CanHappen;
    if i == 0 {
      NothingQueued(states[0]);
    } else {
      RunKeepsRequests(states, events, i - 1);
      RunKeepsTxInv(states, events, i - 1);
      assert TxStep(states[i - 1], events[i - 1], states[i]);
      StepKeepsRequests(states[i - 1], events[i - 1]);
    }
  }

  lemma {:induction false} NothingQueued(t: TxThread)
    requires Start(t)
    ensures RequestsQueued(t.queue)
  {
  }

  /** Reply j of a run answers accepted request picks[j], and through it the packet that request was made from. */
  ghost predicate RepliesAnswerPackets(t: TxThread) {
    && |t.picks| == |t.replies|
    && forall j :: 0 <= j < |t.picks| ==>
         && t.picks[j] < |t.queue.accepted|
         && t.replies[j] == ReplyTo(Decode(t.queue.accepted[t.picks[j]]))
         && ReplyAnswers(t.queue.accepted[t.picks[j]], t.replies[j])
  }

  /** Replies are an order-preserving subsequence of the accepted requests, none answered twice, and each carries
      its own packet's sequence number back to that packet's sender. */
  lemma {:induction false} RepliesAreSubsequence(states: seq<TxThread>, events: seq<Event>, i: nat)
    requires TxRun(states, events) && i <= |events|
    ensures var t := states[i];
      && |t.picks| == |t.replies| == t.packetsSent
      && (forall a, b :: 0 <= a < b < |t.picks| ==> t.picks[a] < t.picks[b])
      && RepliesAnswerPackets(t)
  {
    hide TxRun, TxInv, RequestsQueued, RepliesAnswerPackets;
    RunHasStates(states, events);
    RunKeepsTxInv(states, events, i);
    RunKeepsRequests(states, events, i);
    InvOrdersPicks(states[i]);
    InvAnswersPackets(states[i]);
  }

  lemma {:induction false} RunHasStates(states: seq<TxThread>, events: seq<Event>)
    requires TxRun(states, events)
    ensures |states| == |events| + 1
  {
  }

  lemma {:induction false} InvOrdersPicks(t: TxThread)
    requires TxInv(t)
    ensures |t.picks| == |t.replies| == t.packetsSent
    ensures forall a, b :: 0 <= a < b < |t.picks| ==> t.picks[a] < t.picks[b]
  {
    hide SpscQueue.Inv, ReplyTo, Decode, BatchInv, TargetInv;
  }

  lemma {:induction false} InvAnswersPackets(t: TxThread)
    requires TxInv(t) && RequestsQueued(t.queue)
    ensures RepliesAnswerPackets(t)
  {
    hide SpscQueue.Inv, ReplyTo, Decode, BatchInv, TargetInv, CountInv, Increasing, IsRequest, ReplyAnswers;
    forall j | 0 <= j < |t.picks|
      ensures t.picks[j] < |t.queue.accepted| && ReplyAnswers(t.queue.accepted[t.picks[j]], t.replies[j])
    {
      QueuedReplyAnswers(t.queue.accepted[t.picks[j]]);
    }
  }

  /** Batches fit the fixed arrays, and one that is sent has exactly the size aimed for. */
  lemma {:induction false} BatchesFit(states: seq<TxThread>, events: seq<Event>, i: nat)
    requires TxRun(states, events) && i <= |events|
    ensures |states[i].batch| <= BATCH_SIZE
    ensures states[i].phase.Sending? ==> |states[i].batch| == states[i].phase.target
    ensures states[i].phase.Filling? && states[i].phase.target > 1 ==>
      states[i].phase.target <= |states[i].batch| + |states[i].queue.accepted| - |states[i].queue.consumed|
  {
    RunKeepsTxInv(states, events, i);
    hide TxRun, SpscQueue.Inv, ReplyTo, Decode;
  }

  /** Every send so far took the whole batch. */
  ghost predicate AllSent(states: seq<TxThread>, events: seq<Event>, n: nat)
    requires n <= |events| < |states|
  {
    forall i :: 0 <= i < n && events[i].Send? ==> |Picked(events[i].outcome, |states[i].batch|)| == |states[i].batch|
  }

  /** Requests are dropped exactly when some send fell short. */
  lemma {:induction false} NothingLostIff(states: seq<TxThread>, events: seq<Event>, i: nat)
    requires TxRun(states, events) && i <= |events|
    ensures states[i].lost == 0 <==> AllSent(states, events, i)
  {
    if i > 0 {
      NothingLostIff(states, events, i - 1);
      assert TxStep(states[i - 1], events[i - 1], states[i]);
      hide TxRun, Start, Apply, Shape, Decode, Picked, Transmitted, Shifted, BitAnd, ReplyTo;
    }
  }

  lemma {:induction false} DensePicks(p: seq<nat>, j: nat)
    requires Increasing(p, |p|) && j < |p|
    ensures p[j] == j
  {
    AtLeast(p, j);
    AtMost(p, j);
  }

  lemma {:induction false} AtLeast(p: seq<nat>, j: nat)
    requires Increasing(p, |p|) && j < |p|
    ensures p[j] >= j
  {
    if j > 0 { AtLeast(p, j - 1); }
  }

  lemma {:induction false} AtMost(p: seq<nat>, j: nat)
    requires Increasing(p, |p|) && j < |p|
    ensures p[j] <= j
    decreases |p| - j
  {
    if j + 1 < |p| { AtMost(p, j + 1); }
  }

  /** Every request dequeued and sent is answered exactly when no send fell short; then the replies are exactly those
      requests' replies, one each, in order. */
  lemma {:induction false} FullSendsAnswerEveryRequest(states: seq<TxThread>, events: seq<Event>, i: nat)
    requires TxRun(states, events) && i <= |events|
    ensures var t := states[i];
      var m := |t.queue.consumed| - |t.batch|;
      && 0 <= m <= |t.queue.accepted|
      && (|t.replies| == m <==> AllSent(states, events, i))
      && (AllSent(states, events, i) ==> t.replies == Replies(RequestsIn(t.queue.accepted, 0, m)))
  {
    RunKeepsTxInv(states, events, i);
    NothingLostIff(states, events, i);
    hide TxRun, SpscQueue.Inv, ReplyTo, Decode, AllSent;
    var t := states[i];
    if AllSent(states, events, i) {
      forall j | 0 <= j < |t.replies| ensures t.picks[j] == j {
        DensePicks(t.picks, j);
      }
    }
  }
}
