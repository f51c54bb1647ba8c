// The two lock-free single-producer/single-consumer queues, as a state machine
// over the atomic micro-steps of the two threads: load own index, load peer
// index, copy one word of the slot, store own index. The CSV ring and the
// return-packet queue run the same steps with `head` and `tail` exchanged.
module SpscQueue {
  import opened Bits

  /** CsvRing: the producer owns `head`. ReturnQueue: the producer owns `tail`. */
  datatype Role = CsvRing | ReturnQueue

  datatype Producer<W> =
    | Idle
    | Loaded(entry: seq<W>, own: nat, next: nat)                 // own index read, peer index not yet
    | Copying(entry: seq<W>, own: nat, next: nat, done: nat)     // seen not full, `done` words stored

  datatype Consumer<W> =
    | Resting
    | Looking(own: nat)                        // own index read, peer index not yet
    | Reading(own: nat, copy: seq<W>)          // seen not empty, |copy| words read

  /** Shared memory, the locals of both threads, and the history of both ends. */
  datatype Queue<W> = Queue(
    role: Role, size: nat, width: nat,
    head: nat, tail: nat, slots: seq<seq<W>>,
    producer: Producer<W>, consumer: Consumer<W>,
    accepted: seq<seq<W>>, consumed: seq<seq<W>>)
  {
    function WriteIndex(): nat { if role.CsvRing? then head else tail }
    function ReadIndex(): nat { if role.CsvRing? then tail else head }
    function SetWriteIndex(i: nat): Queue<W> { if role.CsvRing? then this.(head := i) else this.(tail := i) }
    function SetReadIndex(i: nat): Queue<W> { if role.CsvRing? then this.(tail := i) else this.(head := i) }
  }

  datatype Step<W> =
    | StartEnqueue(entry: seq<W>) | CheckFull | CopyIn | Publish
    | StartDequeue | CheckEmpty | CopyOut | Release

  /** `(i + 1) & size_mask` on uint32. */
  function NextIndex(i: nat, size: nat): nat
    requires size > 0
  {
    BitAnd(Wrap32(i + 1), size - 1)
  }

  ghost predicate Shape<W>(q: Queue<W>) {
    && 0 < q.size <= 0x8000_0000 && IsPow2(q.size)
    && |q.slots| == q.size
    && (forall i :: 0 <= i < q.size ==> |q.slots[i]| == q.width)
    && q.head < q.size && q.tail < q.size
    && (q.producer.Loaded? ==> |q.producer.entry| == q.width && q.producer.own < q.size)
    && (q.producer.Copying? ==> |q.producer.entry| == q.width && q.producer.own < q.size && q.producer.done <= q.width)
    && (q.consumer.Looking? ==> q.consumer.own < q.size)
    && (q.consumer.Reading? ==> q.consumer.own < q.size && |q.consumer.copy| <= q.width)
  }

  /** Fresh queue: any slot contents, both indices zero, both threads outside their calls. */
  ghost predicate Init<W>(q: Queue<W>) {
    && Shape(q) && q.head == 0 && q.tail == 0
    && q.producer.Idle? && q.consumer.Resting? && q.accepted == [] && q.consumed == []
  }

  ghost predicate Enabled<W>(q: Queue<W>, step: Step<W>)
  {
    match step
    case StartEnqueue(entry) => q.producer.Idle? && |entry| == q.width
    case CheckFull => q.producer.Loaded?
    case CopyIn => q.producer.Copying? && q.producer.done < q.width
    case Publish => q.producer.Copying? && q.producer.done == q.width
    case StartDequeue => q.consumer.Resting?
    case CheckEmpty => q.consumer.Looking?
    case CopyOut => q.consumer.Reading? && |q.consumer.copy| < q.width
    case Release => q.consumer.Reading? && |q.consumer.copy| == q.width
  }

  /** The effect of one micro-step; CheckFull and CheckEmpty carry both outcomes. */
  ghost function Apply<W>(q: Queue<W>, step: Step<W>): Queue<W>
    requires Shape(q) && Enabled(q, step)
  {
    match step
    case StartEnqueue(entry) =>
      var own := q.WriteIndex();
      q.(producer := Loaded(entry, own, NextIndex(own, q.size)))
    case CheckFull =>
      var p := q.producer;
      if p.next == q.ReadIndex() then q.(producer := Idle)
      else q.(producer := Copying(p.entry, p.own, p.next, 0))
    case CopyIn =>
      var p := q.producer;
      q.(slots := q.slots[p.own := q.slots[p.own][p.done := p.entry[p.done]]],
         producer := p.(done := p.done + 1))
    case Publish =>
      var p := q.producer;
      q.SetWriteIndex(p.next).(producer := Idle, accepted := q.accepted + [p.entry])
    case StartDequeue =>
      q.(consumer := Looking(q.ReadIndex()))
    case CheckEmpty =>
      var c := q.consumer;
      if c.own == q.WriteIndex() then q.(consumer := Resting)
      else q.(consumer := Reading(c.own, []))
    case CopyOut =>
      var c := q.consumer;
      q.(consumer := c.(copy := c.copy + [q.slots[c.own][|c.copy|]]))
    case Release =>
      var c := q.consumer;
      q.SetReadIndex(NextIndex(c.own, q.size)).(consumer := Resting, consumed := q.consumed + [c.copy])
  }

  /** A run: any interleaving of enabled micro-steps from a fresh queue. */
  ghost predicate Run<W>(states: seq<Queue<W>>, steps: seq<Step<W>>) {
    && |states| == |steps| + 1 && Init(states[0])
    && forall i :: 0 <= i < |steps| ==> StepTo(states[i], steps[i], states[i + 1])
  }

  ghost predicate StepTo<W>(q: Queue<W>, step: Step<W>, q': Queue<W>) {
    Shape(q) && Enabled(q, step) && q' == Apply(q, step)
  }

  // ---- The invariant: indices are the two history lengths modulo the size.

  ghost function SlotOf(i: nat, size: nat): (s: nat)
    requires size > 0
    ensures s < size
    decreases i
  {
    if i < size then i else SlotOf(i - size, size)
  }

  lemma {:induction false} SlotIsRemainder(i: nat, size: nat)
    requires size > 0
    ensures SlotOf(i, size) == i % size
    decreases i
  {
    if i < size {
      RemainderIs(i, size, 0, i);
    } else {
      SlotIsRemainder(i - size, size);
      RemainderIs(i, size, (i - size) / size + 1, (i - size) % size);
    }
  }

  ghost predicate IndexInv<W>(q: Queue<W>)
    requires q.size > 0
  {
    && q.WriteIndex() == SlotOf(|q.accepted|, q.size)
    && q.ReadIndex() == SlotOf(|q.consumed|, q.size)
    && |q.consumed| <= |q.accepted| <= |q.consumed| + q.size - 1
    && q.consumed == q.accepted[..|q.consumed|]
  }

  /** Every published, unreleased slot holds its accepted entry whole. */
  ghost predicate LiveInv<W>(q: Queue<W>)
    requires Shape(q)
  {
    forall i: nat :: |q.consumed| <= i < |q.accepted| ==> q.slots[SlotOf(i, q.size)] == q.accepted[i]
  }

  /** The producer's locals: a stale peer index only ever under-reports the free room. */
  ghost predicate ProducerInv<W>(q: Queue<W>)
    requires Shape(q)
  {
    match q.producer
    case Idle => true
    case Loaded(entry, own, next) => own == q.WriteIndex() && next == SlotOf(|q.accepted| + 1, q.size)
    case Copying(entry, own, next, done) =>
      && own == q.WriteIndex() && next == SlotOf(|q.accepted| + 1, q.size)
      && |q.accepted| < |q.consumed| + q.size - 1
      && q.slots[own][..done] == entry[..done]
  }

  ghost predicate ConsumerInv<W>(q: Queue<W>)
    requires Shape(q)
  {
    match q.consumer
    case Resting => true
    case Looking(own) => own == q.ReadIndex()
    case Reading(own, copy) =>
      && own == q.ReadIndex() && |q.consumed| < |q.accepted|
      && |q.accepted[|q.consumed|]| == q.width && copy == q.accepted[|q.consumed|][..|copy|]
  }

  ghost predicate Inv<W>(q: Queue<W>) {
    && Shape(q)
    && IndexInv(q) && LiveInv(q) && ProducerInv(q) && ConsumerInv(q)
  }

  lemma {:induction false} SlotSuccessor(i: nat, size: nat)
    requires size > 0
    ensures SlotOf(i + 1, size) == if SlotOf(i, size) + 1 == size then 0 else SlotOf(i, size) + 1
    decreases i
  {
    if i >= size {
      SlotSuccessor(i - size, size);
    }
  }

  lemma {:induction false} NextIndexIsNextSlot(i: nat, size: nat)
    requires 0 < size <= 0x8000_0000 && IsPow2(size)
    ensures NextIndex(SlotOf(i, size), size) == SlotOf(i + 1, size)
  {
    var k: nat :| size == Pow2(k);
    var s := SlotOf(i, size);
    MaskIsRemainder(s + 1, k);
    SlotIsRemainder(s + 1, size);
    SlotSuccessor(i, size);
  }

  /** Positions at most `size` apart share a slot only when equal or exactly `size` apart. */
  lemma {:induction false} SameSlot(i: nat, j: nat, size: nat)
    requires size > 0 && i <= j <= i + size
    ensures SlotOf(i, size) == SlotOf(j, size) <==> j == i || j == i + size
    decreases i
  {
    if i >= size {
      SameSlot(i - size, j - size, size);
    }
  }

  lemma {:induction false} InitInv<W>(q: Queue<W>)
    requires Init(q)
    ensures Inv(q)
  {
  }

  /** No live slot is the one the producer is about to write. */
  lemma {:induction false} WriteSlotIsFree<W>(q: Queue<W>)
    requires Shape(q) && IndexInv(q) && |q.accepted| < |q.consumed| + q.size - 1
    ensures forall i: nat :: |q.consumed| <= i < |q.accepted| ==> SlotOf(i, q.size) != q.WriteIndex()
  {
    forall i: nat | |q.consumed| <= i < |q.accepted| ensures SlotOf(i, q.size) != q.WriteIndex() {
      SameSlot(i, |q.accepted|, q.size);
    }
  }

  lemma {:induction false} EnqueueStartKeepsInv<W>(q: Queue<W>, step: Step<W>)
    requires Inv(q) && Enabled(q, step) && (step.StartEnqueue? || step.CheckFull?)
    ensures Inv(Apply(q, step))
  {
    hide BitAnd, SlotOf, Pow2, NextIndex;
    NextIndexIsNextSlot(|q.accepted|, q.size);
    SameSlot(|q.consumed|, |q.accepted| + 1, q.size);
  }

  lemma {:induction false} CopyInKeepsInv<W>(q: Queue<W>)
    requires Inv(q) && Enabled(q, CopyIn)
    ensures Inv(Apply(q, CopyIn))
  {
    hide BitAnd, SlotOf, Pow2, NextIndex;
    WriteSlotIsFree(q);
  }

  lemma {:induction false} PublishKeepsInv<W>(q: Queue<W>)
    requires Inv(q) && Enabled(q, Publish)
    ensures Inv(Apply(q, Publish))
  {
    hide BitAnd, SlotOf, Pow2, NextIndex;
    var p, q' := q.producer, Apply(q, Publish);
    assert q.slots[p.own] == p.entry by {
      assert q.slots[p.own] == q.slots[p.own][..p.done] && p.entry == p.entry[..p.done];
    }
    assert IndexInv(q');
    forall i: nat | |q'.consumed| <= i < |q'.accepted| ensures q'.slots[SlotOf(i, q.size)] == q'.accepted[i] {
      if i < |q.accepted| { assert q'.accepted[i] == q.accepted[i]; }
    }
    assert ConsumerInv(q');
  }

  lemma {:induction false} DequeueStartKeepsInv<W>(q: Queue<W>, step: Step<W>)
    requires Inv(q) && Enabled(q, step) && (step.StartDequeue? || step.CheckEmpty? || step.CopyOut?)
    ensures Inv(Apply(q, step))
  {
    hide BitAnd, SlotOf, Pow2, NextIndex;
    SameSlot(|q.consumed|, |q.accepted|, q.size);
  }

  lemma {:induction false} ReleaseKeepsInv<W>(q: Queue<W>)
    requires Inv(q) && Enabled(q, Release)
    ensures Inv(Apply(q, Release))
  {
    hide BitAnd, SlotOf, Pow2, NextIndex;
    NextIndexIsNextSlot(|q.consumed|, q.size);
    assert q.consumer.copy == q.accepted[|q.consumed|];
    var q' := Apply(q, Release);
    assert IndexInv(q');
    assert ProducerInv(q');
  }

  lemma {:induction false} StepKeepsInv<W>(q: Queue<W>, step: Step<W>)
    requires Inv(q) && Enabled(q, step)
    ensures Inv(Apply(q, step))
  {
    match step
    case StartEnqueue(_) => EnqueueStartKeepsInv(q, step);
    case CheckFull => EnqueueStartKeepsInv(q, step);
    case CopyIn => CopyInKeepsInv(q);
    case Publish => PublishKeepsInv(q);
    case Release => ReleaseKeepsInv(q);
    case _ => DequeueStartKeepsInv(q, step);
  }

  lemma {:induction false} StepIsApply<W>(states: seq<Queue<W>>, steps: seq<Step<W>>, i: nat)
    requires Run(states, steps) && i < |steps|
    ensures Shape(states[i]) && Enabled(states[i], steps[i]) && states[i + 1] == Apply(states[i], steps[i])
  {
    hide Init, Shape, Enabled, Apply;
    assert StepTo(states[i], steps[i], states[i + 1]);
  }

  lemma {:induction false} RunKeepsInv<W>(states: seq<Queue<W>>, steps: seq<Step<W>>, i: nat)
    requires Run(states, steps) && i <= |steps|
    ensures Inv(states[i])
  {
    hide Init, Inv, Shape, Enabled, Apply;
    if i == 0 {
      InitInv(states[0]);
    } else {
      RunKeepsInv(states, steps, i - 1);
      StepIsApply(states, steps, i - 1);
      StepKeepsInv(states[i - 1], steps[i - 1]);
    }
  }

  // ---- What the invariant means for the two ends.

  /** The slots met when walking masked increments from `from` until `to`. */
  ghost function LiveSlots<W>(slots: seq<seq<W>>, from: nat, to: nat, left: nat): seq<seq<W>>
    requires 0 < |slots| && from < |slots| && to < |slots|
    decreases left
  {
    if from == to || left == 0 then []
    else
      var next := NextIndex(from, |slots|);
      [slots[from]] + if next < |slots| then LiveSlots(slots, next, to, left - 1) else []
  }

  lemma {:induction false} LiveSlotsAreBacklog<W>(slots: seq<seq<W>>, entries: seq<seq<W>>, c: nat, left: nat)
    requires 0 < |slots| <= 0x8000_0000 && IsPow2(|slots|)
    requires c <= |entries| <= c + left && |entries| < c + |slots|
    requires forall i: nat :: c <= i < |entries| ==> slots[SlotOf(i, |slots|)] == entries[i]
    ensures LiveSlots(slots, SlotOf(c, |slots|), SlotOf(|entries|, |slots|), left) == entries[c..]
    decreases left
  {
    hide BitAnd, SlotOf, Pow2, NextIndex;
    SameSlot(c, |entries|, |slots|);
    if c < |entries| {
      NextIndexIsNextSlot(c, |slots|);
      LiveSlotsAreBacklog(slots, entries, c + 1, left - 1);
      assert entries[c..] == [entries[c]] + entries[c + 1..];
    }
  }

  /** In every reachable state: consumed entries, then the live slots, are exactly the accepted entries. */
  lemma {:induction false} NothingLostOrReordered<W>(states: seq<Queue<W>>, steps: seq<Step<W>>, i: nat)
    requires Run(states, steps) && i <= |steps|
    ensures var q := states[i];
      && Inv(q)
      && q.consumed + LiveSlots(q.slots, q.ReadIndex(), q.WriteIndex(), q.size) == q.accepted
      && |q.accepted| - |q.consumed| == BitAnd(Sub32(q.WriteIndex(), q.ReadIndex()), q.size - 1)
  {
    hide BitAnd, SlotOf, NextIndex;
    RunKeepsInv(states, steps, i);
    var q := states[i];
    LiveSlotsAreBacklog(q.slots, q.accepted, |q.consumed|, q.size);
    var k: nat :| q.size == Pow2(k);
    Pow2Values();
    if k > 32 { Pow2Monotone(32, k); }
    MaskedDistance(q.WriteIndex(), q.ReadIndex(), k);
    BacklogIsDistance(|q.accepted|, |q.consumed|, q.size);
  }

  lemma {:induction false} BacklogIsDistance(p: nat, c: nat, size: nat)
    requires 0 < size && c <= p < c + size
    ensures p - c == if SlotOf(c, size) <= SlotOf(p, size) then SlotOf(p, size) - SlotOf(c, size)
                     else SlotOf(p, size) + size - SlotOf(c, size)
    decreases c
  {
    if c >= size {
      BacklogIsDistance(p - size, c - size, size);
    }
  }

  /** The producer writes only a dead slot, the consumer reads only a published one, never the same one. */
  lemma {:induction false} AccessesNeverCollide<W>(states: seq<Queue<W>>, steps: seq<Step<W>>, i: nat)
    requires Run(states, steps) && i <= |steps|
    ensures var q := states[i];
      && Inv(q)
      && (q.producer.Copying? ==>
            forall j: nat :: |q.consumed| <= j < |q.accepted| ==> SlotOf(j, q.size) != q.producer.own)
      && (q.consumer.Reading? ==>
            && |q.consumed| < |q.accepted| && q.consumer.own == SlotOf(|q.consumed|, q.size)
            && q.slots[q.consumer.own] == q.accepted[|q.consumed|])
      && (q.producer.Copying? && q.consumer.Reading? ==> q.producer.own != q.consumer.own)
  {
    RunKeepsInv(states, steps, i);
    hide SlotOf, Pow2;
    var q := states[i];
    if q.producer.Copying? {
      WriteSlotIsFree(q);
    }
  }

  /** What one micro-step does to the history; the whole queue is a bounded FIFO of `size - 1` entries. */
  lemma {:induction false} StepRefinesBoundedFifo<W>(q: Queue<W>, step: Step<W>)
    requires Inv(q) && Enabled(q, step)
    ensures var q' := Apply(q, step);
      && (q'.accepted == if step.Publish? then q.accepted + [q.producer.entry] else q.accepted)
      && (q'.consumed == if step.Release? then q.accepted[..|q.consumed| + 1] else q.consumed)
      && (step.Publish? ==> |q'.accepted| - |q'.consumed| <= q.size - 1)
      && (step.Release? ==> |q.consumed| < |q.accepted|)
      && (step.CheckFull? ==> (q'.producer.Idle? <==> |q.accepted| - |q.consumed| == q.size - 1))
      && (step.CheckEmpty? ==> (q'.consumer.Resting? <==> q.consumed == q.accepted))
  {
    hide BitAnd, SlotOf, Pow2, NextIndex;
    SameSlot(|q.consumed|, |q.accepted| + 1, q.size);
    SameSlot(|q.consumed|, |q.accepted|, q.size);
    if step.Release? {
      var c := q.consumer;
      assert c.copy == q.accepted[|q.consumed|];
    }
  }

  predicate ProducerStep<W>(step: Step<W>) {
    step.StartEnqueue? || step.CheckFull? || step.CopyIn? || step.Publish?
  }

  /** A producer micro-step leaves the consumer's side alone, a consumer micro-step the producer's. */
  lemma {:induction false} StepFrame<W>(q: Queue<W>, step: Step<W>)
    requires Shape(q) && Enabled(q, step)
    ensures var q' := Apply(q, step); q'.width == q.width && q'.size == q.size && q'.role == q.role
    ensures var q' := Apply(q, step);
      ProducerStep(step) ==> q'.consumer == q.consumer
    ensures var q' := Apply(q, step);
      !ProducerStep(step) ==> q'.producer == q.producer
    ensures var q' := Apply(q, step); !q'.producer.Idle? ==>
      if step.StartEnqueue? then q'.producer.entry == step.entry
      else !q.producer.Idle? && q'.producer.entry == q.producer.entry
  {
    hide NextIndex;
  }

  /** A consumer micro-step leaves the producer's side alone; a release consumes the next accepted entry. */
  lemma {:induction false} ConsumeFrame<W>(q: Queue<W>, step: Step<W>)
    requires Inv(q) && !ProducerStep(step) && Enabled(q, step)
    ensures var q' := Apply(q, step);
      && Inv(q')
      && q'.accepted == q.accepted && q'.producer == q.producer && q'.width == q.width && q'.role == q.role
    ensures var q' := Apply(q, step); !step.Release? ==>
      && q'.consumed == q.consumed
      && (q'.consumer.Resting? ==> step.CheckEmpty? && q.consumed == q.accepted)
      && (q.consumer.Resting? ==> step.StartDequeue?)
    ensures var q' := Apply(q, step); step.Release? ==>
      && |q.consumed| < |q.accepted| && q.consumer.copy == q.accepted[|q.consumed|]
      && |q'.consumed| == |q.consumed| + 1 && q'.consumer.Resting? && q.consumer.Reading?
  {
    StepKeepsInv(q, step);
    StepRefinesBoundedFifo(q, step);
    StepFrame(q, step);
    hide Inv;
  }

  /** What a producer micro-step may change: it only extends the accepted history. */
  ghost predicate ProducedFrom<W>(q: Queue<W>, q': Queue<W>) {
    && Inv(q') && q'.role == q.role && q'.ReadIndex() == q.ReadIndex()
    && q'.consumed == q.consumed && q'.consumer == q.consumer && q'.width == q.width
    && |q.accepted| <= |q'.accepted| && q'.accepted[..|q.accepted|] == q.accepted
  }

  lemma {:induction false} ProduceFrame<W>(q: Queue<W>, step: Step<W>)
    requires Inv(q) && ProducerStep(step) && Enabled(q, step)
    ensures ProducedFrom(q, Apply(q, step))
  {
    StepKeepsInv(q, step);
    StepRefinesBoundedFifo(q, step);
    StepFrame(q, step);
    hide Inv;
  }
}
