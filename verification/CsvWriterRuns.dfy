// Runs of the CSV logger in which its losses happen: any entries logged while
// the writer thread is held up, then a shutdown.
module CsvWriterRuns {
  import opened Runs
  import opened SpscQueue
  import opened CsvLog
  import opened CsvWriter

  lemma {:induction false} InvShape(w: Writer)
    requires WriterInv(w)
    ensures Shape(w.queue)
  {
  }

  /** One more event. */
  lemma {:induction false} Then(w: Writer, z: Writer, ev: Event) returns (z': Writer)
    requires Leads(WriterStep, w, z) && WriterInv(z) && Shape(z.queue) && CanHappen(z, ev)
    ensures z' == Perform(z, ev) && Leads(WriterStep, w, z') && WriterInv(z') && Shape(z'.queue)
  {
    hide WriterInv, CanHappen, Perform, Shape, Leads;
    z' := Perform(z, ev);
    StepKeepsWriterInv(z, ev);
    InvShape(z');
    LeadsThen(WriterStep, w, z, ev, z');
  }

  // ---- The producer logs an entry.

  /** Nothing but the queue's producing side has moved. */
  ghost predicate OnlyProducerMoved(w: Writer, z: Writer) {
    && z == w.(queue := z.queue) && z.queue.consumed == w.queue.consumed && z.queue.consumer == w.queue.consumer
    && z.queue.width == w.queue.width && z.queue.size == w.queue.size
  }

  ghost predicate At(w: Writer, z: Writer) {
    Leads(WriterStep, w, z) && WriterInv(z) && Shape(z.queue)
  }

  /** What one producer step does, from the queue's own guarantees. */
  lemma {:induction false} ProducerMoves(w: Writer, z: Writer, step: Step<Cell>) returns (z': Writer)
    requires At(w, z) && ProducerStep(step) && Enabled(z.queue, step)
    requires step.StartEnqueue? ==> z.running && IsEncoding(step.entry)
    ensures At(w, z') && OnlyProducerMoved(z, z') && z'.queue == Apply(z.queue, step)
    ensures z'.queue.accepted == if step.Publish? then z.queue.accepted + [z.queue.producer.entry] else z.queue.accepted
  {
    hide WriterInv, Leads, IsEncoding;
    z' := Then(w, z, Produce(step));
    QueueInv(z);
    hide Shape, Apply, Enabled, SpscQueue.Inv;
    StepRefinesBoundedFifo(z.queue, step);
    StepFrame(z.queue, step);
  }

  lemma {:induction false} QueueInv(w: Writer)
    requires WriterInv(w)
    ensures SpscQueue.Inv(w.queue) && w.queue.width == 15
  {
  }

  lemma {:induction false} CopyWordsIn(w: Writer, z: Writer) returns (y: Writer)
    requires At(w, z) && z.queue.producer.Copying?
    ensures At(w, y) && OnlyProducerMoved(z, y) && y.queue.accepted == z.queue.accepted
    ensures y.queue.producer.Copying? && y.queue.producer.entry == z.queue.producer.entry
    ensures y.queue.producer.done == y.queue.width
    decreases if z.queue.producer.done < z.queue.width then z.queue.width - z.queue.producer.done else 0
  {
    hide At, WriterInv, Leads;
    AtShape(w, z);
    y := z;
    if z.queue.producer.done < z.queue.width {
      var x := ProducerMoves(w, z, CopyIn);
      y := CopyWordsIn(w, x);
    }
  }

  lemma {:induction false} AtShape(w: Writer, z: Writer)
    requires At(w, z)
    ensures Shape(z.queue) && SpscQueue.Inv(z.queue) && z.queue.width == 15
  {
  }

  /** With room in the ring, an entry is logged. */
  lemma {:induction false} LogOne(w: Writer, z: Writer, e: CsvEntry) returns (y: Writer)
    requires At(w, z) && z.running && z.queue.producer.Idle? && ValidEntry(e)
    requires |z.queue.accepted| < |z.queue.consumed| + z.queue.size - 1
    ensures At(w, y) && OnlyProducerMoved(z, y) && y.queue.producer.Idle?
    ensures y.queue.accepted == z.queue.accepted + [Encode(e)]
  {
    hide At, WriterInv, Leads, SpscQueue.Inv, ValidEntry, Encode, Decode, NextIndex;
    AtShape(w, z);
    EncodingOf(e);
    var a := ProducerMoves(w, z, StartEnqueue(Encode(e)));
    var b := ProducerMoves(w, a, CheckFull);
    AtShape(w, a);
    StepRefinesBoundedFifo(a.queue, CheckFull);
    var c := CopyWordsIn(w, b);
    y := ProducerMoves(w, c, Publish);
  }

  lemma {:induction false} EncodingOf(e: CsvEntry)
    requires ValidEntry(e)
    ensures |Encode(e)| == 15 && IsEncoding(Encode(e))
  {
    DecodeEncode(e);
  }

  function EncodeAll(es: seq<CsvEntry>): (cells: seq<seq<Cell>>)
    ensures |cells| == |es|
  {
    if es == [] then [] else EncodeAll(es[..|es| - 1]) + [Encode(es[|es| - 1])]
  }

  /** The writer at the top of its loop, nothing taken yet, nobody inside the queue. */
  ghost predicate Idle(z: Writer) {
    && z.running && z.phase == LoopTop && z.batch == []
    && z.queue.producer.Idle? && z.queue.consumer.Resting? && z.queue.consumed == []
  }

  lemma {:induction false} LogAll(w: Writer, es: seq<CsvEntry>) returns (y: Writer)
    requires Start(w) && ValidEntries(es) && |es| <= w.queue.size - 1
    ensures At(w, y) && Idle(y) && y.queue.accepted == EncodeAll(es)
    ensures y.batchSize == w.batchSize && y.queue.size == w.queue.size && y.csvType == w.csvType
  {
    hide At, WriterInv, Leads, SpscQueue.Inv, ValidEntry, Encode;
    if es == [] {
      y := w;
      StartAt(w);
    } else {
      var x := LogAll(w, es[..|es| - 1]);
      y := LogOne(w, x, es[|es| - 1]);
    }
  }

  lemma {:induction false} StartAt(w: Writer)
    requires Start(w)
    ensures At(w, w)
  {
    hide WriterInv, Leads;
    Stay(WriterStep, w);
    StartInv(w);
    InvShape(w);
  }

  // ---- The final flush.

  /** Nothing but the queue's consuming side and the batch have moved. */
  ghost predicate OnlyConsumerMoved(w: Writer, z: Writer) {
    && z == w.(queue := z.queue, batch := z.batch)
    && z.queue.accepted == w.queue.accepted && z.queue.producer == w.queue.producer && z.queue.width == w.queue.width
  }

  /** The final flush, still filling, has consumed n entries. */
  ghost predicate Flushing(z: Writer, n: nat) {
    z.phase == FinalFilling && |z.queue.consumed| == n && |z.batch| == n
  }

  lemma {:induction false} ConsumerMoves(w: Writer, z: Writer, step: Step<Cell>) returns (z': Writer)
    requires At(w, z) && z.phase == FinalFilling && !ProducerStep(step) && Enabled(z.queue, step)
    requires step.StartDequeue? ==> |z.batch| < z.batchSize
    requires step.CheckEmpty? ==> |z.queue.consumed| < |z.queue.accepted|
    ensures At(w, z') && OnlyConsumerMoved(z, z') && z'.queue == Apply(z.queue, step)
    ensures |z'.batch| == |z.batch| + if step.Release? then 1 else 0
    ensures |z'.queue.consumed| == |z.queue.consumed| + if step.Release? then 1 else 0
    ensures !step.Release? ==> z'.batch == z.batch && z'.queue.consumed == z.queue.consumed
    ensures step.CheckEmpty? ==> z'.queue.consumer.Reading? && |z'.queue.consumer.copy| == 0
    ensures step.Release? ==> z'.queue.consumer.Resting?
  {
    hide WriterInv, Leads, Decode;
    QueueInv(z);
    ConsumeFrame(z.queue, step);
    if step.CheckEmpty? { NotEmpty(z.queue, step); }
    z' := Then(w, z, Consume(step));
  }

  lemma {:induction false} NotEmpty(q: Queue<Cell>, step: Step<Cell>)
    requires SpscQueue.Inv(q) && Enabled(q, step) && step.CheckEmpty? && |q.consumed| < |q.accepted|
    ensures Apply(q, step).consumer.Reading? && |Apply(q, step).consumer.copy| == 0
  {
    StepRefinesBoundedFifo(q, step);
  }

  lemma {:induction false} CopyWordsOut(w: Writer, z: Writer) returns (y: Writer)
    requires At(w, z) && z.phase == FinalFilling && z.queue.consumer.Reading?
    ensures At(w, y) && OnlyConsumerMoved(z, y) && y.batch == z.batch && y.queue.consumed == z.queue.consumed
    ensures y.queue.consumer.Reading? && |y.queue.consumer.copy| == y.queue.width
    decreases if |z.queue.consumer.copy| < z.queue.width then z.queue.width - |z.queue.consumer.copy| else 0
  {
    hide At, WriterInv, Leads;
    AtShape(w, z);
    y := z;
    if |z.queue.consumer.copy| < z.queue.width {
      var x := ConsumerMoves(w, z, CopyOut);
      y := CopyWordsOut(w, x);
    }
  }

  lemma {:induction false} FlushOne(w: Writer, z: Writer, n: nat) returns (y: Writer)
    requires At(w, z) && Flushing(z, n) && z.queue.consumer.Resting? && n < z.batchSize && n < |z.queue.accepted|
    ensures At(w, y) && OnlyConsumerMoved(z, y) && Flushing(y, n + 1) && y.queue.consumer.Resting?
  {
    hide At, WriterInv, Leads, SpscQueue.Inv;
    AtShape(w, z);
    var a := ConsumerMoves(w, z, StartDequeue);
    var b := ConsumerMoves(w, a, CheckEmpty);
    var c := CopyWordsOut(w, b);
    y := ConsumerMoves(w, c, Release);
  }

  lemma {:induction false} FlushBatch(w: Writer, z: Writer, n: nat) returns (y: Writer)
    requires At(w, z) && Flushing(z, n) && z.queue.consumer.Resting? && n <= z.batchSize <= |z.queue.accepted|
    ensures At(w, y) && OnlyConsumerMoved(z, y) && Flushing(y, z.batchSize) && y.queue.consumer.Resting?
    decreases z.batchSize - n
  {
    hide At, WriterInv, Leads, SpscQueue.Inv;
    y := z;
    if n < z.batchSize {
      var x := FlushOne(w, z, n);
      y := FlushBatch(w, x, n + 1);
    }
  }

  /** Destroy with everything logged still queued: the flush takes one batch and the thread ends. */
  lemma {:induction false} ShutDown(w: Writer, z: Writer) returns (y: Writer)
    requires At(w, z) && Idle(z) && z.batchSize <= |z.queue.accepted|
    ensures At(w, y) && y.phase == Done && y.backlog == |z.queue.accepted| && y.queue.accepted == z.queue.accepted
    ensures y.batchSize == z.batchSize && y.csvType == z.csvType
  {
    hide WriterInv, Leads, SpscQueue.Inv, Shape, Header, Lines;
    var a := Then(w, z, Destroy);
    var b := Then(w, a, CheckRunning);
    var c := FlushBatch(w, b, 0);
    var d := Then(w, c, BatchFull);
    y := Then(w, d, WriteOut);
  }

  lemma {:induction false} RunTo(w: Writer, z: Writer) returns (states: seq<Writer>, events: seq<Event>)
    requires Start(w) && Leads(WriterStep, w, z)
    ensures WriterRun(states, events) && states[0] == w && states[|events|] == z
  {
    hide Start, WriterStep;
    states, events :| Path(WriterStep, states, events, w, z);
  }

  lemma {:induction false} DecodeEncodeAll(es: seq<CsvEntry>, n: nat)
    requires ValidEntries(es) && n <= |es|
    ensures DecodeAll(EncodeAll(es)[..n]) == es[..n]
  {
    hide ValidEntry, Encode, Decode;
    forall i | 0 <= i < n ensures Decode(EncodeAll(es)[i]) == es[i] {
      EncodedAt(es, i);
      DecodeEncode(es[i]);
    }
  }

  lemma {:induction false} EncodedAt(es: seq<CsvEntry>, i: nat)
    requires i < |es|
    ensures EncodeAll(es)[i] == Encode(es[i])
  {
    hide Encode;
    if i < |es| - 1 { EncodedAt(es[..|es| - 1], i); }
  }

  /** The loss happens: whatever more than one batch of entries is logged, up to the ring's room, some run has accepted
      them all, shuts down, and leaves a file holding the first batch only (nothing when batches are one entry). */
  lemma {:induction false} BacklogIsLost(w: Writer, es: seq<CsvEntry>) returns (states: seq<Writer>, events: seq<Event>)
    requires Start(w) && ValidEntries(es) && w.batchSize < |es| <= w.queue.size - 1
    ensures WriterRun(states, events) && states[0] == w
    ensures var last := states[|events|];
      && last.phase == Done && last.backlog == |es| && DecodeAll(last.queue.accepted) == es
      && last.file == Header(w.csvType) + if w.batchSize == 1 then "" else Lines(es[..w.batchSize], w.csvType)
  {
    hide WriterInv, WriterRun, Start, Leads, ValidEntry, Encode, DecodeAll, Header, Lines, FileHolds, Shape;
    var y := LogAll(w, es);
    var z := ShutDown(w, y);
    states, events := RunTo(w, z);
    DecodeEncodeAll(es, |es|);
    assert es[..|es|] == es && EncodeAll(es)[..|es|] == EncodeAll(es);
    if w.batchSize == 1 {
      BatchOfOneWritesNothing(states, events, |events|);
    } else {
      ShutdownLosesBacklogBeyondOneBatch(states, events, |events|);
      FileHoldsIs(z, w.batchSize);
      DecodeEncodeAll(es, w.batchSize);
    }
  }

  lemma {:induction false} FileHoldsIs(w: Writer, n: nat)
    requires FileHolds(w, n)
    ensures n <= |w.queue.accepted| && w.file == Header(w.csvType) + Lines(DecodeAll(w.queue.accepted[..n]), w.csvType)
  {
  }
}
