// Whole runs of the CSV logger: any interleaving of the producing thread's
// micro-steps with the writer thread's, up to shutdown, and the file it leaves.
module CsvWriter {
  import opened Sequences
  import opened SpscQueue
  import opened CsvLog

  /** One word of a queued entry, as the queue copies it. */
  datatype Cell = Number(n: nat) | Text(s: string)

  function Encode(e: CsvEntry): seq<Cell> {
    [Number(e.seqNum), Text(e.srcIp), Number(e.srcPort)]
    + seq(|e.timestampNs|, i requires 0 <= i < |e.timestampNs| => Number(e.timestampNs[i]))
  }

  function NumberOf(c: Cell): nat { if c.Number? then c.n else 0 }

  function Decode(cells: seq<Cell>): CsvEntry {
    if |cells| != 15 || !cells[1].Text? then CsvEntry(0, [], "", 0)
    else
      var stamps := seq(12, i requires 0 <= i < 12 => NumberOf(cells[3 + i]));
      CsvEntry(NumberOf(cells[0]), stamps, cells[1].s, NumberOf(cells[2]))
  }

  function DecodeAll(entries: seq<seq<Cell>>): (es: seq<CsvEntry>)
    ensures |es| == |entries|
  {
    seq(|entries|, i requires 0 <= i < |entries| => Decode(entries[i]))
  }

  lemma {:induction false} DecodeEncode(e: CsvEntry)
    requires ValidEntry(e)
    ensures |Encode(e)| == 15 && Decode(Encode(e)) == e
  {
    assert Decode(Encode(e)).timestampNs == e.timestampNs;
  }

  datatype Phase = LoopTop | Filling | Formatting | FinalFilling | FinalFormatting | Done

  /** The ring, the writer thread's locals, the file, and the backlog it met when it saw `running == 0`. */
  datatype Writer = Writer(
    queue: Queue<Cell>, csvType: CsvType, batchSize: nat, running: bool,
    phase: Phase, batch: seq<CsvEntry>, file: string, backlog: int)

  datatype Event =
    | Produce(step: Step<Cell>)     // a micro-step of csv_enqueue_fast
    | Consume(step: Step<Cell>)     // a micro-step of csv_dequeue_batch
    | BatchFull                     // csv_dequeue_batch leaves its loop on the count
    | WriteOut                      // csv_format_batch, strlen, write
    | CheckRunning                  // the writer reads `running`
    | Destroy                       // csv_buffer_destroy clears `running` once the producer is done

  ghost predicate Start(w: Writer) {
    && Init(w.queue) && w.queue.role == CsvRing && w.queue.width == 15
    && w.batchSize < 0x100_0000          // above this, batch_size * 256 wraps in uint32
    && w.running && w.phase == LoopTop && w.batch == [] && w.file == Header(w.csvType)
  }

  ghost predicate IsEncoding(cells: seq<Cell>) {
    ValidEntry(Decode(cells)) && |cells| == 15
  }

  ghost predicate CanHappen(w: Writer, ev: Event)
    requires Shape(w.queue)
  {
    match ev
    case Produce(step) =>
      && ProducerStep(step) && Enabled(w.queue, step)
      && (step.StartEnqueue? ==> w.running && IsEncoding(step.entry))
    case Consume(step) =>
      && !ProducerStep(step) && Enabled(w.queue, step)
      && (w.phase == Filling || w.phase == FinalFilling)
      && (step.StartDequeue? ==> |w.batch| < w.batchSize)
    case BatchFull =>
      && (w.phase == Filling || w.phase == FinalFilling)
      && w.queue.consumer.Resting? && |w.batch| >= w.batchSize
    case WriteOut => w.phase == Formatting || w.phase == FinalFormatting
    case CheckRunning => w.phase == LoopTop
    case Destroy => w.running && w.queue.producer.Idle?
  }

  function AfterFilling(p: Phase): Phase {
    if p == Filling then Formatting else FinalFormatting
  }

  ghost function Perform(w: Writer, ev: Event): Writer
    requires Shape(w.queue) && CanHappen(w, ev)
  {
    match ev
    case Produce(step) => w.(queue := Apply(w.queue, step))
    case Consume(step) =>
      var w' := w.(queue := Apply(w.queue, step));
      if step.Release? then w'.(batch := w.batch + [Decode(w.queue.consumer.copy)])
      else if step.CheckEmpty? && w'.queue.consumer.Resting? then w'.(phase := AfterFilling(w.phase))
      else w'
    case BatchFull => w.(phase := AfterFilling(w.phase))
    case WriteOut =>
      w.(file := w.file + (if w.batch == [] then "" else Formatted(w.batch, w.csvType, 256 * w.batchSize)),
         batch := [], phase := if w.phase == Formatting then LoopTop else Done)
    case CheckRunning =>
      if w.running then w.(phase := Filling)
      else w.(phase := FinalFilling, backlog := |w.queue.accepted| - |w.queue.consumed|)
    case Destroy => w.(running := false)
  }

  ghost predicate WriterRun(states: seq<Writer>, events: seq<Event>) {
    && |states| == |events| + 1 && Start(states[0])
    && forall i :: 0 <= i < |events| ==> WriterStep(states[i], events[i], states[i + 1])
  }

  ghost predicate WriterStep(w: Writer, ev: Event, w': Writer) {
    Shape(w.queue) && CanHappen(w, ev) && w' == Perform(w, ev)
  }

  // ---- The invariant of a run.

  /** Entries of `w.queue.accepted` whose batch has been written: the consumed ones not still in `batch`. */
  ghost function WrittenCount(w: Writer): int { |w.queue.consumed| - |w.batch| }

  ghost predicate EntriesEncoded(q: Queue<Cell>) {
    && (forall i :: 0 <= i < |q.accepted| ==> IsEncoding(q.accepted[i]))
    && (!q.producer.Idle? ==> IsEncoding(q.producer.entry))
  }

  ghost predicate BatchInv(w: Writer) {
    && |w.queue.consumed| <= |w.queue.accepted|
    && |w.batch| <= |w.queue.consumed| && |w.batch| <= w.batchSize
    && w.batch == DecodeAll(w.queue.accepted[WrittenCount(w)..|w.queue.consumed|])
    && (w.phase == LoopTop || w.phase == Done ==> w.batch == [])
    && (w.queue.consumer != Resting ==>
          (w.phase == Filling || w.phase == FinalFilling) && |w.batch| < w.batchSize)
  }

  /** The file: the header, then the whole lines of the written prefix, unless batches are one entry long. */
  ghost predicate FileInv(w: Writer)
    requires 0 <= WrittenCount(w) <= |w.queue.accepted|
  {
    w.file == Header(w.csvType)
      + (if w.batchSize == 1 then "" else Lines(DecodeAll(w.queue.accepted[..WrittenCount(w)]), w.csvType))
  }

  ghost predicate ShutdownInv(w: Writer) {
    && (!w.running ==> w.queue.producer.Idle?)
    && (w.phase == FinalFilling || w.phase == FinalFormatting || w.phase == Done ==> !w.running)
    && (w.phase == FinalFilling || w.phase == FinalFormatting ==>
          w.backlog == |w.queue.accepted| - WrittenCount(w))
    && (w.phase == FinalFormatting ==> |w.batch| == w.batchSize || w.queue.consumed == w.queue.accepted)
    && (w.phase == Done ==>
          |w.queue.accepted| - WrittenCount(w) == if w.backlog > w.batchSize then w.backlog - w.batchSize else 0)
  }

  ghost predicate WriterInv(w: Writer) {
    && SpscQueue.Inv(w.queue) && w.queue.width == 15 && w.batchSize < 0x100_0000
    && EntriesEncoded(w.queue) && BatchInv(w) && FileInv(w) && ShutdownInv(w)
  }

  lemma {:induction false} StartInv(w: Writer)
    requires Start(w)
    ensures WriterInv(w)
  {
    InitInv(w.queue);
    assert w.queue.accepted[..0] == [];
    assert DecodeAll([]) == [];
  }

  lemma {:induction false} DecodeAllSnoc(a: seq<seq<Cell>>, x: seq<Cell>)
    ensures DecodeAll(a + [x]) == DecodeAll(a) + [Decode(x)]
  {
  }

  /** A producer micro-step that starts from an encoding keeps every queued entry one. */
  lemma {:induction false} ProduceKeepsEncoding(q: Queue<Cell>, step: Step<Cell>)
    requires SpscQueue.Inv(q) && ProducerStep(step) && Enabled(q, step)
    requires EntriesEncoded(q) && (step.StartEnqueue? ==> IsEncoding(step.entry))
    ensures EntriesEncoded(Apply(q, step))
  {
    assert Shape(q);
    hide SpscQueue.Inv, IsEncoding, Apply;
    StepRefinesBoundedFifo(q, step);
    StepFrame(q, step);
  }

  lemma {:induction false} ProducedKeepsInv(w: Writer, q': Queue<Cell>)
    requires WriterInv(w) && ProducedFrom(w.queue, q') && EntriesEncoded(q')
    requires w.running
    ensures WriterInv(w.(queue := q'))
  {
    hide SpscQueue.Inv, EntriesEncoded, Lines, Header, DecodeAll;
    var q, n := w.queue, WrittenCount(w);
    PrefixOfPrefix(q'.accepted, |q.accepted|, n);
    SliceOfPrefix(q'.accepted, |q.accepted|, n, |q.consumed|);
  }

  lemma {:induction false} ProduceKeepsInv(w: Writer, step: Step<Cell>)
    requires WriterInv(w) && CanHappen(w, Produce(step))
    ensures WriterInv(Perform(w, Produce(step)))
  {
    assert !w.running ==> w.queue.producer.Idle?;
    assert w.running;
    ProduceFrame(w.queue, step);
    ProduceKeepsEncoding(w.queue, step);
    hide WriterInv, Apply, Enabled, Shape, EntriesEncoded, ProducedFrom;
    ProducedKeepsInv(w, Apply(w.queue, step));
  }

  lemma {:induction false} ReleaseGrowsBatch(w: Writer, q': Queue<Cell>)
    requires WriterInv(w) && w.queue.consumer != Resting
    requires SpscQueue.Inv(q') && q'.accepted == w.queue.accepted && q'.producer == w.queue.producer
    requires q'.width == w.queue.width && q'.consumer.Resting?
    requires |w.queue.consumed| < |w.queue.accepted| && |q'.consumed| == |w.queue.consumed| + 1
    ensures WriterInv(w.(queue := q', batch := w.batch + [Decode(w.queue.accepted[|w.queue.consumed|])]))
  {
    hide SpscQueue.Inv, IsEncoding, Lines, Header, DecodeAll, Decode;
    var q, n, c := w.queue, WrittenCount(w), |w.queue.consumed|;
    assert q.accepted[n..c + 1] == q.accepted[n..c] + [q.accepted[c]];
    DecodeAllSnoc(q.accepted[n..c], q.accepted[c]);
  }

  lemma {:induction false} LookKeepsInv(w: Writer, q': Queue<Cell>, p: Phase)
    requires WriterInv(w) && (w.phase == Filling || w.phase == FinalFilling)
    requires SpscQueue.Inv(q') && q'.accepted == w.queue.accepted && q'.producer == w.queue.producer
    requires q'.width == w.queue.width && q'.consumed == w.queue.consumed
    requires p == if q'.consumer.Resting? then AfterFilling(w.phase) else w.phase
    requires if q'.consumer.Resting? then q'.consumed == q'.accepted else |w.batch| < w.batchSize
    ensures WriterInv(w.(queue := q', phase := p))
  {
    hide SpscQueue.Inv, IsEncoding, Lines, Header, DecodeAll, Decode;
  }

  lemma {:induction false} ConsumeKeepsInv(w: Writer, step: Step<Cell>)
    requires WriterInv(w) && CanHappen(w, Consume(step))
    ensures WriterInv(Perform(w, Consume(step)))
  {
    var q' := Apply(w.queue, step);
    ConsumeFrame(w.queue, step);
    assert step.StartDequeue? || |w.batch| < w.batchSize;
    assert step.StartDequeue? ==> q'.consumer.Looking?;
    hide WriterInv, Apply, Enabled, Shape, Decode;
    if step.Release? {
      ReleaseGrowsBatch(w, q');
    } else {
      LookKeepsInv(w, q', if q'.consumer.Resting? then AfterFilling(w.phase) else w.phase);
    }
  }

  lemma {:induction false} WriteOutExtendsFile(accepted: seq<seq<Cell>>, n: nat, c: nat, t: CsvType)
    requires n <= c <= |accepted|
    ensures Lines(DecodeAll(accepted[..c]), t)
      == Lines(DecodeAll(accepted[..n]), t) + Lines(DecodeAll(accepted[n..c]), t)
  {
    assert DecodeAll(accepted[..c]) == DecodeAll(accepted[..n]) + DecodeAll(accepted[n..c]);
    LinesAppend(DecodeAll(accepted[..n]), DecodeAll(accepted[n..c]), t);
  }

  lemma {:induction false} NothingDecoded(t: CsvType)
    ensures DecodeAll([]) == [] && Lines([], t) == ""
  {
  }

  lemma {:induction false} WriteOutKeepsInv(w: Writer)
    requires WriterInv(w) && CanHappen(w, WriteOut)
    ensures WriterInv(Perform(w, WriteOut))
  {
    hide SpscQueue.Inv, EntriesEncoded, Header, Lines, DecodeAll;
    WriteOutExtendsFile(w.queue.accepted, WrittenCount(w), |w.queue.consumed|, w.csvType);
    NothingDecoded(w.csvType);
    assert w.queue.accepted[|w.queue.consumed|..|w.queue.consumed|] == [];
  }

  lemma {:induction false} ControlKeepsInv(w: Writer, ev: Event)
    requires WriterInv(w) && CanHappen(w, ev) && (ev.BatchFull? || ev.CheckRunning? || ev.Destroy?)
    ensures WriterInv(Perform(w, ev))
  {
    hide SpscQueue.Inv, EntriesEncoded, Lines, Header, DecodeAll, Apply;
  }

  lemma {:induction false} StepKeepsWriterInv(w: Writer, ev: Event)
    requires WriterInv(w) && CanHappen(w, ev)
    ensures WriterInv(Perform(w, ev))
  {
    hide WriterInv, CanHappen, Perform;
    match ev
    case Produce(step) => ProduceKeepsInv(w, step);
    case Consume(step) => ConsumeKeepsInv(w, step);
    case WriteOut => WriteOutKeepsInv(w);
    case _ => ControlKeepsInv(w, ev);
  }

  lemma {:induction false} RunKeepsWriterInv(states: seq<Writer>, events: seq<Event>, i: nat)
    requires WriterRun(states, events) && i <= |events|
    ensures WriterInv(states[i])
  {
    hide WriterInv, Start, Perform, CanHappen;
    if i == 0 {
      StartInv(states[0]);
    } else {
      RunKeepsWriterInv(states, events, i - 1);
      assert WriterStep(states[i - 1], events[i - 1], states[i]);
      StepKeepsWriterInv(states[i - 1], events[i - 1]);
    }
  }

  // ---- What every run guarantees.

  /** The file holds the header and the whole lines, in order, of the first n entries accepted. */
  ghost predicate FileHolds(w: Writer, n: int) {
    && 0 <= n <= |w.queue.accepted|
    && w.file == Header(w.csvType) + Lines(DecodeAll(w.queue.accepted[..n]), w.csvType)
  }

  lemma {:induction false} InvGivesFile(w: Writer)
    requires WriterInv(w)
    ensures w.batchSize != 1 ==> FileHolds(w, WrittenCount(w))
    ensures w.batchSize == 1 ==> w.file == Header(w.csvType)
    ensures w.phase == Done && w.batchSize != 1 ==>
      FileHolds(w, |w.queue.accepted| - (if w.backlog > w.batchSize then w.backlog - w.batchSize else 0))
  {
    hide SpscQueue.Inv, EntriesEncoded, Lines, Header, DecodeAll;
  }

  /** At every moment the file is a whole-line prefix: everything consumed but the batch in hand. */
  lemma {:induction false} FileIsWholePrefix(states: seq<Writer>, events: seq<Event>, i: nat)
    requires WriterRun(states, events) && i <= |events| && states[i].batchSize != 1
    ensures FileHolds(states[i], |states[i].queue.consumed| - |states[i].batch|)
  {
    RunKeepsWriterInv(states, events, i);
    hide WriterRun, WriterInv, FileHolds;
    InvGivesFile(states[i]);
  }

  /** With batches of one entry the formatter's guard never lets a line through: the file stays the bare header. */
  lemma {:induction false} BatchOfOneWritesNothing(states: seq<Writer>, events: seq<Event>, i: nat)
    requires WriterRun(states, events) && i <= |events| && states[i].batchSize == 1
    ensures states[i].file == Header(states[i].csvType)
  {
    RunKeepsWriterInv(states, events, i);
    hide WriterRun, WriterInv, FileHolds, Header;
    InvGivesFile(states[i]);
  }

  /** After shutdown the final flush has written one batch of the backlog; exactly the rest is missing. */
  lemma {:induction false} ShutdownLosesBacklogBeyondOneBatch(states: seq<Writer>, events: seq<Event>, i: nat)
    requires WriterRun(states, events) && i <= |events|
    requires states[i].phase == Done && states[i].batchSize != 1
    ensures var w := states[i];
      FileHolds(w, |w.queue.accepted| - (if w.backlog > w.batchSize then w.backlog - w.batchSize else 0))
  {
    RunKeepsWriterInv(states, events, i);
    hide WriterRun, WriterInv, FileHolds;
    InvGivesFile(states[i]);
  }
}
