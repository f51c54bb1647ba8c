// From the running logger to the join: the file a writer thread leaves is a log
// in the sense of the join theorems.
module WrittenLogs {
  import opened CsvLog
  import opened CsvRoundTrip
  import opened CsvWriter
  import opened CsvJoin
  import opened EndToEnd

  /** The first n entries the ring accepted, as a log. */
  ghost function LogOf(w: Writer, n: nat): Log
    requires n <= |w.queue.accepted|
  {
    Log(w.csvType, DecodeAll(w.queue.accepted[..n]))
  }

  /** Every accepted entry carries an address as inet_ntop writes it. */
  ghost predicate AddressesLogged(w: Writer) {
    forall i :: 0 <= i < |w.queue.accepted| ==> AddressText(Decode(w.queue.accepted[i]).srcIp)
  }

  lemma {:induction false} EncodedIsLogged(w: Writer, n: nat)
    requires EntriesEncoded(w.queue) && AddressesLogged(w) && n <= |w.queue.accepted|
    ensures AllLogged(LogOf(w, n).entries)
  {
    hide Decode, ValidEntry, AddressText;
    forall i | 0 <= i < n ensures LoggedEntry(LogOf(w, n).entries[i]) {
      assert IsEncoding(w.queue.accepted[i]);
    }
  }

  lemma {:induction false} InvEncoded(w: Writer)
    requires WriterInv(w)
    ensures EntriesEncoded(w.queue)
  {
  }

  lemma {:induction false} HeldIsLogText(w: Writer, n: nat)
    requires FileHolds(w, n)
    ensures n <= |w.queue.accepted| && w.file == LogText(LogOf(w, n).entries, w.csvType)
  {
  }

  /** At every moment of every run the file is the text of a log: what the join reads from it is exactly the rows of the
      entries written so far, under the file type of the logger. */
  lemma {:induction false} WrittenFileIsLog(states: seq<Writer>, events: seq<Event>, i: nat, ip: string, port: nat)
    requires WriterRun(states, events) && i <= |events| && states[i].batchSize != 1
    requires AddressesLogged(states[i]) && port < 0x1_0000
    ensures var w := states[i];
      var n := |w.queue.consumed| - |w.batch|;
      && 0 <= n <= |w.queue.accepted| && AllLogged(LogOf(w, n).entries)
      && FileOf(LogOf(w, n)) == File(w.file, FileTypeOf(w.csvType))
      && MatchingRows(w.file, ip, port) == TargetRows(LogOf(w, n).entries, w.csvType, ip, port)
  {
    hide WriterInv, FileHolds, EntriesEncoded, AddressesLogged, AllLogged, LogText, FileOf, MatchingRows, TargetRows,
      DecodeAll,      Start, WriterStep;
    var w := states[i];
    FileIsWholePrefix(states, events, i);
    var n := |w.queue.consumed| - |w.batch|;
    HeldIsLength(w, n);
    HeldIsLogText(w, n);
    RunKeepsWriterInv(states, events, i);
    InvEncoded(w);
    EncodedIsLogged(w, n);
    FileOfLog(LogOf(w, n));
    MatchingRowsOfLog(LogOf(w, n), ip, port);
  }

  lemma {:induction false} HeldIsLength(w: Writer, n: int)
    requires FileHolds(w, n)
    ensures 0 <= n <= |w.queue.accepted|
  {
  }
}
