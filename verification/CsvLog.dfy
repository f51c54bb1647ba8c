// The logger's CSV format: header, one line per entry, and the batch formatter
// that fills the preallocated write buffer.
module CsvLog {
  import opened Bits
  import opened CsvText

  datatype CsvType =
    | ClientMainOneway | ClientMainRoundtrip | ClientTx
    | ServerMainOneway | ServerMainRoundtrip | ServerTx

  /** `csv_entry_t`; the twelve timestamps are nanoseconds, 0 when absent. */
  datatype CsvEntry = CsvEntry(seqNum: nat, timestampNs: seq<nat>, srcIp: string, srcPort: nat)

  /** The C field widths: uint32, uint64[12], char[16] with its NUL, uint16. */
  predicate ValidEntry(e: CsvEntry) {
    && e.seqNum < TWO_32 && |e.timestampNs| == 12 && e.srcPort < 0x1_0000
    && (forall i :: 0 <= i < 12 ==> e.timestampNs[i] < TWO_64)
    && |e.srcIp| <= 15 && '\0' !in e.srcIp
  }

  /** The columns every log file starts with. */
  const KEY_COLUMNS := "clt_src_ip,clt_src_port,seq_num"

  /** The timestamp columns of a log file, each led by its comma. */
  function StampColumns(t: CsvType): string {
    match t
    case ClientMainOneway => ",clt_app_tx_ts"
    case ClientMainRoundtrip =>
      ",clt_app_tx_tsc_ts,clt_app_tx_ts" + ",clt_hw_rx_ts,clt_ker_rx_ts" + ",clt_app_rx_tsc_ts,clt_app_rx_ts"
    case ClientTx => ",clt_ker_tx_ts"
    case ServerMainOneway => ",svr_hw_rx_ts,svr_ker_rx_ts" + ",svr_app_rx_ts"
    case ServerMainRoundtrip => ",svr_hw_rx_ts,svr_ker_rx_ts" + ",svr_app_rx_ts,svr_app_tx_ts"
    case ServerTx => ",svr_ker_tx_ts"
  }

  function HeaderColumns(t: CsvType): string {
    KEY_COLUMNS + StampColumns(t)
  }

  /** `get_csv_header`. */
  function Header(t: CsvType): string {
    HeaderColumns(t) + "\n"
  }

  /** Indices into `timestampNs`, in the order the format string prints them. */
  function PrintedStamps(t: CsvType): (cols: seq<nat>)
    ensures 1 <= |cols| <= 6 && forall i :: 0 <= i < |cols| ==> cols[i] < 12
  {
    match t
    case ClientMainOneway => [1]
    case ClientMainRoundtrip => [0, 1, 3, 4, 5, 6]
    case ClientTx => [2]
    case ServerMainOneway => [7, 8, 9]
    case ServerMainRoundtrip => [7, 8, 9, 10]
    case ServerTx => [11]
  }

  function Stamp(e: CsvEntry, i: nat): nat {
    if i < |e.timestampNs| then e.timestampNs[i] else 0
  }

  /** The comma-separated fields of a log line. */
  function LineFields(e: CsvEntry, t: CsvType): (fields: seq<string>)
    ensures |fields| == 3 + |PrintedStamps(t)|
  {
    [e.srcIp, Digits(e.srcPort), Digits(e.seqNum)]
    + seq(|PrintedStamps(t)|, i requires 0 <= i < |PrintedStamps(t)| => TimestampText(Stamp(e, PrintedStamps(t)[i])))
  }

  /** Fields joined by commas. */
  function Joined(fields: seq<string>): string {
    if fields == [] then ""
    else if |fields| == 1 then fields[0]
    else Joined(fields[..|fields| - 1]) + "," + fields[|fields| - 1]
  }

  function Line(e: CsvEntry, t: CsvType): string {
    Joined(LineFields(e, t)) + "\n"
  }

  predicate ValidEntries(es: seq<CsvEntry>) {
    forall i :: 0 <= i < |es| ==> ValidEntry(es[i])
  }

  function Lines(es: seq<CsvEntry>, t: CsvType): string {
    if es == [] then "" else Lines(es[..|es| - 1], t) + Line(es[|es| - 1], t)
  }

  lemma {:induction false} LinesAppend(a: seq<CsvEntry>, b: seq<CsvEntry>, t: CsvType)
    ensures Lines(a + b, t) == Lines(a, t) + Lines(b, t)
    decreases |b|
  {
    hide Line;
    if b == [] {
      assert a + b == a;
    } else {
      var b', last := b[..|b| - 1], b[|b| - 1];
      LinesAppend(a, b', t);
      assert (a + b)[..|a + b| - 1] == a + b';
      assert (a + b)[|a + b| - 1] == last;
      assert Lines(a, t) + (Lines(b', t) + Line(last, t)) == (Lines(a, t) + Lines(b', t)) + Line(last, t);
    }
  }

  /** Bounds on the joined text from bounds on the fields: at most `w` characters and no NUL each. */
  lemma {:induction false} JoinedBound(fields: seq<string>, w: nat)
    requires forall i :: 0 <= i < |fields| ==> |fields[i]| <= w && '\0' !in fields[i]
    ensures fields != [] ==> |Joined(fields)| + 1 <= |fields| * (w + 1)
    ensures '\0' !in Joined(fields)
  {
    if |fields| > 1 {
      var n := |fields| - 1;
      JoinedBound(fields[..n], w);
      assert (n + 1) * (w + 1) == n * (w + 1) + (w + 1);
    }
  }

  lemma {:induction false} JoinedSplit(a: seq<string>, b: seq<string>)
    requires a != [] && b != []
    ensures Joined(a + b) == Joined(a) + "," + Joined(b)
    decreases |b|
  {
    var b', last := b[..|b| - 1], b[|b| - 1];
    assert (a + b)[..|a + b| - 1] == a + b';
    assert Joined(a + b) == Joined(a + b') + "," + last;
    if |b| == 1 {
      assert a + b' == a;
    } else {
      JoinedSplit(a, b');
      assert Joined(a + b) == Joined(a) + "," + (Joined(b') + "," + last);
    }
  }

  /** The longest line is 165 characters, newline included, and holds no NUL. */
  lemma {:induction false} LineBound(e: CsvEntry, t: CsvType)
    requires ValidEntry(e)
    ensures |Line(e, t)| <= 165 && '\0' !in Line(e, t)
  {
    hide TimestampText;
    var f := LineFields(e, t);
    var head, stamps := f[..3], f[3..];
    assert f == head + stamps;
    JoinedSplit(head, stamps);
    forall i | 0 <= i < |stamps| ensures |stamps[i]| <= 21 && '\0' !in stamps[i] {
      TimestampTextShape(Stamp(e, PrintedStamps(t)[i]));
      assert stamps[i] == TimestampText(Stamp(e, PrintedStamps(t)[i]));
    }
    JoinedBound(stamps, 21);
    HeadBound(e);
    assert head == [e.srcIp, Digits(e.srcPort), Digits(e.seqNum)];
  }

  lemma {:induction false} HeadBound(e: CsvEntry)
    requires ValidEntry(e)
    ensures var h := Joined([e.srcIp, Digits(e.srcPort), Digits(e.seqNum)]);
      |h| <= 32 && '\0' !in h
  {
    hide AllDigits, Digits;
    Pow10Values();
    DigitsLength(e.srcPort, 5);
    DigitsLength(e.seqNum, 10);
    NoDotInDigits(Digits(e.srcPort));
    NoDotInDigits(Digits(e.seqNum));
    var h := [e.srcIp, Digits(e.srcPort), Digits(e.seqNum)];
    var h2 := [e.srcIp, Digits(e.srcPort)];
    assert h[..2] == h2 && h2[..1] == [e.srcIp];
    assert Joined(h2) == Joined([e.srcIp]) + "," + Digits(e.srcPort);
    assert Joined(h) == e.srcIp + "," + Digits(e.srcPort) + "," + Digits(e.seqNum);
  }

  lemma {:induction false} LinesBound(es: seq<CsvEntry>, t: CsvType)
    requires ValidEntries(es)
    ensures |Lines(es, t)| <= 165 * |es| && '\0' !in Lines(es, t)
  {
    hide Line;
    if es != [] {
      LinesBound(es[..|es| - 1], t);
      LineBound(es[|es| - 1], t);
    }
  }

  // ---- The write buffer.

  /** The C string a buffer holds: the characters before the first NUL. */
  function CString(b: seq<char>): string {
    b[..IndexOf(b, '\0')]
  }

  lemma {:induction false} CStringOf(b: seq<char>, n: nat)
    requires n < |b| && b[n] == '\0' && '\0' !in b[..n]
    ensures CString(b) == b[..n]
  {
    assert b == b[..n] + ['\0'] + b[n + 1..];
    IndexOfAppend(b[..n], b[n + 1..], '\0');
  }

  /** `snprintf(buffer + offset, size - offset, ...)` producing `text`: truncates, terminates, returns the
      full length. */
  method Snprintf(buffer: array<char>, offset: nat, text: string) returns (len: nat)
    requires offset < buffer.Length
    modifies buffer
    ensures len == |text|
    ensures offset + |text| < buffer.Length ==>
      buffer[..offset + |text|] == old(buffer[..offset]) + text && buffer[offset + |text|] == '\0'
  {
    var room := buffer.Length - offset - 1;
    var n := if |text| < room then |text| else room;
    for i := 0 to n
      invariant buffer[..offset + i] == old(buffer[..offset]) + text[..i]
    {
      buffer[offset + i] := text[i];
    }
    buffer[offset + n] := '\0';
    return |text|;
  }

  /** What a batch turns into: every line whole, except that a 256-byte buffer formats nothing at all. */
  function Formatted(batch: seq<CsvEntry>, t: CsvType, bufferSize: nat): string {
    if bufferSize > 256 then Lines(batch, t) else ""
  }

  /** The terminating store at the end of csv_format_batch. */
  method Terminate(buffer: array<char>, offset: nat, ghost text: string)
    requires offset < buffer.Length && buffer[..offset] == text && '\0' !in text
    modifies buffer
    ensures CString(buffer[..]) == text
  {
    buffer[offset] := '\0';
    assert buffer[..][..offset] == buffer[..offset];
    CStringOf(buffer[..], offset);
  }

  /** `csv_format_batch`: the buffer holds 256 bytes for each entry it may be given. */
  method FormatBatch(batch: seq<CsvEntry>, buffer: array<char>, t: CsvType)
    requires ValidEntries(batch) && buffer.Length >= 256 && |batch| * 256 <= buffer.Length
    modifies buffer
    ensures CString(buffer[..]) == Formatted(batch, t, buffer.Length)
    ensures |CString(buffer[..])| <= 165 * |batch|
  {
    hide Line, CString, Lines, ValidEntry;
    LinesBound(batch, t);
    var offset: nat := 0;
    ghost var text := "";
    buffer[0] := '\0';
    var i := 0;
    FirstLines(batch, t);
    while i < |batch| && offset < buffer.Length - 256
      invariant 0 <= i <= |batch| && offset <= 165 * i
      invariant buffer.Length == 256 ==> i == 0
      invariant offset < buffer.Length && buffer[..offset] == text
      invariant text == Lines(batch[..i], t) && '\0' !in text
    {
      LineBound(batch[i], t);
      LinesSnoc(batch, i, t);
      var len := Snprintf(buffer, offset, Line(batch[i], t));
      text := text + Line(batch[i], t);
      offset := offset + len;
      i := i + 1;
    }
    Terminate(buffer, offset, text);
    assert buffer.Length > 256 ==> i == |batch|;
  }

  lemma {:induction false} FirstLines(batch: seq<CsvEntry>, t: CsvType)
    ensures Lines(batch[..0], t) == "" && batch[..|batch|] == batch
  {
  }

  lemma {:induction false} LinesSnoc(batch: seq<CsvEntry>, i: nat, t: CsvType)
    requires i < |batch|
    ensures Lines(batch[..i + 1], t) == Lines(batch[..i], t) + Line(batch[i], t)
  {
    assert batch[..i + 1][..i] == batch[..i];
  }
}
