// Logger, splitter, join and printer composed: every logged nanosecond comes
// back out of the joined row, in its own column.
module EndToEnd {
  import opened Wrappers
  import opened Bits
  import opened CsvText
  import opened CsvLog
  import opened CsvParse
  import opened CsvRoundTrip
  import opened CsvJoin
  import opened JoinTable
  import opened JoinOutput

  /** One log file as its writer produced it. */
  datatype Log = Log(csvType: CsvType, entries: seq<CsvEntry>)

  // ---- File types are recognised from the header.

  /** `strstr(s, p) != NULL`. */
  predicate ContainsText(s: string, p: string) {
    p <= s || (s != "" && ContainsText(s[1..], p))
  }

  /** `detect_file_type` on the chomped first line. */
  function DetectFileType(line: string): FileType {
    if ContainsText(line, HeaderColumns(ClientMainRoundtrip)) then ClientRoundtripMainFile
    else if ContainsText(line, HeaderColumns(ServerMainRoundtrip)) then ServerRoundtripMainFile
    else if ContainsText(line, HeaderColumns(ServerMainOneway)) then ServerOnewayMainFile
    else if ContainsText(line, HeaderColumns(ClientMainOneway)) then ClientOnewayMainFile
    else if ContainsText(line, HeaderColumns(ClientTx)) then ClientOnewayTxFile
    else if ContainsText(line, HeaderColumns(ServerTx)) then ServerRoundtripTxFile
    else UnknownFile
  }

  /** The file type each log is meant to have; both client TX logs carry the one-way header. */
  function FileTypeOf(t: CsvType): FileType {
    match t
    case ClientMainOneway => ClientOnewayMainFile
    case ClientMainRoundtrip => ClientRoundtripMainFile
    case ClientTx => ClientOnewayTxFile
    case ServerMainOneway => ServerOnewayMainFile
    case ServerMainRoundtrip => ServerRoundtripMainFile
    case ServerTx => ServerRoundtripTxFile
  }

  lemma {:induction false} LongerNotContained(s: string, p: string)
    requires |p| > |s|
    ensures !ContainsText(s, p)
  {
    if s != "" { LongerNotContained(s[1..], p); }
  }

  lemma {:induction false} SameLengthContained(s: string, p: string)
    requires |p| == |s|
    ensures ContainsText(s, p) <==> p == s
  {
    if s != "" { LongerNotContained(s[1..], p); }
    if p <= s { assert p == s[..|p|] == s; }
  }

  lemma {:induction false} StampColumnLengths()
    ensures |StampColumns(ClientMainRoundtrip)| == 91 && |StampColumns(ServerMainRoundtrip)| == 55
    ensures |StampColumns(ServerMainOneway)| == 41
    ensures |StampColumns(ClientMainOneway)| == |StampColumns(ClientTx)| == |StampColumns(ServerTx)| == 14
  {
  }

  lemma {:induction false} TxColumnsDiffer()
    ensures StampColumns(ClientMainOneway) != StampColumns(ClientTx)
    ensures StampColumns(ClientMainOneway) != StampColumns(ServerTx)
    ensures StampColumns(ClientTx) != StampColumns(ServerTx)
  {
    assert StampColumns(ClientMainOneway)[1] == 'c' && StampColumns(ServerTx)[1] == 's';
    assert StampColumns(ClientTx)[1] == 'c';
    assert StampColumns(ClientMainOneway)[5] == 'a' && StampColumns(ClientTx)[5] == 'k';
  }

  lemma {:induction false} HeaderIn(t: CsvType, u: CsvType)
    ensures |StampColumns(u)| > |StampColumns(t)| ==> !ContainsText(HeaderColumns(t), HeaderColumns(u))
    ensures |StampColumns(u)| == |StampColumns(t)| ==>
      (ContainsText(HeaderColumns(t), HeaderColumns(u)) <==> StampColumns(u) == StampColumns(t))
  {
    hide ContainsText, StampColumns;
    var s, p := HeaderColumns(t), HeaderColumns(u);
    if |p| > |s| {
      LongerNotContained(s, p);
    } else if |p| == |s| {
      SameLengthContained(s, p);
      assert s[31..] == StampColumns(t) && p[31..] == StampColumns(u);
    }
  }

  /** Every header the logger writes is recognised as its own type. */
  lemma {:induction false} HeaderDetected(t: CsvType)
    ensures DetectFileType(HeaderColumns(t)) == FileTypeOf(t)
  {
    hide ContainsText, StampColumns, HeaderColumns;
    StampColumnLengths();
    TxColumnsDiffer();
    HeaderIn(t, ClientMainRoundtrip);
    HeaderIn(t, ServerMainRoundtrip);
    HeaderIn(t, ServerMainOneway);
    HeaderIn(t, ClientMainOneway);
    HeaderIn(t, ClientTx);
    HeaderIn(t, ServerTx);
  }

  /** The input file the join sees for a log. */
  function FileOf(log: Log): File {
    var text := LogText(log.entries, log.csvType);
    File(text, if ReadLines(text) == [] then UnknownFile else DetectFileType(Chomp(ReadLines(text)[0])))
  }

  ghost predicate AllLogged(es: seq<CsvEntry>) {
    forall i :: 0 <= i < |es| ==> LoggedEntry(es[i])
  }

  lemma {:induction false} FileOfLog(log: Log)
    requires AllLogged(log.entries)
    ensures FileOf(log) == File(LogText(log.entries, log.csvType), FileTypeOf(log.csvType))
    ensures ReadLines(LogText(log.entries, log.csvType)) == [Header(log.csvType)] + LineList(log.entries, log.csvType)
  {
    hide LogText, ReadLines, HeaderColumns, DetectFileType, FileTypeOf, Chomp, LoggedEntry, OneLine, LineList;
    ReadLogText(log.entries, log.csvType);
    HeaderIsOneLine(log.csvType);
    HeaderChomps(log.csvType);
    HeaderDetected(log.csvType);
  }

  lemma {:induction false} HeaderChomps(t: CsvType)
    ensures Chomp(Header(t)) == HeaderColumns(t)
  {
    hide HeaderColumns, Chomp;
    HeaderIsOneLine(t);
    EndingChomped(HeaderColumns(t), "\n");
  }

  // ---- The rows a log contributes.

  predicate IsTarget(e: CsvEntry, ip: string, port: nat) {
    e.srcIp == ip && e.srcPort == port
  }

  function EntryRow(e: CsvEntry, t: CsvType): Row {
    Row(e.seqNum, LineFields(e, t))
  }

  /** The rows of the entries that match the target, in order. */
  function TargetRows(es: seq<CsvEntry>, t: CsvType, ip: string, port: nat): seq<Row> {
    if es == [] then []
    else
      var rows, e := TargetRows(es[..|es| - 1], t, ip, port), es[|es| - 1];
      if IsTarget(e, ip, port) then rows + [EntryRow(e, t)] else rows
  }

  lemma {:induction false} LoggedRow(e: CsvEntry, t: CsvType, ip: string, port: nat)
    requires LoggedEntry(e) && port < 0x1_0000
    ensures RowOf(Line(e, t), ip, port) == if IsTarget(e, ip, port) then Some(EntryRow(e, t)) else None
  {
    hide LineFields, Line, Chomp, Fields, MatchRow, LoggedEntry;
    LineParsesBack(e, t);
    LineNotEmpty(e, t);
    LoggedFieldsMatch(e, t, ip, port);
  }

  lemma {:induction false} LineNotEmpty(e: CsvEntry, t: CsvType)
    requires LoggedEntry(e)
    ensures Chomp(Line(e, t)) != ""
  {
    hide LineFields, Joined, Chomp, PlainFields;
    LineFieldsPlain(e, t);
    JoinedPlain(LineFields(e, t));
    EndingChomped(Joined(LineFields(e, t)), "\n");
    JoinedNotEmpty(LineFields(e, t));
  }

  lemma {:induction false} JoinedNotEmpty(fields: seq<string>)
    requires |fields| >= 2
    ensures Joined(fields) != ""
  {
  }

  lemma {:induction false} LoggedFieldsMatch(e: CsvEntry, t: CsvType, ip: string, port: nat)
    requires LoggedEntry(e) && port < 0x1_0000
    ensures MatchRow(LineFields(e, t), ip, port) == if IsTarget(e, ip, port) then Some(EntryRow(e, t)) else None
  {
    hide Strtol, TimestampText, Digits;
    StrtolOfPrinted(e.srcPort);
    StrtolOfPrinted(e.seqNum);
  }

  lemma {:induction false} RowsOfLog(es: seq<CsvEntry>, t: CsvType, ip: string, port: nat)
    requires AllLogged(es) && port < 0x1_0000
    ensures RowsOf(LineList(es, t), ip, port) == TargetRows(es, t, ip, port)
  {
    hide RowOf, Line, LoggedEntry, IsTarget, EntryRow;
    if es != [] {
      var n := |es| - 1;
      assert LineList(es, t)[..n] == LineList(es[..n], t);
      RowsOfLog(es[..n], t, ip, port);
      LoggedRow(es[n], t, ip, port);
    }
  }

  /** The join reads from a log file exactly the rows of its matching entries. */
  lemma {:induction false} MatchingRowsOfLog(log: Log, ip: string, port: nat)
    requires AllLogged(log.entries) && port < 0x1_0000
    ensures MatchingRows(FileOf(log).text, ip, port) == TargetRows(log.entries, log.csvType, ip, port)
  {
    hide ReadLines, RowsOf, TargetRows, LogText, AllLogged, LineList, FileTypeOf, Header;
    FileOfLog(log);
    RowsOfLog(log.entries, log.csvType, ip, port);
    assert ([Header(log.csvType)] + LineList(log.entries, log.csvType))[1..] == LineList(log.entries, log.csvType);
  }

  lemma {:induction false} TargetRowsHold(es: seq<CsvEntry>, t: CsvType, ip: string, port: nat, row: Row)
    ensures row in TargetRows(es, t, ip, port) <==>
      exists k :: 0 <= k < |es| && IsTarget(es[k], ip, port) && EntryRow(es[k], t) == row
  {
    hide EntryRow, IsTarget;
    if es != [] {
      var n := |es| - 1;
      TargetRowsHold(es[..n], t, ip, port, row);
      if exists k :: 0 <= k < n && IsTarget(es[k], ip, port) && EntryRow(es[k], t) == row {
        var k :| 0 <= k < n && IsTarget(es[k], ip, port) && EntryRow(es[k], t) == row;
        assert es[..n][k] == es[k];
      }
    }
  }

  // ---- The join of log files.

  function FilesOf(logs: seq<Log>): (files: seq<File>)
    ensures |files| == |logs|
  {
    seq(|logs|, f requires 0 <= f < |logs| => FileOf(logs[f]))
  }

  ghost predicate HasEntry(log: Log, ip: string, port: nat, q: int) {
    exists k :: 0 <= k < |log.entries| && IsTarget(log.entries[k], ip, port) && log.entries[k].seqNum == q
  }

  ghost predicate GoodLogs(logs: seq<Log>) {
    forall f :: 0 <= f < |logs| ==> AllLogged(logs[f].entries)
  }

  lemma {:induction false} SeqInLog(log: Log, ip: string, port: nat, q: int)
    requires AllLogged(log.entries) && port < 0x1_0000
    ensures HasSeq(MatchingRows(FileOf(log).text, ip, port), q) <==> HasEntry(log, ip, port, q)
  {
    hide FileOf, MatchingRows, TargetRows, AllLogged, IsTarget, LineFields;
    MatchingRowsOfLog(log, ip, port);
    var rows := TargetRows(log.entries, log.csvType, ip, port);
    if HasSeq(rows, q) {
      var i :| 0 <= i < |rows| && rows[i].seqNum == q;
      TargetRowsHold(log.entries, log.csvType, ip, port, rows[i]);
    }
    if HasEntry(log, ip, port, q) {
      var k :| 0 <= k < |log.entries| && IsTarget(log.entries[k], ip, port) && log.entries[k].seqNum == q;
      TargetRowsHold(log.entries, log.csvType, ip, port, EntryRow(log.entries[k], log.csvType));
    }
  }

  /** The joined rows are exactly the sequence numbers every log holds for the target. */
  lemma {:induction false} JoinedKeysAreShared(logs: seq<Log>, ip: string, port: nat, records: seq<Record>, q: nat)
    requires GoodLogs(logs) && port < 0x1_0000 && IsJoin(FilesOf(logs), ip, port, records)
    ensures (exists i :: 0 <= i < |records| && records[i].seqNum == q)
      <==> logs != [] && forall f :: 0 <= f < |logs| ==> HasEntry(logs[f], ip, port, q)
  {
    hide FileOf, MatchingRows, HasEntry, HasSeq, AllLogged, AllSources, LastSupply;
    forall f | 0 <= f < |logs|
      ensures HasSeq(MatchingRows(FilesOf(logs)[f].text, ip, port), q) <==> HasEntry(logs[f], ip, port, q)
    {
      SeqInLog(logs[f], ip, port, q);
    }
    assert InEvery(FilesOf(logs), ip, port, q) <==> exists i :: 0 <= i < |records| && records[i].seqNum == q;
  }

  /** The value a supplying row gives a column. */
  function ValueFrom(src: Source, c: nat): string {
    var i := IndexOf(Supplies(src.fileType), c);
    if 3 + i < |src.row.fields| then Copy31(src.row.fields[3 + i]) else "NULL"
  }

  lemma {:induction false} LastSupplyIs(sources: seq<Source>, q: nat, c: nat, v: string, j: nat)
    requires j < |sources| && SuppliesColumn(sources[j], q, c)
    requires forall i :: 0 <= i < |sources| && SuppliesColumn(sources[i], q, c) ==> ValueFrom(sources[i], c) == v
    ensures LastSupply(sources, q, c) == v
  {
    hide SuppliesColumn, IndexOf, Copy31, Supplies;
    var n := |sources| - 1;
    if !SuppliesColumn(sources[n], q, c) {
      LastSupplyIs(sources[..n], q, c, v, j);
    }
  }

  /** Every row of the join comes from some file, tagged with that file's type; and conversely. */
  lemma {:induction false} SourcesAreRows(files: seq<File>, ip: string, port: nat, s: Source)
    ensures s in AllSources(files, ip, port) <==>
      exists f :: 0 <= f < |files| && s.fileType == files[f].fileType && s.row in MatchingRows(files[f].text, ip, port)
  {
    hide MatchingRows;
    if files != [] {
      var n := |files| - 1;
      SourcesAreRows(files[..n], ip, port, s);
      TaggedHolds(MatchingRows(files[n].text, ip, port), files[n].fileType, s);
      if exists f :: 0 <= f < n && s.fileType == files[f].fileType && s.row in MatchingRows(files[f].text, ip, port) {
        var f :| 0 <= f < n && s.fileType == files[f].fileType && s.row in MatchingRows(files[f].text, ip, port);
        assert files[..n][f] == files[f];
      }
    }
  }

  lemma {:induction false} TaggedHolds(rows: seq<Row>, ft: FileType, s: Source)
    ensures s in Tagged(rows, ft) <==> s.fileType == ft && s.row in rows
  {
    var tagged := Tagged(rows, ft);
    if s in tagged {
      var i :| 0 <= i < |tagged| && tagged[i] == s;
      assert rows[i] == s.row;
    }
    if s.fileType == ft && s.row in rows {
      var i :| 0 <= i < |rows| && rows[i] == s.row;
      assert tagged[i] == s;
    }
  }

  ghost predicate EntrySource(log: Log, k: nat, ip: string, port: nat, s: Source)
    requires k < |log.entries|
  {
    && IsTarget(log.entries[k], ip, port) && EntryRow(log.entries[k], log.csvType) == s.row
    && s.fileType == FileTypeOf(log.csvType)
  }

  /** A source of the join of logs is a matching entry of one of them. */
  lemma {:induction false} SourceIsEntry(logs: seq<Log>, ip: string, port: nat, s: Source) returns (f: nat, k: nat)
    requires GoodLogs(logs) && port < 0x1_0000 && s in AllSources(FilesOf(logs), ip, port)
    ensures f < |logs| && k < |logs[f].entries| && EntrySource(logs[f], k, ip, port, s)
  {
    hide FileOf, MatchingRows, AllSources, AllLogged, TargetRows, EntryRow, IsTarget, FileTypeOf;
    var files := FilesOf(logs);
    SourcesAreRows(files, ip, port, s);
    f :| 0 <= f < |files| && s.fileType == files[f].fileType && s.row in MatchingRows(files[f].text, ip, port);
    var log := logs[f];
    FileOfLog(log);
    MatchingRowsOfLog(log, ip, port);
    TargetRowsHold(log.entries, log.csvType, ip, port, s.row);
    k :| 0 <= k < |log.entries| && IsTarget(log.entries[k], ip, port) && EntryRow(log.entries[k], log.csvType) == s.row;
  }

  lemma {:induction false} EntryIsSource(logs: seq<Log>, ip: string, port: nat, f: nat, k: nat)
    requires GoodLogs(logs) && port < 0x1_0000
    requires f < |logs| && k < |logs[f].entries| && IsTarget(logs[f].entries[k], ip, port)
    ensures Source(EntryRow(logs[f].entries[k], logs[f].csvType), FileTypeOf(logs[f].csvType))
      in AllSources(FilesOf(logs), ip, port)
  {
    hide FileOf, MatchingRows, AllSources, AllLogged, TargetRows, EntryRow, IsTarget, FileTypeOf;
    var log, files := logs[f], FilesOf(logs);
    var s := Source(EntryRow(log.entries[k], log.csvType), FileTypeOf(log.csvType));
    FileOfLog(log);
    MatchingRowsOfLog(log, ip, port);
    TargetRowsHold(log.entries, log.csvType, ip, port, s.row);
    SourcesAreRows(files, ip, port, s);
    assert s.fileType == files[f].fileType && s.row in MatchingRows(files[f].text, ip, port);
  }

  // ---- Columns.

  /** The entry timestamp a record column is meant to hold. */
  function StampOfColumn(c: nat): nat
    requires c < 12
  {
    [0, 1, 2, 7, 8, 9, 10, 11, 3, 4, 5, 6][c]
  }

  /** What the join reads as the i-th supplied column is what the printer wrote as the i-th timestamp. */
  lemma {:induction false} ColumnsAgree(t: CsvType)
    ensures |Supplies(FileTypeOf(t))| == |PrintedStamps(t)|
    ensures forall i :: 0 <= i < |PrintedStamps(t)| ==> StampOfColumn(Supplies(FileTypeOf(t))[i]) == PrintedStamps(t)[i]
  {
  }

  lemma {:induction false} SuppliedIndex(cols: seq<nat>, c: nat)
    requires c in cols
    ensures IndexOf(cols, c) < |cols| && cols[IndexOf(cols, c)] == c
  {
    if cols[0] != c { SuppliedIndex(cols[1..], c); }
  }

  /** A matching entry's row supplies the printed text of the column's own timestamp. */
  lemma {:induction false} EntryValue(e: CsvEntry, t: CsvType, c: nat)
    requires LoggedEntry(e) && c in Supplies(FileTypeOf(t))
    ensures c < 12
    ensures SuppliesColumn(Source(EntryRow(e, t), FileTypeOf(t)), e.seqNum, c)
    ensures ValueFrom(Source(EntryRow(e, t), FileTypeOf(t)), c) == TimestampText(Stamp(e, StampOfColumn(c)))
  {
    hide TimestampText, Supplies, FileTypeOf, PrintedStamps, StampOfColumn, IndexOf, LoggedEntry, Digits;
    ColumnsAgree(t);
    var cols := Supplies(FileTypeOf(t));
    SuppliedIndex(cols, c);
    var i := IndexOf(cols, c);
    assert LineFields(e, t)[3 + i] == TimestampText(Stamp(e, PrintedStamps(t)[i]));
    StampShort(e, PrintedStamps(t)[i]);
  }

  lemma {:induction false} StampShort(e: CsvEntry, i: nat)
    requires LoggedEntry(e)
    ensures Stamp(e, i) < TWO_64 && |TimestampText(Stamp(e, i))| <= 21
  {
    hide TimestampText;
    TimestampTextShape(Stamp(e, i));
  }

  /** At most one matching entry per sequence number in a log. */
  ghost predicate DistinctTargets(log: Log, ip: string, port: nat) {
    forall i, j ::
      0 <= i < j < |log.entries| && IsTarget(log.entries[i], ip, port) && IsTarget(log.entries[j], ip, port)
      ==> log.entries[i].seqNum != log.entries[j].seqNum
  }

  /** Column c is filled by log f alone. */
  ghost predicate OnlySupplier(logs: seq<Log>, f: nat, c: nat)
    requires f < |logs|
  {
    && c in Supplies(FileTypeOf(logs[f].csvType))
    && forall g :: 0 <= g < |logs| && g != f ==> c !in Supplies(FileTypeOf(logs[g].csvType))
  }

  lemma {:induction false} OtherSourceAgrees(logs: seq<Log>, ip: string, port: nat, f: nat, k: nat, c: nat, s: Source)
    requires GoodLogs(logs) && port < 0x1_0000 && f < |logs| && k < |logs[f].entries|
    requires DistinctTargets(logs[f], ip, port) && OnlySupplier(logs, f, c)
    requires IsTarget(logs[f].entries[k], ip, port)
    requires s in AllSources(FilesOf(logs), ip, port) && SuppliesColumn(s, logs[f].entries[k].seqNum, c)
    ensures s == Source(EntryRow(logs[f].entries[k], logs[f].csvType), FileTypeOf(logs[f].csvType))
  {
    hide AllSources, FilesOf, GoodLogs, IsTarget, Supplies, FileTypeOf, LineFields;
    var g, j := SourceIsEntry(logs, ip, port, s);
  }

  /** In the join of log files, a column with one supplier holds that log's timestamp, as printed and to the
      nanosecond. */
  lemma {:induction false} TimestampJoined(logs: seq<Log>, ip: string, port: nat, records: seq<Record>,
                                           i: nat, f: nat, k: nat, c: nat)
    requires GoodLogs(logs) && port < 0x1_0000 && IsJoin(FilesOf(logs), ip, port, records) && i < |records|
    requires f < |logs| && k < |logs[f].entries| && DistinctTargets(logs[f], ip, port) && OnlySupplier(logs, f, c)
    requires IsTarget(logs[f].entries[k], ip, port) && logs[f].entries[k].seqNum == records[i].seqNum
    ensures c < 12 && |records[i].timestamps| == 20
    ensures var ns := Stamp(logs[f].entries[k], StampOfColumn(c));
      records[i].timestamps[c] == TimestampText(ns) && TimestampNs(records[i].timestamps[c]) == ns
  {
    hide AllSources, FilesOf, IsTarget, Supplies, FileTypeOf, LineFields, EntryRow, ValueFrom, StampOfColumn, Stamp,
      DistinctTargets, OnlySupplier, InEvery, LastSupply, TimestampText, TimestampNs, LoggedEntry, SuppliesColumn;
    var e, t := logs[f].entries[k], logs[f].csvType;
    var own := Source(EntryRow(e, t), FileTypeOf(t));
    var sources := AllSources(FilesOf(logs), ip, port);
    SupplierHas(logs, f, c);
    EntryValue(e, t, c);
    EntryIsSource(logs, ip, port, f, k);
    var j :| 0 <= j < |sources| && sources[j] == own;
    forall m | 0 <= m < |sources| && SuppliesColumn(sources[m], e.seqNum, c)
      ensures ValueFrom(sources[m], c) == ValueFrom(own, c)
    {
      OtherSourceAgrees(logs, ip, port, f, k, c, sources[m]);
    }
    LastSupplyIs(sources, e.seqNum, c, ValueFrom(own, c), j);
    assert records[i].timestamps[c] == LastSupply(sources, records[i].seqNum, c);
    StampShort(e, StampOfColumn(c));
    PrintedTimestampParsesBack(Stamp(e, StampOfColumn(c)));
  }

  lemma {:induction false} SupplierHas(logs: seq<Log>, f: nat, c: nat)
    requires f < |logs| && OnlySupplier(logs, f, c)
    ensures c in Supplies(FileTypeOf(logs[f].csvType))
  {
  }

  // ---- The printed rows.

  lemma {:induction false} NullIsPlain()
    ensures PlainField("NULL")
  {
  }

  lemma {:induction false} SupplyIsPlain(logs: seq<Log>, ip: string, port: nat, sources: seq<Source>, q: nat, c: nat)
    requires GoodLogs(logs) && port < 0x1_0000 && c < 12
    requires forall i :: 0 <= i < |sources| ==> sources[i] in AllSources(FilesOf(logs), ip, port)
    ensures PlainField(LastSupply(sources, q, c))
  {
    hide PlainField, AllSources, SuppliesColumn, FilesOf, GoodLogs, IndexOf, Supplies, Copy31;
    NullIsPlain();
    if sources != [] {
      var n := |sources| - 1;
      SupplyIsPlain(logs, ip, port, sources[..n], q, c);
      if SuppliesColumn(sources[n], q, c) {
        SourceValuePlain(logs, ip, port, sources[n], q, c);
      }
    }
  }

  lemma {:induction false} SourceValuePlain(logs: seq<Log>, ip: string, port: nat, s: Source, q: nat, c: nat)
    requires GoodLogs(logs) && port < 0x1_0000 && c < 12
    requires s in AllSources(FilesOf(logs), ip, port) && SuppliesColumn(s, q, c)
    ensures PlainField(ValueFrom(s, c))
  {
    hide PlainField, AllSources, FilesOf, ValueFrom, Supplies, LoggedEntry, IsTarget, FileTypeOf, LineFields,
      StampOfColumn, TimestampText, Stamp;
    var f, k := SourceIsEntry(logs, ip, port, s);
    var e := logs[f].entries[k];
    EntryValue(e, logs[f].csvType, c);
    StampShort(e, StampOfColumn(c));
    TimestampPlain(Stamp(e, StampOfColumn(c)));
  }

  lemma {:induction false} DeltaTextPlain(a: nat, b: nat)
    ensures PlainField(DeltaText(CalculateDelta(a, b)))
  {
    hide PlainField, Digits, ZeroPadded, AllDigits, Value, NineDigits;
    NullIsPlain();
    var d := CalculateDelta(a, b);
    if d.valid {
      ThreeDigits(d.fracNs);
      NoDotInDigits(Digits(d.wholeUs));
      NoDotInDigits(ZeroPadded(d.fracNs, 3));
      NumberTextPlain(DeltaText(d));
    }
  }

  lemma {:induction false} OutputFieldsPlain(logs: seq<Log>, ip: string, port: nat, records: seq<Record>, i: nat,
                                             mode: Mode, target: Target)
    requires GoodLogs(logs) && port < 0x1_0000 && AddressText(ip)
    requires IsJoin(FilesOf(logs), ip, port, records) && i < |records|
    ensures |records[i].timestamps| == 20
    ensures PlainFields(OutputFields(records[i], ip, port, mode, target))
  {
    hide PlainField, AllSources, FilesOf, GoodLogs, InEvery, LastSupply, Digits, DeltaText, CalculateDelta, TimestampNs,
      OutputColumns, ModeDeltas;
    var r := records[i];
    NumberTextPlain(ip);
    DigitsPlain(port);
    DigitsPlain(r.seqNum);
    var cols, defs := OutputColumns(mode, target), ModeDeltas(mode, target);
    forall j | 0 <= j < |cols| ensures PlainField(ColumnTexts(r, cols)[j]) {
      SupplyIsPlain(logs, ip, port, AllSources(FilesOf(logs), ip, port), r.seqNum, cols[j]);
      assert r.timestamps[cols[j]] == LastSupply(AllSources(FilesOf(logs), ip, port), r.seqNum, cols[j]);
    }
    forall j | 0 <= j < |defs| ensures PlainField(DeltaTexts(r, defs)[j]) {
      DeltaTextPlain(ColumnNs(r, defs[j].a), ColumnNs(r, defs[j].b));
    }
  }

  /** Printing a joined row and splitting it again gives back its fields, as many as the splitter's limit admits. */
  lemma {:induction false} OutputLineSplits(logs: seq<Log>, ip: string, port: nat, records: seq<Record>, i: nat,
                                            mode: Mode, target: Target, limit: nat)
    requires GoodLogs(logs) && port < 0x1_0000 && AddressText(ip)
    requires IsJoin(FilesOf(logs), ip, port, records) && i < |records|
    ensures |records[i].timestamps| == 20
    ensures Fields(OutputLine(records[i], ip, port, mode, target), limit)
      == FirstN(OutputFields(records[i], ip, port, mode, target), limit)
  {
    hide IsJoin, FilesOf, GoodLogs, PlainFields, Fields, Joined, KeyTexts, ColumnTexts, DeltaTexts;
    OutputFieldsPlain(logs, ip, port, records, i, mode, target);
    FieldsOfJoined(OutputFields(records[i], ip, port, mode, target), limit);
  }

  /** Log, split, join, print, split: output column j reads back as the logged nanoseconds of its own timestamp. */
  lemma {:induction false} LoggedNanosecondsSurvive(logs: seq<Log>, ip: string, port: nat, records: seq<Record>,
                                                    i: nat, f: nat, k: nat, mode: Mode, target: Target,
                                                    j: nat, limit: nat)
    requires GoodLogs(logs) && port < 0x1_0000 && AddressText(ip)
    requires IsJoin(FilesOf(logs), ip, port, records) && i < |records|
    requires f < |logs| && k < |logs[f].entries| && DistinctTargets(logs[f], ip, port)
    requires IsTarget(logs[f].entries[k], ip, port) && logs[f].entries[k].seqNum == records[i].seqNum
    requires j < |OutputColumns(mode, target)| && OnlySupplier(logs, f, OutputColumns(mode, target)[j])
    requires 3 + j < limit
    ensures |records[i].timestamps| == 20
    ensures var row := Fields(OutputLine(records[i], ip, port, mode, target), limit);
      && |row| > 3 + j
      && row[2] == Digits(records[i].seqNum)
      && TimestampNs(row[3 + j]) == Stamp(logs[f].entries[k], StampOfColumn(OutputColumns(mode, target)[j]))
  {
    hide IsJoin, FilesOf, GoodLogs, Fields, IsTarget, DistinctTargets, OnlySupplier, Stamp, StampOfColumn,
      OutputColumns, ModeDeltas, DeltaTexts, TimestampNs, TimestampText, AddressText, Digits, OutputLine;
    OutputLineSplits(logs, ip, port, records, i, mode, target, limit);
    TimestampJoined(logs, ip, port, records, i, f, k, OutputColumns(mode, target)[j]);
  }

  /** And a delta column whose ends are logged prints their exact difference, in microseconds with three decimals. */
  lemma {:induction false} DeltaColumnSurvives(logs: seq<Log>, ip: string, port: nat, records: seq<Record>, i: nat,
                                               mode: Mode, target: Target, j: nat, limit: nat)
    requires GoodLogs(logs) && port < 0x1_0000 && AddressText(ip)
    requires IsJoin(FilesOf(logs), ip, port, records) && i < |records| && j < |ModeDeltas(mode, target)|
    requires 3 + |OutputColumns(mode, target)| + j < limit
    ensures |records[i].timestamps| == 20
    ensures var row, d, n := Fields(OutputLine(records[i], ip, port, mode, target), limit), ModeDeltas(mode, target)[j],
          3 + |OutputColumns(mode, target)| + j;
      var a, b := ColumnNs(records[i], d.a), ColumnNs(records[i], d.b);
      && |row| > n
      && (row[n] == "NULL" <==> !(0 < a < b))
      && (0 < a < b && b - a < 4_294_967_296_000 ==> TimestampNs(row[n]) == (b - a) * 1_000_000)
  {
    hide IsJoin, FilesOf, GoodLogs, Fields, ModeDeltas, OutputColumns, ColumnTexts, TimestampNs, AddressText, Digits,
      OutputLine, ZeroPadded;
    OutputLineSplits(logs, ip, port, records, i, mode, target, limit);
    var d := ModeDeltas(mode, target)[j];
    var a, b := ColumnNs(records[i], d.a), ColumnNs(records[i], d.b);
    DeltaTextNull(a, b);
    if 0 < a < b && b - a < 4_294_967_296_000 { DeltaTextExact(a, b); }
  }

  lemma {:induction false} DeltaTextNull(a: nat, b: nat)
    ensures DeltaText(CalculateDelta(a, b)) == "NULL" <==> !(0 < a < b)
  {
    hide Digits, AllDigits;
    var d := CalculateDelta(a, b);
    NoDotInDigits(Digits(d.wholeUs));
    if d.valid { assert IsDigit(DeltaText(d)[0]); }
  }
}
