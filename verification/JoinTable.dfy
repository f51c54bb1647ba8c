// Filling the record table: binary search for the record, then the columns of
// the row's file type. The last row that supplies a column wins.
module JoinTable {
  import opened Wrappers
  import opened CsvText
  import opened CsvParse
  import opened CsvJoin

  /** `record_t`: a sequence number and twenty timestamp texts, of which twelve are used. */
  datatype Record = Record(seqNum: nat, timestamps: seq<string>)

  /** A matching row with the type of the file it stands in. */
  datatype Source = Source(row: Row, fileType: FileType)

  /** `safe_strncpy(dest, src, 32)`. */
  function Copy31(s: string): (r: string)
    ensures r <= s && |r| <= 31 && (|s| > 31 ==> |r| == 31) && (|s| <= 31 ==> r == s)
  {
    if |s| <= 31 then s else s[..31]
  }

  function NullRecord(q: nat): Record {
    Record(q, seq(20, _ => "NULL"))
  }

  /** Columns cols[..n] overwritten from the row's fields. */
  function FillColumns(ts: seq<string>, cols: seq<nat>, fields: seq<string>, n: nat): (r: seq<string>)
    requires |ts| == 20 && n <= |cols| && (forall i :: 0 <= i < |cols| ==> cols[i] < 12) && |fields| >= 3 + |cols|
    ensures |r| == 20
  {
    if n == 0 then ts else FillColumns(ts, cols, fields, n - 1)[cols[n - 1] := Copy31(fields[2 + n])]
  }

  /** The effect of one row on the record with its sequence number. */
  function Absorb(ts: seq<string>, src: Source): (r: seq<string>)
    requires |ts| == 20
    ensures |r| == 20
  {
    var cols := Supplies(src.fileType);
    if |src.row.fields| >= 3 + |cols| then FillColumns(ts, cols, src.row.fields, |cols|) else ts
  }

  /** The record of q after the given rows, in order. */
  function RecordAfter(sources: seq<Source>, q: nat): (r: Record)
    ensures |r.timestamps| == 20 && r.seqNum == q
  {
    if sources == [] then NullRecord(q)
    else
      var r, src := RecordAfter(sources[..|sources| - 1], q), sources[|sources| - 1];
      if src.row.seqNum == q then Record(q, Absorb(r.timestamps, src)) else r
  }

  /** `find_record_by_seq`: binary search in the ascending table. */
  method FindRecordBySeq(records: array<Record>, q: nat) returns (index: int)
    requires records.Length < 0x8000_0000
    requires forall i, j :: 0 <= i < j < records.Length ==> records[i].seqNum < records[j].seqNum
    ensures index == -1 || 0 <= index < records.Length
    ensures index >= 0 ==> records[index].seqNum == q
    ensures index == -1 ==> forall i :: 0 <= i < records.Length ==> records[i].seqNum != q
  {
    var left, right := 0, records.Length - 1;
    while left <= right
      invariant 0 <= left && right < records.Length
      invariant forall i :: 0 <= i < records.Length && (i < left || i > right) ==> records[i].seqNum != q
      decreases right - left
    {
      var mid := left + (right - left) / 2;
      if records[mid].seqNum == q {
        return mid;
      } else if records[mid].seqNum < q {
        left := mid + 1;
      } else {
        right := mid - 1;
      }
    }
    return -1;
  }

  /** The table holds, for each key, its record after the rows seen so far. */
  ghost predicate TableAfter(records: seq<Record>, keys: seq<int>, sources: seq<Source>) {
    && |records| == |keys|
    && forall i :: 0 <= i < |keys| ==> keys[i] >= 0 && records[i] == RecordAfter(sources, keys[i])
  }

  /** Storing a row's columns, one copy at a time. */
  method StoreColumns(records: array<Record>, index: nat, src: Source)
    requires index < records.Length && |records[index].timestamps| == 20
    requires |src.row.fields| >= 3 + |Supplies(src.fileType)|
    modifies records
    ensures records[..] == old(records[..])
      [index := Record(old(records[index].seqNum), Absorb(old(records[index].timestamps), src))]
  {
    var cols := Supplies(src.fileType);
    ghost var ts := records[index].timestamps;
    for i := 0 to |cols|
      invariant records[index].seqNum == old(records[index].seqNum)
      invariant records[index].timestamps == FillColumns(ts, cols, src.row.fields, i)
      invariant forall j :: 0 <= j < records.Length && j != index ==> records[j] == old(records[j])
    {
      var r := records[index];
      records[index] := Record(r.seqNum, r.timestamps[cols[i] := Copy31(src.row.fields[3 + i])]);
    }
  }

  function Tagged(rows: seq<Row>, ft: FileType): (s: seq<Source>)
    ensures |s| == |rows|
  {
    seq(|rows|, i requires 0 <= i < |rows| => Source(rows[i], ft))
  }

  lemma {:induction false} RecordAfterSnoc(sources: seq<Source>, src: Source, q: nat)
    ensures RecordAfter(sources + [src], q) ==
      if src.row.seqNum == q then Record(q, Absorb(RecordAfter(sources, q).timestamps, src))
      else RecordAfter(sources, q)
  {
    assert (sources + [src])[..|sources|] == sources;
  }

  /** One matching row applied to the table. */
  method PopulateRow(records: array<Record>, src: Source, ghost keys: seq<int>, ghost done: seq<Source>)
    requires records.Length < 0x8000_0000 && StrictlyAscending(keys) && TableAfter(records[..], keys, done)
    modifies records
    ensures TableAfter(records[..], keys, done + [src])
  {
    hide RecordAfter, Absorb, Supplies;
    forall q: nat ensures RecordAfter(done + [src], q) ==
      if src.row.seqNum == q then Record(q, Absorb(RecordAfter(done, q).timestamps, src)) else RecordAfter(done, q)
    {
      RecordAfterSnoc(done, src, q);
    }
    assert forall i :: 0 <= i < records.Length ==> records[i] == RecordAfter(done, keys[i]);
    var index := FindRecordBySeq(records, src.row.seqNum);
    if index == -1 { return; }
    if |src.row.fields| >= 3 + |Supplies(src.fileType)| {
      StoreColumns(records, index, src);
    } else {
      ShortRowIgnored(records[index].timestamps, src);
    }
  }

  lemma {:induction false} ShortRowIgnored(ts: seq<string>, src: Source)
    requires |ts| == 20 && |src.row.fields| < 3 + |Supplies(src.fileType)|
    ensures Absorb(ts, src) == ts
  {
  }

  /** `populate_timestamps_from_file`. */
  method PopulateFromFile(records: array<Record>, file: File, ip: string, port: nat,
                          ghost keys: seq<int>, ghost done: seq<Source>)
    requires records.Length < 0x8000_0000 && StrictlyAscending(keys) && TableAfter(records[..], keys, done)
    modifies records
    ensures TableAfter(records[..], keys, done + Tagged(MatchingRows(file.text, ip, port), file.fileType))
  {
    hide TableAfter, RowOf, RowsOf, StrictlyAscending;
    var lines := ReadLines(file.text);
    ReadLinesFit(file.text);
    ghost var rows: seq<Row> := [];
    NoRowsYet(lines, ip, port);
    assert done + Tagged([], file.fileType) == done;
    var n := 1;
    while n < |lines|
      invariant 1 <= n && (lines == [] || n <= |lines|)
      invariant rows == if lines == [] then [] else RowsOf(lines[1..n], ip, port)
      invariant TableAfter(records[..], keys, done + Tagged(rows, file.fileType))
    {
      var row := ParseRow(lines[n], ip, port);
      RowsSnoc(lines, n, ip, port);
      if row.Some? {
        PopulateRow(records, Source(row.value, file.fileType), keys, done + Tagged(rows, file.fileType));
        assert done + Tagged(rows + [row.value], file.fileType)
            == done + Tagged(rows, file.fileType) + [Source(row.value, file.fileType)];
        rows := rows + [row.value];
      }
      n := n + 1;
    }
    assert lines != [] ==> lines[1..n] == lines[1..];
  }

  /** All matching rows, file after file. */
  function AllSources(files: seq<File>, ip: string, port: nat): seq<Source> {
    if files == [] then []
    else
      var last := files[|files| - 1];
      AllSources(files[..|files| - 1], ip, port) + Tagged(MatchingRows(last.text, ip, port), last.fileType)
  }

  /** The relational join: one record per shared sequence number, ascending, columns from the last suppliers. */
  ghost predicate IsJoin(files: seq<File>, ip: string, port: nat, records: seq<Record>) {
    && (forall i, j :: 0 <= i < j < |records| ==> records[i].seqNum < records[j].seqNum)
    && (forall q: nat :: InEvery(files, ip, port, q) <==> exists i :: 0 <= i < |records| && records[i].seqNum == q)
    && (forall i :: 0 <= i < |records| ==> |records[i].timestamps| == 20)
    && (forall i, c :: 0 <= i < |records| && 0 <= c < 20 ==>
          records[i].timestamps[c] == LastSupply(AllSources(files, ip, port), records[i].seqNum, c))
  }

  /** Whether a row fills column c of record q. */
  predicate SuppliesColumn(src: Source, q: nat, c: nat) {
    && src.row.seqNum == q && c in Supplies(src.fileType)
    && |src.row.fields| >= 3 + |Supplies(src.fileType)|
  }

  /** The value of column c for q: from the last row that fills it, else NULL. */
  function LastSupply(sources: seq<Source>, q: nat, c: nat): string {
    if sources == [] then "NULL"
    else
      var src := sources[|sources| - 1];
      if SuppliesColumn(src, q, c) then
        var i := IndexOf(Supplies(src.fileType), c);
        if 3 + i < |src.row.fields| then Copy31(src.row.fields[3 + i]) else "NULL"
      else LastSupply(sources[..|sources| - 1], q, c)
  }

  lemma {:induction false} IndexOfColumn(cols: seq<nat>, i: nat)
    requires i < |cols| && forall j, k :: 0 <= j < k < |cols| ==> cols[j] != cols[k]
    ensures IndexOf(cols, cols[i]) == i
  {
    if i > 0 {
      IndexOfColumn(cols[1..], i - 1);
    }
  }

  lemma {:induction false} FillColumnsAt(ts: seq<string>, cols: seq<nat>, fields: seq<string>, n: nat, c: nat)
    requires |ts| == 20 && n <= |cols| && |fields| >= 3 + |cols| && c < 20
    requires forall i :: 0 <= i < |cols| ==> cols[i] < 12
    requires forall j, k :: 0 <= j < k < |cols| ==> cols[j] != cols[k]
    ensures (exists i :: 0 <= i < n && cols[i] == c) ==>
      && 3 + IndexOf(cols, c) < |fields|
      && FillColumns(ts, cols, fields, n)[c] == Copy31(fields[3 + IndexOf(cols, c)])
    ensures (forall i :: 0 <= i < n ==> cols[i] != c) ==> FillColumns(ts, cols, fields, n)[c] == ts[c]
  {
    hide Copy31;
    if n > 0 {
      FillColumnsAt(ts, cols, fields, n - 1, c);
      IndexOfColumn(cols, n - 1);
    }
  }

  /** Folding the rows into the table leaves the last supplier's value in every column. */
  lemma {:induction false} ColumnHoldsLastSupply(sources: seq<Source>, q: nat, c: nat)
    requires c < 20
    ensures RecordAfter(sources, q).timestamps[c] == LastSupply(sources, q, c)
  {
    if sources != [] {
      var n := |sources| - 1;
      var src := sources[n];
      ColumnHoldsLastSupply(sources[..n], q, c);
      AbsorbAt(RecordAfter(sources[..n], q).timestamps, src, c);
      hide Absorb, Supplies, IndexOf, Copy31;
    }
  }

  lemma {:induction false} AbsorbAt(ts: seq<string>, src: Source, c: nat)
    requires |ts| == 20 && c < 20
    ensures SuppliesColumn(src, src.row.seqNum, c) ==>
      && 3 + IndexOf(Supplies(src.fileType), c) < |src.row.fields|
      && Absorb(ts, src)[c] == Copy31(src.row.fields[3 + IndexOf(Supplies(src.fileType), c)])
    ensures !SuppliesColumn(src, src.row.seqNum, c) ==> Absorb(ts, src)[c] == ts[c]
  {
    hide Supplies, FillColumns, Copy31, IndexOf;
    if |src.row.fields| >= 3 + |Supplies(src.fileType)| {
      FillColumnsAt(ts, Supplies(src.fileType), src.row.fields, |Supplies(src.fileType)|, c);
    }
  }

  lemma {:induction false} CommonAreNat(files: seq<File>, ip: string, port: nat, common: seq<int>)
    requires forall q :: q in common <==> InEvery(files, ip, port, q)
    ensures forall i :: 0 <= i < |common| ==> common[i] >= 0
  {
    hide MatchingRows;
    forall i | 0 <= i < |common| ensures common[i] >= 0 {
      assert common[i] in common;
      assert InEvery(files, ip, port, common[i]);
      assert HasSeq(MatchingRows(files[0].text, ip, port), common[i]);
    }
  }

  /** `create_record_table`. */
  method CreateRecordTable(common: seq<int>) returns (records: array<Record>)
    requires forall i :: 0 <= i < |common| ==> common[i] >= 0
    ensures fresh(records) && TableAfter(records[..], common, [])
  {
    records := new Record[|common|];
    for i := 0 to |common|
      invariant forall j :: 0 <= j < i ==> records[j] == NullRecord(common[j])
    {
      records[i] := NullRecord(common[i]);
    }
  }

  lemma {:induction false} AllSourcesSnoc(files: seq<File>, i: nat, ip: string, port: nat)
    requires i < |files|
    ensures AllSources(files[..i + 1], ip, port)
         == AllSources(files[..i], ip, port) + Tagged(MatchingRows(files[i].text, ip, port), files[i].fileType)
  {
    hide MatchingRows;
    assert files[..i + 1][..i] == files[..i];
  }

  lemma {:induction false} TableIsJoin(files: seq<File>, ip: string, port: nat, records: seq<Record>, keys: seq<int>)
    requires StrictlyAscending(keys) && TableAfter(records, keys, AllSources(files, ip, port))
    requires forall q :: q in keys <==> InEvery(files, ip, port, q)
    ensures IsJoin(files, ip, port, records)
  {
    hide AllSources, InEvery, RecordAfter, LastSupply;
    forall q: nat ensures InEvery(files, ip, port, q) <==> exists i :: 0 <= i < |records| && records[i].seqNum == q {
      if q in keys {
        var i :| 0 <= i < |keys| && keys[i] == q;
        assert records[i].seqNum == q;
      }
    }
    forall i, c | 0 <= i < |records| && 0 <= c < 20
      ensures records[i].timestamps[c] == LastSupply(AllSources(files, ip, port), records[i].seqNum, c)
    {
      ColumnHoldsLastSupply(AllSources(files, ip, port), keys[i], c);
    }
  }

  /** `process_join_operation` up to the output: the record table is the relational join. */
  method ProcessJoin(files: seq<File>, ip: string, port: nat) returns (out: seq<Record>)
    requires files != [] ==> |MatchingRows(files[0].text, ip, port)| < 0x8000_0000
    ensures IsJoin(files, ip, port, out)
  {
    hide AllSources, MatchingRows, RecordAfter, InEvery, IsJoin, TableAfter, StrictlyAscending;
    var common := FindCommonSequences(files, ip, port);
    CommonAreNat(files, ip, port, common);
    var records := CreateRecordTable(common);
    NoSources(ip, port);
    assert files[..0] == [];
    assert records.Length == |common| by { TableLength(records[..], common, []); }
    for i := 0 to |files|
      invariant TableAfter(records[..], common, AllSources(files[..i], ip, port))
    {
      PopulateFromFile(records, files[i], ip, port, common, AllSources(files[..i], ip, port));
      AllSourcesSnoc(files, i, ip, port);
    }
    assert files[..|files|] == files;
    TableIsJoin(files, ip, port, records[..], common);
    out := records[..];
  }

  lemma {:induction false} NoSources(ip: string, port: nat)
    ensures AllSources([], ip, port) == []
  {
  }

  lemma {:induction false} TableLength(records: seq<Record>, keys: seq<int>, sources: seq<Source>)
    requires TableAfter(records, keys, sources)
    ensures |records| == |keys|
  {
  }

  /** The join is a function of the files: no two tables can both be it (columns 0 to 19). */
  lemma {:induction false} JoinIsUnique(files: seq<File>, ip: string, port: nat, a: seq<Record>, b: seq<Record>)
    requires IsJoin(files, ip, port, a) && IsJoin(files, ip, port, b)
    ensures a == b
  {
    hide AllSources, InEvery, LastSupply;
    var ka, kb := seq(|a|, i requires 0 <= i < |a| => a[i].seqNum), seq(|b|, i requires 0 <= i < |b| => b[i].seqNum);
    forall q ensures q in ka <==> q in kb {
      if q in ka {
        var i :| 0 <= i < |ka| && ka[i] == q;
        assert a[i].seqNum == q;
        assert InEvery(files, ip, port, q);
        var j :| 0 <= j < |b| && b[j].seqNum == q;
        assert kb[j] == q;
      }
      if q in kb {
        var i :| 0 <= i < |kb| && kb[i] == q;
        assert b[i].seqNum == q;
        assert InEvery(files, ip, port, q);
        var j :| 0 <= j < |a| && a[j].seqNum == q;
        assert ka[j] == q;
      }
    }
    SameAscendingKeys(ka, kb);
    forall i | 0 <= i < |a| ensures a[i] == b[i] {
      assert ka[i] == kb[i];
      assert a[i].timestamps == b[i].timestamps;
    }
  }

  lemma {:induction false} SameAscendingKeys(a: seq<int>, b: seq<int>)
    requires StrictlyAscending(a) && StrictlyAscending(b) && forall q :: q in a <==> q in b
    ensures a == b
  {
    assert b != [] ==> b[0] in b;
    if a != [] {
      assert a[0] in a;
      assert a[0] in b && b != [];
      assert b[0] in b;
      assert b[0] in a;
      assert a[0] == b[0];
      var a', b' := a[1..], b[1..];
      forall q ensures q in a' <==> q in b' {
        assert q in a' <==> q in a && q != a[0];
        assert q in b' <==> q in b && q != b[0];
      }
      SameAscendingKeys(a', b');
      assert a == [a[0]] + a' && b == [b[0]] + b';
    }
  }
}
