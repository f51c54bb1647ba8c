// The join of several log files on sequence number: which rows match, which
// sequence numbers every file has, and which row fills each column.
module CsvJoin {
  import opened Wrappers
  import opened Bits
  import opened CsvText
  import opened CsvParse
  import opened Sorting

  datatype FileType =
    | ClientOnewayMainFile | ClientOnewayTxFile | ClientRoundtripMainFile | ClientRoundtripTxFile
    | ServerOnewayMainFile | ServerRoundtripMainFile | ServerRoundtripTxFile | UnknownFile

  /** The record columns (FIELD_* indices 0..11) a file type fills from its fields 3, 4, ... */
  function Supplies(ft: FileType): (cols: seq<nat>)
    ensures forall i :: 0 <= i < |cols| ==> cols[i] < 12
    ensures forall i, j :: 0 <= i < j < |cols| ==> cols[i] != cols[j]
  {
    match ft
    case ClientOnewayMainFile => [1]
    case ClientOnewayTxFile => [2]
    case ClientRoundtripTxFile => [2]
    case ClientRoundtripMainFile => [0, 1, 8, 9, 10, 11]
    case ServerOnewayMainFile => [3, 4, 5]
    case ServerRoundtripMainFile => [3, 4, 5, 6]
    case ServerRoundtripTxFile => [7]
    case UnknownFile => []
  }

  /** An input file: its text and its detected type. */
  datatype File = File(text: string, fileType: FileType)

  /** A line that matches the target address and carries a valid sequence number. */
  datatype Row = Row(seqNum: nat, fields: seq<string>)

  /** `validate_record_match` and `extract_sequence_number` on the fields of a line. */
  function MatchRow(fields: seq<string>, ip: string, port: nat): Option<Row> {
    if |fields| < 3 || fields[0] != ip || Atoll(fields[1]) % 0x1_0000 != port then None
    else
      var (v, rest) := Strtol(fields[2]);
      if rest != "" || v < 0 || v >= TWO_32 then None else Some(Row(v, fields))
  }

  /** What one fgets result contributes: nothing when empty, short, foreign or malformed. */
  function RowOf(line: string, ip: string, port: nat): Option<Row> {
    if Chomp(line) == "" then None else MatchRow(Fields(Chomp(line), 20), ip, port)
  }

  function RowsOf(lines: seq<string>, ip: string, port: nat): seq<Row> {
    if lines == [] then []
    else
      var rows := RowsOf(lines[..|lines| - 1], ip, port);
      match RowOf(lines[|lines| - 1], ip, port)
      case None => rows
      case Some(row) => rows + [row]
  }

  /** The matching rows of a file, past its header line, in file order. */
  function MatchingRows(text: string, ip: string, port: nat): seq<Row> {
    var lines := ReadLines(text);
    if lines == [] then [] else RowsOf(lines[1..], ip, port)
  }

  /** One more line read. */
  lemma {:induction false} RowsSnoc(lines: seq<string>, n: nat, ip: string, port: nat)
    requires 1 <= n < |lines|
    ensures RowsOf(lines[1..n + 1], ip, port) ==
      match RowOf(lines[n], ip, port)
      case None => RowsOf(lines[1..n], ip, port)
      case Some(row) => RowsOf(lines[1..n], ip, port) + [row]
  {
    hide RowOf;
    assert lines[1..n + 1][..n - 1] == lines[1..n];
  }

  /** A line belongs to the target exactly when its address is the same text, its port the same number modulo 2^16, and
      its third field nothing but one number, not negative and below 2^32, which becomes the row's. */
  lemma {:induction false} RowMatchesIff(fields: seq<string>, ip: string, port: nat, sent: nat,
                                         sign: string, digits: string, rest: string, q: nat)
    requires |fields| >= 3 && sent < TWO_63 && fields[1] == Digits(sent)
    requires fields[2] == sign + (digits + rest) && (sign == "" || sign == "+" || sign == "-")
    requires digits != [] && AllDigits(digits) && (rest == [] || !IsDigit(rest[0]))
    ensures MatchRow(fields, ip, port) == Some(Row(q, fields)) <==>
      && fields[0] == ip && sent % 0x1_0000 == port
      && rest == "" && q < 0x1_0000_0000 && q == (if sign == "-" then 0 - Value(digits) else Value(digits))
  {
    hide Strtol, Digits, Value, AllDigits;
    StrtolOfPrinted(sent);
    assert "" + fields[2] == fields[2];
    StrtolReadsSigned("", sign, digits, rest);
  }

  /** An empty third field counts as number zero. */
  lemma {:induction false} EmptyNumberIsZero(fields: seq<string>, ip: string, port: nat)
    requires |fields| >= 3 && fields[0] == ip && port < 0x1_0000 && fields[1] == Digits(port) && fields[2] == ""
    ensures MatchRow(fields, ip, port) == Some(Row(0, fields))
  {
    hide Digits;
    StrtolOfPrinted(port);
  }

  // ---- Reading a line through the in-place splitter.

  method ReadString(buffer: array<char>, p: nat, ghost text: string) returns (s: string)
    requires CharsAt(buffer, p, text)
    ensures s == text
  {
    s := "";
    while buffer[p + |s|] != '\0'
      invariant |s| <= |text| && s == text[..|s|]
      invariant |s| < |text| ==> buffer[p + |s|] == text[|s|]
      decreases |text| - |s|
    {
      s := s + [buffer[p + |s|]];
    }
  }

  lemma {:induction false} ChompIs(line: string, k: nat)
    requires k <= |line| && (forall i :: 0 <= i < k ==> !EndsLine(line[i])) && (k < |line| ==> EndsLine(line[k]))
    ensures Chomp(line) == line[..k]
  {
    if k > 0 {
      ChompIs(line[1..], k - 1);
      assert line[..k] == [line[0]] + line[1..][..k - 1];
    }
  }

  /** strcspn(line, "\r\n") on the C string held by a fgets buffer. */
  method LineEnd(line: string) returns (k: nat)
    ensures k <= |line| && Chomp(line) == line[..k] && '\0' !in line[..k]
  {
    k := 0;
    while k < |line| && !EndsLine(line[k])
      invariant k <= |line| && forall i :: 0 <= i < k ==> !EndsLine(line[i])
    {
      k := k + 1;
    }
    ChompIs(line, k);
  }

  /** One iteration of the reading loops: buffer the line, cut it, split it, test it. */
  method ParseRow(line: string, ip: string, port: nat) returns (row: Option<Row>)
    requires |line| <= 2047
    ensures row == RowOf(line, ip, port)
  {
    hide Chomp, Fields, MatchRow;
    var k := LineEnd(line);
    if k == 0 { return None; }
    var buffer := new char[2048](_ => '\0');
    for i := 0 to k
      invariant forall j :: 0 <= j < i ==> buffer[j] == line[j]
      invariant buffer[k] == '\0'
    {
      buffer[i] := line[i];
    }
    assert CharsAt(buffer, 0, line[..k]);
    var starts := ParseCsvLine(buffer, 20, line[..k]);
    ghost var texts := Fields(line[..k], 20);
    var fields: seq<string> := [];
    while |fields| < |starts|
      invariant |fields| <= |starts| && fields == texts[..|fields|]
      invariant FieldsAt(buffer, starts, texts, buffer.Length)
    {
      var s := ReadString(buffer, starts[|fields|], texts[|fields|]);
      fields := fields + [s];
    }
    assert fields == texts;
    return MatchRow(fields, ip, port);
  }

  // ---- Common sequence numbers.

  ghost predicate NoDuplicates(s: seq<int>) {
    forall i, j :: 0 <= i < j < |s| ==> s[i] != s[j]
  }

  /** The sequence numbers of a list of rows. */
  ghost predicate HasSeq(rows: seq<Row>, q: int) {
    exists i :: 0 <= i < |rows| && rows[i].seqNum == q
  }

  lemma {:induction false} HasSeqSnoc(rows: seq<Row>, row: Row, q: int)
    ensures HasSeq(rows + [row], q) <==> HasSeq(rows, q) || q == row.seqNum
  {
    var all := rows + [row];
    if HasSeq(rows, q) {
      var i :| 0 <= i < |rows| && rows[i].seqNum == q;
      assert all[i].seqNum == q;
    }
    assert all[|rows|] == row;
  }

  /** `sequence_set_t`: a growing array searched linearly. */
  class SequenceSet {
    var sequences: seq<int>

    constructor ()
      ensures sequences == []
    {
      sequences := [];
    }

    /** `sequence_set_add`: appends unless present. */
    method Add(q: nat)
      requires NoDuplicates(sequences)
      modifies this
      ensures NoDuplicates(sequences)
      ensures sequences == if q in old(sequences) then old(sequences) else old(sequences) + [q]
    {
      var i := 0;
      while i < |sequences|
        invariant 0 <= i <= |sequences| && forall j :: 0 <= j < i ==> sequences[j] != q
      {
        if sequences[i] == q { return; }
        i := i + 1;
      }
      sequences := sequences + [q];
    }
  }

  /** `load_sequences_from_file`, on the fgets results of one file. */
  method LoadSequences(lines: seq<string>, ip: string, port: nat) returns (found: seq<int>)
    requires forall i :: 0 <= i < |lines| ==> |lines[i]| <= 2047
    ensures NoDuplicates(found) && |found| <= |if lines == [] then [] else RowsOf(lines[1..], ip, port)|
    ensures forall q :: q in found <==> HasSeq(if lines == [] then [] else RowsOf(lines[1..], ip, port), q)
  {
    hide RowOf, HasSeq, RowsOf;
    NoRowsYet(lines, ip, port);
    var seqSet := new SequenceSet();
    NoRows();
    var n := 1;
    ghost var rows: seq<Row> := [];
    while n < |lines|
      invariant 1 <= n && (lines == [] || n <= |lines|)
      invariant lines != [] ==> rows == RowsOf(lines[1..n], ip, port)
      invariant lines == [] ==> rows == []
      invariant NoDuplicates(seqSet.sequences) && |seqSet.sequences| <= |rows|
      invariant forall q :: q in seqSet.sequences <==> HasSeq(rows, q)
    {
      var row := ParseRow(lines[n], ip, port);
      RowsSnoc(lines, n, ip, port);
      if row.Some? {
        seqSet.Add(row.value.seqNum);
        forall q ensures HasSeq(rows + [row.value], q) <==> HasSeq(rows, q) || q == row.value.seqNum {
          HasSeqSnoc(rows, row.value, q);
        }
        rows := rows + [row.value];
      }
      n := n + 1;
    }
    assert lines != [] ==> lines[1..n] == lines[1..];
    return seqSet.sequences;
  }

  lemma {:induction false} NoRowsYet(lines: seq<string>, ip: string, port: nat)
    ensures lines != [] ==> RowsOf(lines[1..1], ip, port) == []
  {
  }

  lemma {:induction false} NoRows()
    ensures forall q :: !HasSeq([], q)
  {
  }

  /** The lines fgets delivers fit the 2048-byte buffer. */
  lemma {:induction false} ReadLinesFit(text: string)
    ensures forall i :: 0 <= i < |ReadLines(text)| ==> |ReadLines(text)[i]| <= 2047
    decreases |text|
  {
    if text != "" {
      ReadLinesFit(text[FgetsLength(text)..]);
    }
  }

  /** Sequence number q occurs in a matching row of every file. */
  ghost predicate InEvery(files: seq<File>, ip: string, port: nat, q: int) {
    files != [] && forall f :: 0 <= f < |files| ==> HasSeq(MatchingRows(files[f].text, ip, port), q)
  }

  /** The scan of one file's sequence numbers for `seq`. */
  method Contains(loaded: seq<int>, q: int) returns (found: bool)
    ensures found <==> q in loaded
  {
    var j := 0;
    while j < |loaded|
      invariant 0 <= j <= |loaded| && forall k :: 0 <= k < j ==> loaded[k] != q
    {
      if loaded[j] == q { return true; }
      j := j + 1;
    }
    return false;
  }

  method LoadAll(files: seq<File>, ip: string, port: nat) returns (loaded: seq<seq<int>>)
    ensures |loaded| == |files|
    ensures forall f :: 0 <= f < |files| ==>
      NoDuplicates(loaded[f]) && |loaded[f]| <= |MatchingRows(files[f].text, ip, port)|
    ensures forall f, q :: 0 <= f < |files| ==> (q in loaded[f] <==> HasSeq(MatchingRows(files[f].text, ip, port), q))
  {
    hide HasSeq, NoDuplicates, RowsOf;
    loaded := [];
    for i := 0 to |files|
      invariant |loaded| == i
      invariant forall f :: 0 <= f < i ==>
        NoDuplicates(loaded[f]) && |loaded[f]| <= |MatchingRows(files[f].text, ip, port)|
      invariant forall f, q :: 0 <= f < i ==> (q in loaded[f] <==> HasSeq(MatchingRows(files[f].text, ip, port), q))
    {
      ReadLinesFit(files[i].text);
      var found := LoadSequences(ReadLines(files[i].text), ip, port);
      loaded := loaded + [found];
    }
  }

  /** The intersection loops: first file's sequence numbers found in all the others. */
  method Intersect(loaded: seq<seq<int>>) returns (common: seq<int>)
    requires loaded != [] && NoDuplicates(loaded[0])
    ensures NoDuplicates(common) && |common| <= |loaded[0]|
    ensures forall q :: q in common <==> forall f :: 0 <= f < |loaded| ==> q in loaded[f]
  {
    common := [];
    var i := 0;
    while i < |loaded[0]|
      invariant 0 <= i <= |loaded[0]| && NoDuplicates(common) && |common| <= i
      invariant forall q :: q in common <==> q in loaded[0][..i] && forall f :: 1 <= f < |loaded| ==> q in loaded[f]
    {
      var q := loaded[0][i];
      var foundInAll := true;
      var f := 1;
      while f < |loaded|
        invariant 1 <= f && foundInAll
        invariant forall g :: 1 <= g < f && g < |loaded| ==> q in loaded[g]
      {
        var found := Contains(loaded[f], q);
        if !found {
          foundInAll := false;
          break;
        }
        f := f + 1;
      }
      assert foundInAll <==> forall g :: 1 <= g < |loaded| ==> q in loaded[g];
      assert q !in loaded[0][..i];
      if foundInAll { common := common + [q]; }
      i := i + 1;
    }
  }

  ghost predicate StrictlyAscending(s: seq<int>) {
    forall i, j :: 0 <= i < j < |s| ==> s[i] < s[j]
  }

  lemma {:induction false} SortDistinct(s: seq<int>)
    requires NoDuplicates(s)
    ensures StrictlyAscending(SortAscending(s))
    ensures forall q :: q in SortAscending(s) <==> q in s
  {
    SortSorts(s);
    var r := SortAscending(s);
    forall q ensures q in r <==> q in s {
      assert q in multiset(r) <==> q in multiset(s);
    }
    forall i, j | 0 <= i < j < |r| ensures r[i] < r[j] {
      OccursOnce(s, r[i]);
      if r[i] == r[j] { OccursTwice(r, i, j); }
    }
  }

  lemma {:induction false} OccursOnce(s: seq<int>, q: int)
    requires NoDuplicates(s)
    ensures multiset(s)[q] <= 1
  {
    if s != [] {
      OccursOnce(s[1..], q);
      assert s == [s[0]] + s[1..];
      if q == s[0] { assert q !in multiset(s[1..]); }
    }
  }

  lemma {:induction false} OccursTwice(s: seq<int>, i: nat, j: nat)
    requires i < j < |s| && s[i] == s[j]
    ensures multiset(s)[s[i]] >= 2
  {
    assert s == s[..j] + [s[j]] + s[j + 1..];
    assert s[i] in multiset(s[..j]) by { assert s[..j][i] == s[i]; }
  }

  /** `find_common_sequences`: ascending, without repeats, exactly the numbers every file has. */
  method FindCommonSequences(files: seq<File>, ip: string, port: nat) returns (common: seq<int>)
    ensures StrictlyAscending(common)
    ensures forall q :: q in common <==> InEvery(files, ip, port, q)
    ensures files != [] ==> |common| <= |MatchingRows(files[0].text, ip, port)|
    ensures files == [] ==> common == []
  {
    hide HasSeq, MatchingRows, SortAscending;
    var loaded := LoadAll(files, ip, port);
    if |loaded| == 0 || |loaded[0]| == 0 {
      assert files != [] ==> forall q :: !HasSeq(MatchingRows(files[0].text, ip, port), q);
      return [];
    }
    var unsorted := Intersect(loaded);
    var a := new int[|unsorted|](i requires 0 <= i < |unsorted| => unsorted[i]);
    assert a[..|unsorted|] == unsorted;
    Qsort(a, |unsorted|);
    SortDistinct(unsorted);
    common := a[..|unsorted|];
  }
}
