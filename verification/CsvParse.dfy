// Reading CSV text back: lines as fgets delivers them, and the field splitter
// that overwrites its line buffer with NULs.
module CsvParse {
  import opened Sequences
  import opened CsvText

  // ---- Lines of a file.

  /** How many characters one `fgets(line, 2048, fp)` takes from nonempty text. */
  function FgetsLength(text: string): (n: nat)
    requires text != ""
    ensures 1 <= n <= |text|
  {
    var nl := IndexOf(text, '\n');
    var whole := if nl == |text| then nl else nl + 1;
    if whole <= 2047 then whole else 2047
  }

  /** The successive fgets results. */
  function ReadLines(text: string): seq<string>
    decreases |text|
  {
    if text == "" then [] else [text[..FgetsLength(text)]] + ReadLines(text[FgetsLength(text)..])
  }

  /** The pieces put together again. */
  function Together(pieces: seq<string>): string {
    if pieces == [] then "" else pieces[0] + Together(pieces[1..])
  }

  /** A piece: not empty, at most 2047 characters, and no newline before its last character. */
  ghost predicate Piece(s: string) {
    && 1 <= |s| <= 2047
    && forall i :: 0 <= i < |s| - 1 ==> s[i] != '\n'
  }

  lemma {:induction false} FirstNewline(text: string)
    ensures var k := IndexOf(text, '\n');
      && (forall i :: 0 <= i < k ==> text[i] != '\n')
      && (k < |text| ==> text[k] == '\n')
  {
    if text != "" { FirstNewline(text[1..]); }
  }

  lemma {:induction false} FirstPiece(text: string)
    requires text != ""
    ensures var k := FgetsLength(text); Piece(text[..k]) && (k < |text| ==> k == 2047 || text[k - 1] == '\n')
  {
    hide IndexOf;
    FirstNewline(text);
  }

  /** Pieces of a text in order: all but the last are full or end in a newline. */
  ghost predicate WellCut(pieces: seq<string>) {
    pieces != [] ==>
      && Piece(pieces[0]) && WellCut(pieces[1..])
      && (|pieces| > 1 ==> |pieces[0]| == 2047 || pieces[0][|pieces[0]| - 1] == '\n')
  }

  /** fgets cuts a text into pieces without losing or adding a character; each ends at a newline or is full, except
      that the last may simply end. */
  lemma {:induction false} LinesAreTheText(text: string)
    ensures Together(ReadLines(text)) == text && WellCut(ReadLines(text))
    decreases |text|
  {
    hide IndexOf, FgetsLength, Piece;
    if text != "" {
      FirstPiece(text);
      var k := FgetsLength(text);
      LinesAreTheText(text[k..]);
      assert ReadLines(text)[1..] == ReadLines(text[k..]);
      assert text[..k] + text[k..] == text;
    }
  }

  predicate EndsLine(c: char) { c == '\0' || c == '\r' || c == '\n' }

  /** `line[strcspn(line, "\r\n")] = '\0'`: the C string left in the buffer. */
  function Chomp(line: string): string {
    if line == "" || EndsLine(line[0]) then "" else [line[0]] + Chomp(line[1..])
  }

  /** Cutting a line takes off its ending, LF or CR LF or none, and nothing else. */
  lemma {:induction false} EndingChomped(line: string, ending: string)
    requires forall i :: 0 <= i < |line| ==> line[i] != '\r' && line[i] != '\n' && line[i] != '\0'
    requires ending == "" || ending == "\n" || ending == "\r\n"
    ensures Chomp(line + ending) == line
  {
    if line == "" {
      assert line + ending == ending;
    } else {
      assert (line + ending)[1..] == line[1..] + ending;
      EndingChomped(line[1..], ending);
    }
  }

  // ---- Trimming.

  function TrimRight(s: string): (r: string)
    ensures |r| <= |s|
  {
    if s == "" || !IsSpace(s[|s| - 1]) then s else TrimRight(s[..|s| - 1])
  }

  /** The text `trim_whitespace` returns. */
  function Trim(s: string): string {
    TrimRight(s[SpacePrefix(s)..])
  }

  lemma {:induction false} SpacePrefixIs(s: string, k: nat)
    requires k <= |s| && (forall i :: 0 <= i < k ==> IsSpace(s[i])) && (k < |s| ==> !IsSpace(s[k]))
    ensures SpacePrefix(s) == k
  {
    if k > 0 {
      SpacePrefixIs(s[1..], k - 1);
    }
  }

  lemma {:induction false} TrimRightIs(s: string, n: nat)
    requires n <= |s| && (forall i :: n <= i < |s| ==> IsSpace(s[i])) && (n > 0 ==> !IsSpace(s[n - 1]))
    ensures TrimRight(s) == s[..n]
    decreases |s|
  {
    if n < |s| {
      var m := |s| - 1;
      assert s[..m][..n] == s[..n];
      TrimRightIs(s[..m], n);
    } else {
      assert s[..n] == s;
    }
  }

  /** Trimming takes off exactly the spaces at both ends. */
  lemma {:induction false} TrimIs(before: string, s: string, after: string)
    requires forall i :: 0 <= i < |before| ==> IsSpace(before[i])
    requires forall i :: 0 <= i < |after| ==> IsSpace(after[i])
    requires s != "" ==> !IsSpace(s[0]) && !IsSpace(s[|s| - 1])
    ensures Trim(before + s + after) == s
  {
    hide SpacePrefix, TrimRight, IsSpace;
    var all := before + s + after;
    if s == "" {
      SpacePrefixIs(all, |all|);
      TrimRightIs("", 0);
    } else {
      SpacePrefixIs(all, |before|);
      assert all[|before|..] == s + after;
      TrimRightIs(s + after, |s|);
    }
  }

  /** The string at p, character by character. */
  ghost predicate CharsAt(line: array<char>, p: nat, text: string)
    reads line
  {
    && p + |text| < line.Length && line[p + |text|] == '\0' && '\0' !in text
    && forall i :: 0 <= i < |text| ==> line[p + i] == text[i]
  }

  /** The trailing half of trim_whitespace: strlen, then a NUL after the last non-space. */
  method CutTrailing(line: array<char>, p: nat, ghost text: string)
    requires CharsAt(line, p, text) && text != "" && !IsSpace(text[0])
    modifies line
    ensures CharsAt(line, p, TrimRight(text))
    ensures forall i :: 0 <= i < line.Length && (i < p || i >= p + |text|) ==> line[i] == old(line[i])
  {
    var end := p;
    while line[end] != '\0'
      invariant p <= end <= p + |text|
      invariant end < p + |text| ==> line[end] == text[end - p]
      decreases p + |text| - end
    {
      end := end + 1;
    }
    end := end - 1;
    while end > p && IsSpace(line[end])
      invariant p <= end < p + |text|
      invariant forall i :: end - p < i < |text| ==> IsSpace(text[i])
    {
      assert line[end] == text[end - p];
      end := end - 1;
    }
    assert line[end] == text[end - p];
    TrimRightIs(text, end - p + 1);
    line[end + 1] := '\0';
  }

  /** `trim_whitespace` on the string at `start` of the line buffer. */
  method TrimWhitespace(line: array<char>, start: nat, ghost text: string) returns (p: nat)
    requires CharsAt(line, start, text)
    modifies line
    ensures start <= p && CharsAt(line, p, Trim(text)) && p + |Trim(text)| <= start + |text|
    ensures forall i :: 0 <= i < line.Length && (i < start || i >= start + |text|) ==> line[i] == old(line[i])
  {
    p := start;
    while IsSpace(line[p])
      invariant start <= p <= start + |text|
      invariant forall i :: 0 <= i < p - start ==> IsSpace(text[i])
      decreases start + |text| - p
    {
      assert p < start + |text| ==> line[p] == text[p - start];
      p := p + 1;
    }
    ghost var k := p - start;
    assert k < |text| ==> line[start + k] == text[k];
    SpacePrefixIs(text, k);
    if line[p] == '\0' {
      assert k == |text|;
      return;
    }
    CutTrailing(line, p, text[k..]);
  }

  // ---- Splitting a line into fields.

  /** The rest of `parse_csv_line`: `field` is the text since the field's start, `room` the free entries of
      `fields`, `opening` whether the next character is at the line's start or after a comma still in the buffer. */
  function Split(rest: string, room: nat, field: string, quoted: bool, opening: bool): seq<string>
    decreases |rest|
  {
    if room == 0 then []
    else if rest == "" then [Trim(field)]
    else if rest[0] == '"' && opening then Split(rest[1..], room, field + [rest[0]], !quoted, false)
    else if rest[0] == ',' && !quoted then [Trim(field)] + Split(rest[1..], room - 1, "", quoted, false)
    else Split(rest[1..], room, field + [rest[0]], quoted, rest[0] == ',')
  }

  /** The fields `parse_csv_line` finds in a line. */
  function Fields(line: string, maxFields: nat): seq<string> {
    Split(line, maxFields, "", false, true)
  }

  /** Each pointer of `starts` leads to its field's text, all of it before `limit`. */
  ghost predicate FieldsAt(line: array<char>, starts: seq<nat>, texts: seq<string>, limit: nat)
    reads line
  {
    && |starts| == |texts|
    && forall k :: 0 <= k < |starts| ==> CharsAt(line, starts[k], texts[k]) && starts[k] + |texts[k]| < limit
  }

  /** The fields still to come when the scan stands at `current` in a field begun at `start`. */
  ghost function FieldsFrom(text: string, start: nat, current: nat, room: nat, quoted: bool, opening: bool): seq<string>
    requires start <= current <= |text|
  {
    Split(text[current..], room, text[start..current], quoted, opening)
  }

  lemma {:induction false} ScanStep(text: string, start: nat, i: nat, room: nat, quoted: bool, opening: bool)
    requires start <= i < |text| && room > 0
    ensures var fs := FieldsFrom(text, start, i, room, quoted, opening);
      if text[i] == '"' && opening then fs == FieldsFrom(text, start, i + 1, room, !quoted, false)
      else if text[i] == ',' && !quoted then
        fs == [Trim(text[start..i])] + FieldsFrom(text, i + 1, i + 1, room - 1, quoted, false)
      else fs == FieldsFrom(text, start, i + 1, room, quoted, text[i] == ',')
  {
    hide Trim;
    TailStep(text, i);
    SliceStep(text, start, i);
    assert text[i + 1..i + 1] == "";
  }

  lemma {:induction false} ScanEnds(text: string, start: nat, room: nat, quoted: bool, opening: bool)
    requires start <= |text|
    ensures FieldsFrom(text, start, |text|, room, quoted, opening) == if room == 0 then [] else [Trim(text[start..])]
    ensures forall i :: start <= i <= |text| ==> FieldsFrom(text, start, i, 0, quoted, opening) == []
    ensures Fields(text, room) == FieldsFrom(text, 0, 0, room, false, true)
  {
    hide Trim;
    assert text[|text|..] == "" && text[start..|text|] == text[start..];
    assert text[0..] == text && text[0..0] == "";
  }

  /** `parse_csv_line`: splits the NUL-terminated buffer in place and returns the field pointers. */
  method ParseCsvLine(line: array<char>, maxFields: nat, ghost text: string) returns (starts: seq<nat>)
    requires CharsAt(line, 0, text) && maxFields > 0
    modifies line
    ensures FieldsAt(line, starts, Fields(text, maxFields), line.Length)
  {
    hide Fields, FieldsFrom, Trim, FieldsAt;
    starts := [];
    var fieldStart, current := 0, 0;
    var inQuotes := false;
    ghost var texts: seq<string> := [];
    NothingCut(line);
    ScanEnds(text, 0, maxFields, false, true);
    while line[current] != '\0' && |starts| < maxFields
      invariant fieldStart <= current <= |text| && |starts| <= maxFields
      invariant |text| < line.Length && forall i :: fieldStart <= i < |text| ==> line[i] == text[i]
      invariant line[|text|] == '\0'
      invariant FieldsAt(line, starts, texts, fieldStart)
      invariant current > 0 && fieldStart == current ==> line[current - 1] == '\0'
      invariant Fields(text, maxFields) ==
        texts + FieldsFrom(text, fieldStart, current, maxFields - |starts|, inQuotes,
                           current == 0 || line[current - 1] == ',')
      decreases |text| - current
    {
      ScanStep(text, fieldStart, current, maxFields - |starts|, inQuotes, current == 0 || line[current - 1] == ',');
      if line[current] == '"' && (current == 0 || line[current - 1] == ',') {
        inQuotes := !inQuotes;
      } else if line[current] == ',' && !inQuotes {
        var p := CloseField(line, fieldStart, current, text[fieldStart..current], starts, texts);
        starts := starts + [p];
        texts := texts + [Trim(text[fieldStart..current])];
        fieldStart := current + 1;
      }
      current := current + 1;
    }
    ScanEnds(text, fieldStart, maxFields - |starts|, inQuotes, current == 0 || line[current - 1] == ',');
    if |starts| < maxFields {
      var p := CloseField(line, fieldStart, current, text[fieldStart..], starts, texts);
      starts := starts + [p];
      texts := texts + [Trim(text[fieldStart..])];
      FieldsWithin(line, starts, texts, current + 1);
    } else {
      FieldsWithin(line, starts, texts, fieldStart);
    }
    assert texts == Fields(text, maxFields);
  }

  lemma {:induction false} NothingCut(line: array<char>)
    ensures FieldsAt(line, [], [], 0)
  {
  }

  lemma {:induction false} FieldsWithin(line: array<char>, starts: seq<nat>, texts: seq<string>, bound: nat)
    requires bound <= line.Length && FieldsAt(line, starts, texts, bound)
    ensures FieldsAt(line, starts, texts, line.Length)
  {
  }

  /** Ends the field [start, end) with a NUL and trims it; fields already cut stay as they are. */
  method CloseField(line: array<char>, start: nat, end: nat, ghost field: string,
                    starts: seq<nat>, ghost texts: seq<string>) returns (p: nat)
    requires start + |field| == end < line.Length && '\0' !in field
    requires forall i :: 0 <= i < |field| ==> line[start + i] == field[i]
    requires FieldsAt(line, starts, texts, start)
    modifies line
    ensures FieldsAt(line, starts + [p], texts + [Trim(field)], end + 1) && line[end] == '\0'
    ensures forall i :: end < i < line.Length ==> line[i] == old(line[i])
  {
    hide Trim;
    line[end] := '\0';
    p := TrimWhitespace(line, start, field);
  }
}
