// What quotes do to parse_csv_line. The test for an opening quote looks at the
// previous character of the buffer, where a separating comma is already a NUL.
module CsvQuotes {
  import opened CsvText
  import opened CsvParse

  /** The splitter with every quote an ordinary character. */
  function CommaSplit(rest: string, room: nat, field: string): seq<string> {
    if room == 0 then []
    else if rest == "" then [Trim(field)]
    else if rest[0] == ',' then [Trim(field)] + CommaSplit(rest[1..], room - 1, "")
    else CommaSplit(rest[1..], room, field + [rest[0]])
  }

  /** The same scan looking back at the buffer it overwrites (`inPlace`) or at an untouched copy of the line. */
  function Scan(rest: string, room: nat, field: string, quoted: bool, opening: bool, inPlace: bool): seq<string>
    decreases |rest|
  {
    if room == 0 then []
    else if rest == "" then [Trim(field)]
    else if rest[0] == '"' && opening then Scan(rest[1..], room, field + [rest[0]], !quoted, false, inPlace)
    else if rest[0] == ',' && !quoted then [Trim(field)] + Scan(rest[1..], room - 1, "", false, !inPlace, inPlace)
    else Scan(rest[1..], room, field + [rest[0]], quoted, rest[0] == ',', inPlace)
  }

  /** The fields found when a quote right after any comma is seen. */
  function QuotedFields(line: string, maxFields: nat): seq<string> {
    Scan(line, maxFields, "", false, true, false)
  }

  lemma {:induction false} InPlaceIsSplit(rest: string, room: nat, field: string, quoted: bool, opening: bool)
    ensures Scan(rest, room, field, quoted, opening, true) == Split(rest, room, field, quoted, opening)
    decreases |rest|
  {
    hide Trim;
    if room > 0 && rest != "" {
      InPlaceIsSplit(rest[1..], room, field + [rest[0]], !quoted, false);
      InPlaceIsSplit(rest[1..], room, field + [rest[0]], quoted, rest[0] == ',');
      InPlaceIsSplit(rest[1..], room - 1, "", false, false);
    }
  }

  lemma {:induction false} TrimRightKeepsComma(s: string)
    ensures ',' in TrimRight(s) <==> ',' in s
  {
    if s != "" && IsSpace(s[|s| - 1]) {
      TrimRightKeepsComma(s[..|s| - 1]);
      assert s == s[..|s| - 1] + [s[|s| - 1]];
    }
  }

  lemma {:induction false} SpacePrefixKeepsComma(s: string)
    ensures ',' in s[SpacePrefix(s)..] <==> ',' in s
  {
    if s != "" && IsSpace(s[0]) {
      SpacePrefixKeepsComma(s[1..]);
      assert s[SpacePrefix(s)..] == s[1..][SpacePrefix(s[1..])..];
      assert s == [s[0]] + s[1..];
    }
  }

  lemma {:induction false} TrimKeepsComma(s: string)
    ensures ',' in Trim(s) <==> ',' in s
  {
    SpacePrefixKeepsComma(s);
    TrimRightKeepsComma(s[SpacePrefix(s)..]);
  }

  /** A comma already in the field stays in the first field produced. */
  lemma {:induction false} FirstFieldKeepsComma(rest: string, room: nat, field: string, quoted: bool, opening: bool,
                                                inPlace: bool)
    requires room > 0 && ',' in field
    ensures var fs := Scan(rest, room, field, quoted, opening, inPlace); fs != [] && ',' in fs[0]
    decreases |rest|
  {
    hide Trim;
    TrimKeepsComma(field);
    if rest != "" {
      FirstFieldKeepsComma(rest[1..], room, field + [rest[0]], !quoted, false, inPlace);
      FirstFieldKeepsComma(rest[1..], room, field + [rest[0]], quoted, rest[0] == ',', inPlace);
    }
  }

  /** Inside quotes the next comma goes into the field; without one the rest of the line does. */
  lemma {:induction false} InsideQuotes(rest: string, room: nat, field: string, inPlace: bool)
    requires room > 0 && ',' !in field
    ensures var fs := Scan(rest, room, field, true, false, inPlace);
      && fs != [] && (',' in fs[0] <==> ',' in rest)
      && (',' !in rest ==> fs == CommaSplit(rest, room, field))
    decreases |rest|
  {
    hide Trim;
    TrimKeepsComma(field);
    if rest != "" {
      assert rest == [rest[0]] + rest[1..];
      if rest[0] == ',' {
        FirstFieldKeepsComma(rest[1..], room, field + [rest[0]], true, true, inPlace);
      } else {
        InsideQuotes(rest[1..], room, field + [rest[0]], inPlace);
      }
    }
  }

  lemma {:induction false} CommaSplitFirst(rest: string, room: nat, field: string)
    requires room > 0 && ',' !in field
    ensures var fs := CommaSplit(rest, room, field); fs != [] && ',' !in fs[0]
    decreases |rest|
  {
    hide Trim;
    TrimKeepsComma(field);
    if rest != "" && rest[0] != ',' {
      CommaSplitFirst(rest[1..], room, field + [rest[0]]);
    }
  }

  /** Outside quotes, with the buffer overwritten, no quote is ever seen again. */
  lemma {:induction false} OutsideQuotes(rest: string, room: nat, field: string)
    ensures Scan(rest, room, field, false, false, true) == CommaSplit(rest, room, field)
    decreases |rest|
  {
    hide Trim;
    if room > 0 && rest != "" {
      if rest[0] == ',' {
        OutsideQuotes(rest[1..], room - 1, "");
      } else {
        OutsideQuotes(rest[1..], room, field + [rest[0]]);
      }
    }
  }

  /** Whether the first character is a quote makes all the difference to how the scan starts. */
  lemma {:induction false} NotOpening(rest: string, room: nat, field: string, quoted: bool, inPlace: bool)
    requires rest == "" || rest[0] != '"'
    ensures Scan(rest, room, field, quoted, true, inPlace) == Scan(rest, room, field, quoted, false, inPlace)
  {
    hide Trim;
  }

  /** The code treats quotes as ordinary characters exactly on lines that do not begin with one or hold no comma. */
  lemma {:induction false} QuotesIgnoredIff(line: string, n: nat)
    requires n > 0
    ensures Fields(line, n) == CommaSplit(line, n, "") <==> line == "" || line[0] != '"' || ',' !in line
  {
    hide Trim, Scan, Split, CommaSplit;
    InPlaceIsSplit(line, n, "", false, true);
    if line == "" || line[0] != '"' {
      NotOpening(line, n, "", false, true);
      OutsideQuotes(line, n, "");
    } else {
      AfterOpeningQuote(line, n, "", true);
      assert "" + "\"" == "\"" && line == [line[0]] + line[1..];
      InsideQuotes(line[1..], n, "\"", true);
      CommaSplitFirst(line[1..], n, "\"");
    }
  }

  lemma {:induction false} AfterOpeningQuote(rest: string, room: nat, field: string, inPlace: bool)
    requires room > 0 && rest != "" && rest[0] == '"'
    ensures Scan(rest, room, field, false, true, inPlace) == Scan(rest[1..], room, field + "\"", true, false, inPlace)
    ensures CommaSplit(rest, room, field) == CommaSplit(rest[1..], room, field + "\"")
  {
    hide Trim;
  }

  // ---- When overwriting the commas changes the fields.

  function Commas(s: string): nat {
    if s == "" then 0 else (if s[0] == ',' then 1 else 0) + Commas(s[1..])
  }

  /** A separating comma at i, early enough to count, whose next character is a quote with a comma somewhere
      after it. */
  predicate LostQuoteAt(rest: string, room: nat, i: nat) {
    && i + 1 < |rest| && rest[i] == ',' && rest[i + 1] == '"'
    && ',' in rest[i + 2..] && Commas(rest[..i + 1]) < room
  }

  ghost predicate LostQuote(rest: string, room: nat) {
    exists i :: 0 <= i < |rest| && LostQuoteAt(rest, room, i)
  }

  lemma {:induction false} LostQuoteShift(rest: string, room: nat, i: nat)
    requires rest != "" && 0 < i < |rest| && room > 0
    ensures LostQuoteAt(rest, room, i) <==> LostQuoteAt(rest[1..], if rest[0] == ',' then room - 1 else room, i - 1)
  {
    assert rest[..i + 1][1..] == rest[1..][..i];
    if i + 1 < |rest| { assert rest[i + 2..] == rest[1..][i + 1..]; }
  }

  lemma {:induction false} LostQuoteStep(rest: string, room: nat)
    requires rest != "" && room > 0
    ensures LostQuote(rest, room) <==>
      LostQuoteAt(rest, room, 0) || LostQuote(rest[1..], if rest[0] == ',' then room - 1 else room)
  {
    hide LostQuoteAt;
    var r := if rest[0] == ',' then room - 1 else room;
    if LostQuote(rest, room) && !LostQuoteAt(rest, room, 0) {
      var i :| 0 <= i < |rest| && LostQuoteAt(rest, room, i);
      LostQuoteShift(rest, room, i);
      assert LostQuoteAt(rest[1..], r, i - 1);
    }
    if LostQuote(rest[1..], r) {
      var i :| 0 <= i < |rest[1..]| && LostQuoteAt(rest[1..], r, i);
      LostQuoteShift(rest, room, i + 1);
      assert LostQuoteAt(rest, room, i + 1);
    }
  }

  lemma {:induction false} FirstCommas(rest: string)
    requires rest != ""
    ensures Commas(rest[..1]) == if rest[0] == ',' then 1 else 0
  {
    assert rest[..1][1..] == "";
  }

  lemma {:induction false} NoCommaNoLoss(rest: string, room: nat)
    ensures ',' !in rest ==> !LostQuote(rest, room)
    ensures room <= 1 ==> !LostQuote(rest, room)
  {
    forall i | 0 <= i < |rest| && LostQuoteAt(rest, room, i) ensures ',' in rest && Commas(rest[..i + 1]) >= 1 {
      CommaCounted(rest[..i + 1], i);
    }
  }

  lemma {:induction false} CommaCounted(s: string, i: nat)
    requires i < |s| && s[i] == ','
    ensures Commas(s) >= 1
  {
    if i > 0 { CommaCounted(s[1..], i - 1); }
  }

  /** Right after a separating comma: the two scans part exactly at a quote that a comma follows. */
  lemma {:induction false} AfterComma(rest: string, room: nat)
    requires room > 0 && rest != "" && rest[0] == '"'
    ensures Scan(rest, room, "", false, false, true) == Scan(rest, room, "", false, true, false) <==> ',' !in rest[1..]
  {
    hide Trim, Scan, CommaSplit;
    OutsideQuotes(rest, room, "");
    AfterOpeningQuote(rest, room, "", false);
    assert "" + "\"" == "\"";
    InsideQuotes(rest[1..], room, "\"", false);
    CommaSplitFirst(rest[1..], room, "\"");
  }

  lemma {:induction false} SameTail(head: string, a: seq<string>, b: seq<string>)
    ensures [head] + a == [head] + b <==> a == b
  {
    assert ([head] + a)[1..] == a && ([head] + b)[1..] == b;
  }

  /** Outside quotes the two scans agree exactly when no quote is lost. */
  lemma {:induction false} ScansAgreeIff(rest: string, room: nat, field: string)
    ensures Scan(rest, room, field, false, false, true) == Scan(rest, room, field, false, false, false)
      <==> !LostQuote(rest, room)
    decreases |rest|
  {
    hide Trim, LostQuote, LostQuoteAt;
    NoCommaNoLoss(rest, room);
    if room > 0 && rest != "" {
      LostQuoteStep(rest, room);
      if rest[0] == ',' {
        ScansAgreeAtComma(rest, room, field);
      } else {
        NotACommaNoLoss(rest, room);
        ScansAgreeIff(rest[1..], room, field + [rest[0]]);
      }
    }
  }

  lemma {:induction false} NotACommaNoLoss(rest: string, room: nat)
    requires rest == "" || rest[0] != ','
    ensures !LostQuoteAt(rest, room, 0)
  {
  }

  lemma {:induction false} LostHere(rest: string, room: nat)
    requires rest != "" && rest[0] == ',' && room > 0
    ensures LostQuoteAt(rest, room, 0) <==> |rest| > 1 && rest[1] == '"' && ',' in rest[2..] && room > 1
  {
    FirstCommas(rest);
  }

  lemma {:induction false} ScansAgreeAtComma(rest: string, room: nat, field: string)
    requires room > 0 && rest != "" && rest[0] == ','
    ensures Scan(rest, room, field, false, false, true) == Scan(rest, room, field, false, false, false)
      <==> !LostQuote(rest, room)
    decreases |rest|, 0
  {
    hide Trim, LostQuote, LostQuoteAt;
    var tail := rest[1..];
    LostQuoteStep(rest, room);
    LostHere(rest, room);
    NoCommaNoLoss(tail, room - 1);
    SameTail(Trim(field), Scan(tail, room - 1, "", false, false, true), Scan(tail, room - 1, "", false, true, false));
    if room > 1 && tail != "" && tail[0] == '"' {
      AfterComma(tail, room - 1);
      assert tail[1..] == rest[2..];
      if ',' !in tail[1..] {
        assert tail == [tail[0]] + tail[1..];
      }
    } else if room > 1 {
      NotOpening(tail, room - 1, "", false, false);
      ScansAgreeIff(tail, room - 1, "");
    }
  }

  /** Where the scan first stands outside quotes: at the start, or past the quote that closes a leading one. */
  function UnquotedFrom(line: string): (u: nat)
    ensures u <= |line|
  {
    if line == "" || line[0] != '"' then 0 else 1 + ClosingQuote(line[1..])
  }

  /** A comma in the quoted field and a quote right after it: the quote closes. */
  predicate ClosesNow(rest: string) { |rest| >= 2 && rest[0] == ',' && rest[1] == '"' }

  /** Inside quotes: the position after the first quote that directly follows a comma, or the end. */
  function ClosingQuote(rest: string): (k: nat)
    ensures k <= |rest|
  {
    if |rest| < 2 then |rest|
    else if ClosesNow(rest) then 2
    else 1 + ClosingQuote(rest[1..])
  }

  lemma {:induction false} ClosesHere(rest: string, room: nat, field: string, inPlace: bool)
    requires room > 0 && ClosesNow(rest)
    ensures |rest| >= 2 && ClosingQuote(rest) == 2
    ensures Scan(rest, room, field, true, false, inPlace)
      == Scan(rest[2..], room, field + rest[..2], false, false, inPlace)
  {
    hide Trim;
    assert rest[1..][1..] == rest[2..];
    assert field + [rest[0]] + [rest[1]] == field + rest[..2];
  }

  /** Inside quotes any other character joins the field. */
  lemma {:induction false} QuotedStep(rest: string, room: nat, field: string, inPlace: bool)
    requires room > 0 && rest != "" && !ClosesNow(rest)
    ensures Scan(rest, room, field, true, false, inPlace)
      == Scan(rest[1..], room, field + [rest[0]], true, false, inPlace)
    ensures ClosingQuote(rest) == 1 + ClosingQuote(rest[1..])
  {
    hide Trim;
    NotOpening("", room, field, true, inPlace);
    if rest[0] == ',' { NotOpening(rest[1..], room, field + [rest[0]], true, inPlace); }
  }

  lemma {:induction false} QuotedEnd(room: nat, field: string, quoted: bool, inPlace: bool)
    requires room > 0
    ensures Scan("", room, field, quoted, false, inPlace) == [Trim(field)] && ClosingQuote("") == 0
  {
  }

  lemma {:induction false} ShiftOne(rest: string, field: string, k: nat)
    requires k < |rest|
    ensures rest[1..][k..] == rest[k + 1..]
    ensures field + [rest[0]] + rest[1..][..k] == field + rest[..k + 1] && field + [rest[0]] + rest[1..] == field + rest
  {
  }

  /** Inside quotes the scan runs to the closing quote, whichever buffer it looks at. */
  lemma {:induction false} RunToClosingQuote(rest: string, room: nat, field: string, inPlace: bool)
    requires room > 0
    ensures var k := ClosingQuote(rest);
      Scan(rest, room, field, true, false, inPlace)
        == if k == |rest| then [Trim(field + rest)] else Scan(rest[k..], room, field + rest[..k], false, false, inPlace)
    decreases |rest|
  {
    hide Trim, Scan, ClosesNow;
    if rest == "" {
      QuotedEnd(room, field, true, inPlace);
      assert field + rest == field;
    } else if ClosesNow(rest) {
      ClosesHere(rest, room, field, inPlace);
      if |rest| == 2 {
        QuotedEnd(room, field + rest, false, inPlace);
        assert rest[..2] == rest && rest[2..] == "";
      }
    } else {
      QuotedStep(rest, room, field, inPlace);
      RunToClosingQuote(rest[1..], room, field + [rest[0]], inPlace);
      if ClosingQuote(rest[1..]) < |rest| { ShiftOne(rest, field, ClosingQuote(rest[1..])); }
    }
  }

  /** The fields are those of a scan over an untouched line exactly when no separating comma is followed by a quote
      and a further comma, outside a leading quoted stretch and within the field limit. */
  lemma {:induction false} QuotedFieldsIff(line: string, n: nat)
    ensures Fields(line, n) == QuotedFields(line, n) <==> !LostQuote(line[UnquotedFrom(line)..], n)
  {
    hide Trim, Scan, Split, LostQuote, ClosingQuote;
    InPlaceIsSplit(line, n, "", false, true);
    NoCommaNoLoss(line[UnquotedFrom(line)..], n);
    if n == 0 {
      NoRoom(line);
    } else if line == "" || line[0] != '"' {
      NotOpening(line, n, "", false, true);
      NotOpening(line, n, "", false, false);
      assert line[0..] == line;
      ScansAgreeIff(line, n, "");
    } else {
      AfterOpeningQuote(line, n, "", true);
      AfterOpeningQuote(line, n, "", false);
      assert "" + "\"" == "\"";
      var rest, k := line[1..], ClosingQuote(line[1..]);
      RunToClosingQuote(rest, n, "\"", true);
      RunToClosingQuote(rest, n, "\"", false);
      assert rest[k..] == line[1 + k..];
      if k < |rest| {
        ScansAgreeIff(rest[k..], n, "\"" + rest[..k]);
      } else {
        assert line[1 + k..] == "";
      }
    }
  }

  lemma {:induction false} NoRoom(line: string)
    ensures Scan(line, 0, "", false, true, true) == Scan(line, 0, "", false, true, false) == []
  {
  }

  lemma {:induction false} TrimNothing(s: string)
    requires s != "" && !IsSpace(s[0]) && !IsSpace(s[|s| - 1])
    ensures Trim(s) == s
  {
  }

  lemma {:induction false} ExampleHead()
    ensures "a,\"b,c\""[1..] == ",\"b,c\"" && ",\"b,c\""[1..] == "\"b,c\"" && "\"b,c\""[1..] == "b,c\""
  {
  }

  lemma {:induction false} ExampleTail()
    ensures "b,c\""[1..] == ",c\"" && ",c\""[1..] == "c\"" && "c\""[1..] == "\"" && "\""[1..] == ""
  {
  }

  lemma {:induction false} ExampleFields()
    ensures "" + ['a'] == "a" && "" + ['"'] == "\"" && "\"" + ['b'] == "\"b"
    ensures "" + ['c'] == "c" && "c" + ['"'] == "c\""
  {
  }

  lemma {:induction false} ExampleQuotedField()
    ensures "\"b" + [','] == "\"b," && "\"b," + ['c'] == "\"b,c" && "\"b,c" + ['"'] == "\"b,c\""
  {
  }

  /** A line on which a quote is lost: it splits into three fields instead of two. */
  lemma {:induction false} LostQuoteExample()
    ensures Fields("a,\"b,c\"", 20) == ["a", "\"b", "c\""]
    ensures QuotedFields("a,\"b,c\"", 20) == ["a", "\"b,c\""]
  {
    hide Trim, Split;
    ExampleHead();
    ExampleTail();
    ExampleFields();
    ExampleQuotedField();
    TrimNothing("a");
    TrimNothing("\"b");
    TrimNothing("c\"");
    TrimNothing("\"b,c\"");
    QuotesIgnoredIff("a,\"b,c\"", 20);
    assert CommaSplit("c\"", 18, "") == CommaSplit("\"", 18, "c") == CommaSplit("", 18, "c\"");
    assert CommaSplit("\"b,c\"", 19, "") == CommaSplit("b,c\"", 19, "\"") == CommaSplit(",c\"", 19, "\"b");
    assert CommaSplit("a,\"b,c\"", 20, "") == CommaSplit(",\"b,c\"", 20, "a");
    assert Scan("a,\"b,c\"", 20, "", false, true, false) == Scan(",\"b,c\"", 20, "a", false, false, false);
    assert Scan("\"b,c\"", 19, "", false, true, false) == Scan("b,c\"", 19, "\"", true, false, false)
      == Scan(",c\"", 19, "\"b", true, false, false) == Scan("c\"", 19, "\"b,", true, true, false)
      == Scan("\"", 19, "\"b,c", true, false, false) == Scan("", 19, "\"b,c\"", true, false, false);
  }
}
