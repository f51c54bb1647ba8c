// Reading back what the logger wrote: fgets delivers the printed lines, and
// the splitter delivers the printed fields.
module CsvRoundTrip {
  import opened Bits
  import opened CsvText
  import opened CsvLog
  import opened CsvParse

  predicate PlainChar(c: char) {
    c != ',' && c != '"' && !EndsLine(c)
  }

  predicate AllPlain(s: string) {
    forall i :: 0 <= i < |s| ==> PlainChar(s[i])
  }

  /** A field that survives splitting: no separator, quote or line end, no space at either end. */
  predicate PlainField(f: string) {
    AllPlain(f) && (f != "" ==> !IsSpace(f[0]) && !IsSpace(f[|f| - 1]))
  }

  lemma {:induction false} TrimPlain(f: string)
    requires PlainField(f)
    ensures Trim(f) == f
  {
  }

  /** Scanning over a plain field up to a comma or the end of the line. */
  lemma {:induction false} SplitField(f: string, rest: string, room: nat, acc: string, opening: bool)
    requires AllPlain(f) && room > 0 && (rest == "" || rest[0] == ',')
    ensures Split(f + rest, room, acc, false, opening) ==
      if rest == "" then [Trim(acc + f)] else [Trim(acc + f)] + Split(rest[1..], room - 1, "", false, false)
    decreases |f|
  {
    hide Trim;
    if f == "" {
      assert f + rest == rest && acc + f == acc;
    } else {
      assert (f + rest)[1..] == f[1..] + rest && (f + rest)[0] == f[0];
      assert acc + [f[0]] + f[1..] == acc + f;
      SplitField(f[1..], rest, room, acc + [f[0]], false);
    }
  }

  predicate PlainFields(fields: seq<string>) {
    forall i :: 0 <= i < |fields| ==> PlainField(fields[i])
  }

  lemma {:induction false} SplitFirst(f: string, tail: string, room: nat, opening: bool)
    requires PlainField(f) && room > 0
    ensures Split(f + "," + tail, room, "", false, opening) == [f] + Split(tail, room - 1, "", false, false)
    ensures Split(f, room, "", false, opening) == [f]
  {
    TrimPlain(f);
    assert "" + f == f && f + "" == f;
    hide Split, Trim;
    assert f + "," + tail == f + ("," + tail) && ("," + tail)[1..] == tail;
    SplitField(f, "," + tail, room, "", opening);
    SplitField(f, "", room, "", opening);
  }

  lemma {:induction false} JoinedFirst(fields: seq<string>)
    requires |fields| > 1
    ensures Joined(fields) == fields[0] + "," + Joined(fields[1..])
  {
    JoinedSplit([fields[0]], fields[1..]);
    assert [fields[0]] + fields[1..] == fields;
  }

  /** The first n fields, or all when there are fewer. */
  function FirstN(fields: seq<string>, n: nat): (r: seq<string>)
    ensures |r| == if |fields| < n then |fields| else n
  {
    if |fields| <= n then fields else fields[..n]
  }

  lemma {:induction false} FirstNCons(f: string, fields: seq<string>, n: nat)
    ensures FirstN([f] + fields, n + 1) == [f] + FirstN(fields, n)
    ensures FirstN(fields, 0) == []
  {
  }

  lemma {:induction false} SplitJoined(fields: seq<string>, room: nat, opening: bool)
    requires fields != [] && PlainFields(fields)
    ensures Split(Joined(fields), room, "", false, opening) == FirstN(fields, room)
    decreases |fields|
  {
    hide Split, PlainField, FirstN;
    if room == 0 {
      FirstNCons("", fields, 0);
      NoRoom(Joined(fields), opening);
    } else {
      SplitFirst(fields[0], Joined(fields[1..]), room, opening);
      FirstNCons(fields[0], fields[1..], room - 1);
      assert [fields[0]] + fields[1..] == fields;
      if |fields| > 1 {
        JoinedFirst(fields);
        SplitJoined(fields[1..], room - 1, false);
      } else {
        FirstNNothing(room - 1);
      }
    }
  }

  lemma {:induction false} NoRoom(text: string, opening: bool)
    ensures Split(text, 0, "", false, opening) == []
  {
  }

  lemma {:induction false} FirstNNothing(n: nat)
    ensures FirstN([], n) == []
  {
  }

  /** Splitting a line joined from plain fields gives the fields back, as many as the limit admits. */
  lemma {:induction false} FieldsOfJoined(fields: seq<string>, maxFields: nat)
    requires fields != [] && PlainFields(fields)
    ensures Fields(Joined(fields), maxFields) == FirstN(fields, maxFields)
  {
    hide Split, Joined, FirstN;
    SplitJoined(fields, maxFields, true);
  }

  // ---- Lines.

  lemma {:induction false} ReadOneLine(line: string, text: string)
    requires '\n' !in line && |line| <= 2046
    ensures ReadLines(line + "\n" + text) == [line + "\n"] + ReadLines(text)
  {
    var all := line + "\n" + text;
    IndexOfAppend(line, text, '\n');
    assert all == line + ['\n'] + text;
    assert all[..|line| + 1] == line + "\n" && all[|line| + 1..] == text;
  }

  lemma {:induction false} JoinedPlain(fields: seq<string>)
    requires PlainFields(fields)
    ensures forall i :: 0 <= i < |Joined(fields)| ==> !EndsLine(Joined(fields)[i])
  {
    if |fields| > 1 {
      JoinedPlain(fields[..|fields| - 1]);
    }
  }

  /** An address the logger can hold: what inet_ntop writes, digits and dots. */
  predicate AddressText(ip: string) {
    |ip| <= 15 && forall i :: 0 <= i < |ip| ==> IsDigit(ip[i]) || ip[i] == '.'
  }

  predicate LoggedEntry(e: CsvEntry) {
    ValidEntry(e) && AddressText(e.srcIp)
  }

  lemma {:induction false} NumberTextPlain(s: string)
    requires forall i :: 0 <= i < |s| ==> IsDigit(s[i]) || s[i] == '.'
    ensures PlainField(s)
  {
  }

  lemma {:induction false} DigitsPlain(n: nat)
    ensures PlainField(Digits(n))
  {
    hide Digits, AllDigits, PlainField;
    NoDotInDigits(Digits(n));
    NumberTextPlain(Digits(n));
  }

  lemma {:induction false} TimestampPlain(n: nat)
    requires n < TWO_64
    ensures PlainField(TimestampText(n))
  {
    hide TimestampText, PlainField;
    TimestampTextShape(n);
    NumberTextPlain(TimestampText(n));
  }

  lemma {:induction false} LineFieldsPlain(e: CsvEntry, t: CsvType)
    requires LoggedEntry(e)
    ensures PlainFields(LineFields(e, t)) && |LineFields(e, t)| <= 9
  {
    hide TimestampText, Digits, PlainField;
    var f := LineFields(e, t);
    NumberTextPlain(e.srcIp);
    DigitsPlain(e.srcPort);
    DigitsPlain(e.seqNum);
    forall i | 0 <= i < |f| ensures PlainField(f[i]) {
      if i >= 3 {
        TimestampPlain(Stamp(e, PrintedStamps(t)[i - 3]));
        assert f[i] == TimestampText(Stamp(e, PrintedStamps(t)[i - 3]));
      }
    }
  }

  /** The parser undoes the printer on one line. */
  lemma {:induction false} LineParsesBack(e: CsvEntry, t: CsvType)
    requires LoggedEntry(e)
    ensures Fields(Chomp(Line(e, t)), 20) == LineFields(e, t)
  {
    hide LineFields, Joined, Fields, PlainFields, Chomp;
    LineFieldsPlain(e, t);
    JoinedPlain(LineFields(e, t));
    EndingChomped(Joined(LineFields(e, t)), "\n");
    assert LineFields(e, t) != [];
    FieldsOfJoined(LineFields(e, t), 20);
  }

  /** The whole text of a log file. */
  function LogText(es: seq<CsvEntry>, t: CsvType): string {
    Header(t) + Lines(es, t)
  }

  function LineList(es: seq<CsvEntry>, t: CsvType): (lines: seq<string>)
    ensures |lines| == |es|
  {
    seq(|es|, i requires 0 <= i < |es| => Line(es[i], t))
  }

  lemma {:induction false} OneLogLine(e: CsvEntry, t: CsvType, text: string)
    requires LoggedEntry(e)
    ensures ReadLines(Line(e, t) + text) == [Line(e, t)] + ReadLines(text)
  {
    LineBound(e, t);
    LineFieldsPlain(e, t);
    JoinedPlain(LineFields(e, t));
    hide LineFields, Joined, PlainFields, ReadLines;
    var line := Joined(LineFields(e, t));
    assert '\n' !in line;
    ReadOneLine(line, text);
  }

  lemma {:induction false} ReadLogLines(es: seq<CsvEntry>, t: CsvType)
    requires forall i :: 0 <= i < |es| ==> LoggedEntry(es[i])
    ensures ReadLines(Lines(es, t)) == LineList(es, t)
  {
    hide Line, LoggedEntry, ReadLines;
    if es == [] {
      NoLines(t);
    } else {
      LinesAppend([es[0]], es[1..], t);
      assert [es[0]] + es[1..] == es;
      OneLineText(es[0], t);
      OneLogLine(es[0], t, Lines(es[1..], t));
      ReadLogLines(es[1..], t);
      assert LineList(es, t) == [Line(es[0], t)] + LineList(es[1..], t);
    }
  }

  lemma {:induction false} NoLines(t: CsvType)
    ensures ReadLines(Lines([], t)) == []
  {
  }

  lemma {:induction false} OneLineText(e: CsvEntry, t: CsvType)
    ensures Lines([e], t) == Line(e, t)
  {
    hide Line;
    assert [e][..0] == [];
  }

  predicate OneLine(s: string) {
    forall i :: 0 <= i < |s| ==> !EndsLine(s[i])
  }

  lemma {:induction false} OneLineAppend(a: string, b: string)
    requires OneLine(a) && OneLine(b)
    ensures OneLine(a + b)
  {
  }

  lemma {:induction false} KeyIsOneLine()
    ensures OneLine(KEY_COLUMNS)
  {
  }

  lemma {:induction false} ClientColumnsAreOneLine()
    ensures OneLine(",clt_app_tx_tsc_ts,clt_app_tx_ts") && OneLine(",clt_hw_rx_ts,clt_ker_rx_ts")
    ensures OneLine(",clt_app_rx_tsc_ts,clt_app_rx_ts")
  {
  }

  lemma {:induction false} ServerColumnsAreOneLine()
    ensures OneLine(",svr_hw_rx_ts,svr_ker_rx_ts") && OneLine(",svr_app_rx_ts,svr_app_tx_ts")
    ensures OneLine(",svr_app_rx_ts")
  {
  }

  lemma {:induction false} StampsAreOneLine(t: CsvType)
    ensures OneLine(StampColumns(t)) && |StampColumns(t)| <= 100
  {
    if t.ClientMainRoundtrip? {
      ClientColumnsAreOneLine();
      hide OneLine;
      OneLineAppend(",clt_app_tx_tsc_ts,clt_app_tx_ts", ",clt_hw_rx_ts,clt_ker_rx_ts");
      OneLineAppend(",clt_app_tx_tsc_ts,clt_app_tx_ts" + ",clt_hw_rx_ts,clt_ker_rx_ts",
                    ",clt_app_rx_tsc_ts,clt_app_rx_ts");
    } else if t.ServerMainOneway? || t.ServerMainRoundtrip? {
      ServerColumnsAreOneLine();
      hide OneLine;
      OneLineAppend(",svr_hw_rx_ts,svr_ker_rx_ts", ",svr_app_rx_ts");
      OneLineAppend(",svr_hw_rx_ts,svr_ker_rx_ts", ",svr_app_rx_ts,svr_app_tx_ts");
    }
  }

  lemma {:induction false} HeaderIsOneLine(t: CsvType)
    ensures OneLine(HeaderColumns(t)) && |HeaderColumns(t)| <= 150
  {
    hide StampColumns;
    assert |KEY_COLUMNS| == 31;
    hide OneLine;
    KeyIsOneLine();
    StampsAreOneLine(t);
    OneLineAppend(KEY_COLUMNS, StampColumns(t));
  }

  /** fgets reads a log file as its header and its printed lines. */
  lemma {:induction false} ReadLogText(es: seq<CsvEntry>, t: CsvType)
    requires forall i :: 0 <= i < |es| ==> LoggedEntry(es[i])
    ensures ReadLines(LogText(es, t)) == [Header(t)] + LineList(es, t)
  {
    hide HeaderColumns, Lines, LineList, ReadLines, LoggedEntry;
    ReadLogLines(es, t);
    HeaderIsOneLine(t);
    ReadOneLine(HeaderColumns(t), Lines(es, t));
  }
}
