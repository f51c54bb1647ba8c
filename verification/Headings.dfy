// The headings of the logs and of the joined file. Every value of a joined row
// stands under the name it was logged under, and every delta under the names
// of its two ends.
module Headings {
  import opened Bits
  import opened CsvText
  import opened CsvLog
  import opened CsvParse
  import opened CsvRoundTrip
  import opened CsvJoin
  import opened JoinTable
  import opened JoinOutput
  import opened EndToEnd
  import opened TimestampNames

  const KEY_NAMES: seq<string> := ["clt_src_ip", "clt_src_port", "seq_num"]

  /** The timestamp names in a log's heading. */
  function LogNames(t: CsvType): seq<string> {
    match t
    case ClientMainOneway => ["clt_app_tx_ts"]
    case ClientMainRoundtrip =>
      ["clt_app_tx_tsc_ts", "clt_app_tx_ts", "clt_hw_rx_ts", "clt_ker_rx_ts", "clt_app_rx_tsc_ts", "clt_app_rx_ts"]
    case ClientTx => ["clt_ker_tx_ts"]
    case ServerMainOneway => ["svr_hw_rx_ts", "svr_ker_rx_ts", "svr_app_rx_ts"]
    case ServerMainRoundtrip => ["svr_hw_rx_ts", "svr_ker_rx_ts", "svr_app_rx_ts", "svr_app_tx_ts"]
    case ServerTx => ["svr_ker_tx_ts"]
  }

  /** The timestamp names in the joined file's heading. */
  function OutputNames(mode: Mode, target: Target): seq<string> {
    match (mode, target)
    case (OneWay, Client) => ["clt_app_tx_ts", "clt_ker_tx_ts"]
    case (OneWay, Server) => ["svr_hw_rx_ts", "svr_ker_rx_ts", "svr_app_rx_ts"]
    case (OneWay, ClientServer) =>
      ["clt_app_tx_ts", "clt_ker_tx_ts", "svr_hw_rx_ts", "svr_ker_rx_ts", "svr_app_rx_ts"]
    case (RoundTrip, Client) =>
      ["clt_app_tx_tsc_ts", "clt_app_tx_ts", "clt_ker_tx_ts", "clt_hw_rx_ts", "clt_ker_rx_ts", "clt_app_rx_tsc_ts",
       "clt_app_rx_ts"]
    case (RoundTrip, Server) =>
      ["svr_hw_rx_ts", "svr_ker_rx_ts", "svr_app_rx_ts", "svr_app_tx_ts", "svr_ker_tx_ts"]
    case (RoundTrip, ClientServer) =>
      ["clt_app_tx_tsc_ts", "clt_app_tx_ts", "clt_ker_tx_ts", "svr_hw_rx_ts", "svr_ker_rx_ts", "svr_app_rx_ts",
       "svr_app_tx_ts", "svr_ker_tx_ts", "clt_hw_rx_ts", "clt_ker_rx_ts", "clt_app_rx_tsc_ts", "clt_app_rx_ts"]
  }

  const D1_NAME := "delta_d1_" + "clt_app_tx_to_ker_tx" + "_us"
  const D6_NAME := "delta_d6_" + "clt_hw_rx_to_ker_rx" + "_us"
  const D7_NAME := "delta_d7_" + "clt_ker_rx_to_app_rx" + "_us"
  const RTT_D1_NAME := "delta_rtt_d1_" + "clt_app_tx_to_hw_rx" + "_us"
  const RTT_D2_NAME := "delta_rtt_d2_" + "clt_app_tx_to_app_rx" + "_us"
  const RTT_D3_NAME := "delta_rtt_d3_" + "clt_app_tx_tsc_to_app_rx_tsc" + "_us"
  const D2_NAME := "delta_d2_" + "svr_hw_rx_to_ker_rx" + "_us"
  const D3_NAME := "delta_d3_" + "svr_ker_rx_to_app_rx" + "_us"
  const D4_NAME := "delta_d4_" + "svr_app_rx_to_app_tx" + "_us"
  const D5_NAME := "delta_d5_" + "svr_app_tx_to_ker_tx" + "_us"
  const TT_D1_NAME := "delta_tt_d1_" + "svr_hw_rx_to_app_rx" + "_us"
  const TT_D2_NAME := "delta_tt_d2_" + "svr_hw_rx_to_ker_tx" + "_us"
  const NET_OUT_NAME := "delta_net_" + "clt_ker_tx_to_svr_hw_rx" + "_us"
  const NET_BACK_NAME := "delta_net_" + "svr_ker_tx_to_clt_hw_rx" + "_us"

  /** The delta names in the joined file's heading. */
  function OutputDeltaNames(mode: Mode, target: Target): seq<string> {
    match (mode, target)
    case (OneWay, Client) => [D1_NAME]
    case (OneWay, Server) => [D2_NAME, D3_NAME, TT_D1_NAME]
    case (OneWay, ClientServer) => [D1_NAME, D2_NAME, D3_NAME, TT_D1_NAME, NET_OUT_NAME]
    case (RoundTrip, Client) => [D1_NAME, D6_NAME, D7_NAME, RTT_D1_NAME, RTT_D2_NAME, RTT_D3_NAME]
    case (RoundTrip, Server) => [D2_NAME, D3_NAME, D4_NAME, D5_NAME, TT_D1_NAME, TT_D2_NAME]
    case (RoundTrip, ClientServer) =>
      [D1_NAME, D6_NAME, D7_NAME, RTT_D1_NAME, RTT_D2_NAME, RTT_D3_NAME,
       D2_NAME, D3_NAME, D4_NAME, D5_NAME, TT_D1_NAME, TT_D2_NAME, NET_OUT_NAME, NET_BACK_NAME]
  }

  /** `get_output_header_with_deltas`. */
  function OutputHeading(mode: Mode, target: Target): string {
    Joined(KEY_NAMES + OutputNames(mode, target) + OutputDeltaNames(mode, target))
  }

  // ---- Timestamp columns.

  lemma {:induction false} LogNamesAreStamps(t: CsvType)
    ensures |LogNames(t)| == |PrintedStamps(t)|
    ensures forall n :: 0 <= n < |LogNames(t)| ==> LogNames(t)[n] == STAMP_NAMES[PrintedStamps(t)[n]]
  {
  }

  /** The names stand in the order of the columns. */
  ghost predicate NamesFit(names: seq<string>, cols: seq<nat>) {
    && |names| == |cols|
    && forall j :: 0 <= j < |cols| ==> cols[j] < 12 && names[j] == STAMP_NAMES[StampOfColumn(cols[j])]
  }

  lemma {:induction false} OneWayNamesFit(target: Target)
    ensures NamesFit(OutputNames(OneWay, target), OutputColumns(OneWay, target))
  {
  }

  lemma {:induction false} OneSideNamesFit(target: Target)
    requires !target.ClientServer?
    ensures NamesFit(OutputNames(RoundTrip, target), OutputColumns(RoundTrip, target))
  {
  }

  lemma {:induction false} BothSidesNamesFit()
    ensures NamesFit(OutputNames(RoundTrip, ClientServer), OutputColumns(RoundTrip, ClientServer))
  {
  }

  lemma {:induction false} OutputNamesFit(mode: Mode, target: Target)
    ensures NamesFit(OutputNames(mode, target), OutputColumns(mode, target))
  {
    hide NamesFit, OutputNames, OutputColumns;
    OneWayNamesFit(target);
    BothSidesNamesFit();
    if !target.ClientServer? { OneSideNamesFit(target); }
  }

  // ---- Delta columns.

  /** A timestamp name without its suffix. */
  ghost function Stem(name: string): string
    requires |name| > 7
  {
    name[..|name| - 3]
  }

  /** From one timestamp to another; the second without its side when both are on one side. */
  ghost function Ends(from: string, to: string): string
    requires |from| > 7 && |to| > 7
  {
    Stem(from) + "_to_" + if from[0] == to[0] then Stem(to)[4..] else Stem(to)
  }

  /** How a delta column is named: its tag and its two ends. */
  ghost function DeltaName(tag: string, from: string, to: string): string
    requires |from| > 7 && |to| > 7
  {
    "delta_" + tag + "_" + Ends(from, to) + "_us"
  }

  /** A delta's name names its two ends. */
  ghost predicate NamesEnds(name: string, from: string, to: string) {
    |from| > 7 && |to| > 7 && exists tag :: name == DeltaName(tag, from, to)
  }

  /** The tag of a delta. */
  ghost function Tag(d: DeltaDef): string {
    if d == D1 then "d1" else if d == D2 then "d2" else if d == D3 then "d3" else if d == D4 then "d4"
    else if d == D5 then "d5" else if d == D6 then "d6" else if d == D7 then "d7"
    else if d == RTT_D1 then "rtt_d1" else if d == RTT_D2 then "rtt_d2" else if d == RTT_D3 then "rtt_d3"
    else if d == TT_D1 then "tt_d1" else if d == TT_D2 then "tt_d2" else "net"
  }

  lemma {:induction false} NamedByParts(prefix: string, ends: string, tag: string, from: string, to: string)
    requires |from| > 7 && |to| > 7 && prefix == "delta_" + tag + "_" && ends == Ends(from, to)
    ensures prefix + ends + "_us" == DeltaName(tag, from, to)
  {
    hide Ends;
  }

  lemma {:induction false} D1Named()
    ensures D1_NAME == DeltaName("d1", "clt_app_tx_ts", "clt_ker_tx_ts")
  {
    NamedByParts("delta_d1_", "clt_app_tx_to_ker_tx", "d1", "clt_app_tx_ts", "clt_ker_tx_ts");
  }

  lemma {:induction false} D6Named()
    ensures D6_NAME == DeltaName("d6", "clt_hw_rx_ts", "clt_ker_rx_ts")
  {
    NamedByParts("delta_d6_", "clt_hw_rx_to_ker_rx", "d6", "clt_hw_rx_ts", "clt_ker_rx_ts");
  }

  lemma {:induction false} D7Named()
    ensures D7_NAME == DeltaName("d7", "clt_ker_rx_ts", "clt_app_rx_ts")
  {
    NamedByParts("delta_d7_", "clt_ker_rx_to_app_rx", "d7", "clt_ker_rx_ts", "clt_app_rx_ts");
  }

  lemma {:induction false} RttD1Named()
    ensures RTT_D1_NAME == DeltaName("rtt_d1", "clt_app_tx_ts", "clt_hw_rx_ts")
  {
    NamedByParts("delta_rtt_d1_", "clt_app_tx_to_hw_rx", "rtt_d1", "clt_app_tx_ts", "clt_hw_rx_ts");
  }

  lemma {:induction false} RttD2Named()
    ensures RTT_D2_NAME == DeltaName("rtt_d2", "clt_app_tx_ts", "clt_app_rx_ts")
  {
    NamedByParts("delta_rtt_d2_", "clt_app_tx_to_app_rx", "rtt_d2", "clt_app_tx_ts", "clt_app_rx_ts");
  }

  lemma {:induction false} RttD3Named()
    ensures RTT_D3_NAME == DeltaName("rtt_d3", "clt_app_tx_tsc_ts", "clt_app_rx_tsc_ts")
  {
    NamedByParts("delta_rtt_d3_", "clt_app_tx_tsc_to_app_rx_tsc", "rtt_d3", "clt_app_tx_tsc_ts", "clt_app_rx_tsc_ts");
  }

  lemma {:induction false} D2Named()
    ensures D2_NAME == DeltaName("d2", "svr_hw_rx_ts", "svr_ker_rx_ts")
  {
    NamedByParts("delta_d2_", "svr_hw_rx_to_ker_rx", "d2", "svr_hw_rx_ts", "svr_ker_rx_ts");
  }

  lemma {:induction false} D3Named()
    ensures D3_NAME == DeltaName("d3", "svr_ker_rx_ts", "svr_app_rx_ts")
  {
    NamedByParts("delta_d3_", "svr_ker_rx_to_app_rx", "d3", "svr_ker_rx_ts", "svr_app_rx_ts");
  }

  lemma {:induction false} D4Named()
    ensures D4_NAME == DeltaName("d4", "svr_app_rx_ts", "svr_app_tx_ts")
  {
    NamedByParts("delta_d4_", "svr_app_rx_to_app_tx", "d4", "svr_app_rx_ts", "svr_app_tx_ts");
  }

  lemma {:induction false} D5Named()
    ensures D5_NAME == DeltaName("d5", "svr_app_tx_ts", "svr_ker_tx_ts")
  {
    NamedByParts("delta_d5_", "svr_app_tx_to_ker_tx", "d5", "svr_app_tx_ts", "svr_ker_tx_ts");
  }

  lemma {:induction false} TtD1Named()
    ensures TT_D1_NAME == DeltaName("tt_d1", "svr_hw_rx_ts", "svr_app_rx_ts")
  {
    NamedByParts("delta_tt_d1_", "svr_hw_rx_to_app_rx", "tt_d1", "svr_hw_rx_ts", "svr_app_rx_ts");
  }

  lemma {:induction false} TtD2Named()
    ensures TT_D2_NAME == DeltaName("tt_d2", "svr_hw_rx_ts", "svr_ker_tx_ts")
  {
    NamedByParts("delta_tt_d2_", "svr_hw_rx_to_ker_tx", "tt_d2", "svr_hw_rx_ts", "svr_ker_tx_ts");
  }

  lemma {:induction false} NetOutNamed()
    ensures NET_OUT_NAME == DeltaName("net", "clt_ker_tx_ts", "svr_hw_rx_ts")
  {
    NamedByParts("delta_net_", "clt_ker_tx_to_svr_hw_rx", "net", "clt_ker_tx_ts", "svr_hw_rx_ts");
  }

  lemma {:induction false} NetBackNamed()
    ensures NET_BACK_NAME == DeltaName("net", "svr_ker_tx_ts", "clt_hw_rx_ts")
  {
    NamedByParts("delta_net_", "svr_ker_tx_to_clt_hw_rx", "net", "svr_ker_tx_ts", "clt_hw_rx_ts");
  }

  /** A column's name in the universal list. */
  ghost function ColumnName(c: nat): string
    requires c < 12
    ensures |ColumnName(c)| > 7
  {
    Signatures();
    StampOfColumnInRange(c);
    STAMP_NAMES[StampOfColumn(c)]
  }

  /** The delta's heading says which columns it runs between. */
  ghost predicate NamedAfter(name: string, d: DeltaDef) {
    d.a < 12 && d.b < 12 && name == DeltaName(Tag(d), ColumnName(d.a), ColumnName(d.b))
  }

  lemma {:induction false} ColumnNames()
    ensures ColumnName(0) == "clt_app_tx_tsc_ts" && ColumnName(1) == "clt_app_tx_ts" && ColumnName(2) == "clt_ker_tx_ts"
    ensures ColumnName(3) == "svr_hw_rx_ts" && ColumnName(4) == "svr_ker_rx_ts" && ColumnName(5) == "svr_app_rx_ts"
    ensures ColumnName(6) == "svr_app_tx_ts" && ColumnName(7) == "svr_ker_tx_ts" && ColumnName(8) == "clt_hw_rx_ts"
    ensures ColumnName(9) == "clt_ker_rx_ts" && ColumnName(10) == "clt_app_rx_tsc_ts"
    ensures ColumnName(11) == "clt_app_rx_ts"
  {
    hide Signature;
  }

  lemma {:induction false} ClientDeltasNamed()
    ensures NamedAfter(D1_NAME, D1) && NamedAfter(D6_NAME, D6) && NamedAfter(D7_NAME, D7)
    ensures NamedAfter(RTT_D1_NAME, RTT_D1) && NamedAfter(RTT_D2_NAME, RTT_D2) && NamedAfter(RTT_D3_NAME, RTT_D3)
    ensures NamedAfter(NET_OUT_NAME, NET_OUT) && NamedAfter(NET_BACK_NAME, NET_BACK)
  {
    hide DeltaName, ColumnName;
    ColumnNames();
    D1Named();
    D6Named();
    D7Named();
    RttD1Named();
    RttD2Named();
    RttD3Named();
    NetOutNamed();
    NetBackNamed();
  }

  lemma {:induction false} ServerDeltasNamed()
    ensures NamedAfter(D2_NAME, D2) && NamedAfter(D3_NAME, D3) && NamedAfter(D4_NAME, D4) && NamedAfter(D5_NAME, D5)
    ensures NamedAfter(TT_D1_NAME, TT_D1) && NamedAfter(TT_D2_NAME, TT_D2)
  {
    hide DeltaName, ColumnName;
    ColumnNames();
    D2Named();
    D3Named();
    D4Named();
    D5Named();
    TtD1Named();
    TtD2Named();
  }

  /** Both ends of every delta are printed in the same row. */
  lemma {:induction false} EndsPrinted(mode: Mode, target: Target, j: nat)
    requires j < |ModeDeltas(mode, target)|
    ensures ModeDeltas(mode, target)[j].a in OutputColumns(mode, target)
    ensures ModeDeltas(mode, target)[j].b in OutputColumns(mode, target)
  {
  }

  lemma {:induction false} DeltaNamesFit(mode: Mode, target: Target)
    ensures |OutputDeltaNames(mode, target)| == |ModeDeltas(mode, target)|
    ensures forall j :: 0 <= j < |OutputDeltaNames(mode, target)| ==>
      NamedAfter(OutputDeltaNames(mode, target)[j], ModeDeltas(mode, target)[j])
  {
    hide NamedAfter;
    ClientDeltasNamed();
    ServerDeltasNamed();
  }

  // ---- The headings as text.

  lemma {:induction false} PairText(a: string, b: string)
    ensures Joined([a]) == a && Joined([a, b]) == a + "," + b
  {
    assert [a, b][..1] == [a];
  }

  lemma {:induction false} KeyText()
    ensures Joined(KEY_NAMES) == KEY_COLUMNS
  {
    PairText("clt_src_ip", "clt_src_port");
    assert KEY_NAMES[..2] == ["clt_src_ip", "clt_src_port"];
  }

  lemma {:induction false} AppTxText()
    ensures ",clt_app_tx_tsc_ts,clt_app_tx_ts" == "," + Joined(["clt_app_tx_tsc_ts", "clt_app_tx_ts"])
  {
    hide Joined;
    PairText("clt_app_tx_tsc_ts", "clt_app_tx_ts");
  }

  lemma {:induction false} ClientRxText()
    ensures ",clt_hw_rx_ts,clt_ker_rx_ts" == "," + Joined(["clt_hw_rx_ts", "clt_ker_rx_ts"])
  {
    hide Joined;
    PairText("clt_hw_rx_ts", "clt_ker_rx_ts");
  }

  lemma {:induction false} AppRxText()
    ensures ",clt_app_rx_tsc_ts,clt_app_rx_ts" == "," + Joined(["clt_app_rx_tsc_ts", "clt_app_rx_ts"])
  {
    hide Joined;
    PairText("clt_app_rx_tsc_ts", "clt_app_rx_ts");
  }

  lemma {:induction false} ServerRxText()
    ensures ",svr_hw_rx_ts,svr_ker_rx_ts" == "," + Joined(["svr_hw_rx_ts", "svr_ker_rx_ts"])
  {
    hide Joined;
    PairText("svr_hw_rx_ts", "svr_ker_rx_ts");
  }

  lemma {:induction false} ServerAppText()
    ensures ",svr_app_rx_ts,svr_app_tx_ts" == "," + Joined(["svr_app_rx_ts", "svr_app_tx_ts"])
  {
    hide Joined;
    PairText("svr_app_rx_ts", "svr_app_tx_ts");
  }

  lemma {:induction false} SingleText(t: CsvType)
    requires t.ClientMainOneway? || t.ClientTx? || t.ServerTx?
    ensures StampColumns(t) == "," + Joined(LogNames(t))
  {
    hide Joined;
    PairText(LogNames(t)[0], "");
  }

  lemma {:induction false} ServerLastText()
    ensures ",svr_app_rx_ts" == "," + Joined(["svr_app_rx_ts"])
  {
    hide Joined;
    PairText("svr_app_rx_ts", "");
  }

  /** A comma-led text is that of its names. */
  ghost predicate Lists(text: string, names: seq<string>) {
    names != [] && text == "," + Joined(names)
  }

  lemma {:induction false} ListsAppend(a: string, x: seq<string>, b: string, y: seq<string>)
    requires Lists(a, x) && Lists(b, y)
    ensures Lists(a + b, x + y)
  {
    hide Joined;
    JoinedSplit(x, y);
    assert a + b == "," + (Joined(x) + "," + Joined(y));
  }

  lemma {:induction false} LogNamesListed(t: CsvType)
    ensures Lists(StampColumns(t), LogNames(t))
  {
    hide Joined;
    if t.ClientMainRoundtrip? {
      AppTxText();
      ClientRxText();
      AppRxText();
      ListsAppend(",clt_app_tx_tsc_ts,clt_app_tx_ts", ["clt_app_tx_tsc_ts", "clt_app_tx_ts"],
                  ",clt_hw_rx_ts,clt_ker_rx_ts", ["clt_hw_rx_ts", "clt_ker_rx_ts"]);
      ListsAppend(",clt_app_tx_tsc_ts,clt_app_tx_ts" + ",clt_hw_rx_ts,clt_ker_rx_ts",
                  ["clt_app_tx_tsc_ts", "clt_app_tx_ts"] + ["clt_hw_rx_ts", "clt_ker_rx_ts"],
                  ",clt_app_rx_tsc_ts,clt_app_rx_ts", ["clt_app_rx_tsc_ts", "clt_app_rx_ts"]);
      assert LogNames(t) == ["clt_app_tx_tsc_ts", "clt_app_tx_ts"] + ["clt_hw_rx_ts", "clt_ker_rx_ts"]
                            + ["clt_app_rx_tsc_ts", "clt_app_rx_ts"];
    } else if t.ServerMainOneway? {
      ServerRxText();
      ServerLastText();
      ListsAppend(",svr_hw_rx_ts,svr_ker_rx_ts", ["svr_hw_rx_ts", "svr_ker_rx_ts"],
                  ",svr_app_rx_ts", ["svr_app_rx_ts"]);
      assert LogNames(t) == ["svr_hw_rx_ts", "svr_ker_rx_ts"] + ["svr_app_rx_ts"];
    } else if t.ServerMainRoundtrip? {
      ServerRxText();
      ServerAppText();
      ListsAppend(",svr_hw_rx_ts,svr_ker_rx_ts", ["svr_hw_rx_ts", "svr_ker_rx_ts"],
                  ",svr_app_rx_ts,svr_app_tx_ts", ["svr_app_rx_ts", "svr_app_tx_ts"]);
      assert LogNames(t) == ["svr_hw_rx_ts", "svr_ker_rx_ts"] + ["svr_app_rx_ts", "svr_app_tx_ts"];
    } else {
      SingleText(t);
    }
  }

  /** The heading a logger writes is its key names and its timestamp names, joined by commas; each value of a line is
      the timestamp its name says. */
  lemma {:induction false} LogHeading(t: CsvType)
    ensures HeaderColumns(t) == Joined(KEY_NAMES + LogNames(t))
    ensures |LogNames(t)| == |PrintedStamps(t)|
    ensures forall n :: 0 <= n < |LogNames(t)| ==> LogNames(t)[n] == STAMP_NAMES[PrintedStamps(t)[n]]
  {
    hide Joined, LogNames, StampColumns, PrintedStamps;
    KeyText();
    LogNamesListed(t);
    LogNamesAreStamps(t);
    JoinedSplit(KEY_NAMES, LogNames(t));
    assert KEY_COLUMNS + ("," + Joined(LogNames(t))) == KEY_COLUMNS + "," + Joined(LogNames(t));
  }

  // ---- The headings split into names.

  lemma {:induction false} ClientNamesPlain(i: nat)
    requires i < 7
    ensures PlainField(STAMP_NAMES[i])
  {
  }

  lemma {:induction false} ServerNamesPlain(i: nat)
    requires 7 <= i < 12
    ensures PlainField(STAMP_NAMES[i])
  {
  }

  lemma {:induction false} StampNamesPlain(i: nat)
    requires i < 12
    ensures PlainField(STAMP_NAMES[i])
  {
    hide PlainField;
    if i < 7 { ClientNamesPlain(i); } else { ServerNamesPlain(i); }
  }

  lemma {:induction false} KeyNamesPlain()
    ensures PlainFields(KEY_NAMES)
  {
  }

  lemma {:induction false} DeltaNamePlain(tag: string, from: string, to: string)
    requires AllPlain(tag) && PlainField(from) && PlainField(to) && |from| > 7 && |to| > 7
    ensures PlainField(DeltaName(tag, from, to))
  {
    hide PlainChar;
    EndsPlain(from, to);
    hide Ends;
    FixedPartsPlain();
  }

  lemma {:induction false} EndsPlain(from: string, to: string)
    requires PlainField(from) && PlainField(to) && |from| > 7 && |to| > 7
    ensures AllPlain(Ends(from, to))
  {
    hide PlainChar;
    FixedPartsPlain();
  }

  lemma {:induction false} FixedPartsPlain()
    ensures AllPlain("delta_") && AllPlain("_") && AllPlain("_us") && AllPlain("_to_")
    ensures !IsSpace('d') && !IsSpace('s')
  {
  }

  lemma {:induction false} TagPlain(d: DeltaDef)
    ensures AllPlain(Tag(d))
  {
  }

  lemma {:induction false} DeltaNamesPlain(mode: Mode, target: Target)
    ensures PlainFields(OutputDeltaNames(mode, target))
  {
    hide PlainField, OutputDeltaNames, ModeDeltas, AllPlain, DeltaName, Tag, StampOfColumn, Signature;
    DeltaNamesFit(mode, target);
    var names, defs := OutputDeltaNames(mode, target), ModeDeltas(mode, target);
    forall j | 0 <= j < |names| ensures PlainField(names[j]) {
      var d := defs[j];
      TagPlain(d);
      StampOfColumnInRange(d.a);
      StampOfColumnInRange(d.b);
      StampNamesPlain(StampOfColumn(d.a));
      StampNamesPlain(StampOfColumn(d.b));
      DeltaNamePlain(Tag(d), ColumnName(d.a), ColumnName(d.b));
    }
  }

  lemma {:induction false} OutputNamesPlain(mode: Mode, target: Target)
    ensures PlainFields(OutputNames(mode, target))
  {
    hide PlainField, OutputNames, OutputColumns;
    OutputNamesFit(mode, target);
    var names, cols := OutputNames(mode, target), OutputColumns(mode, target);
    forall j | 0 <= j < |names| ensures PlainField(names[j]) {
      StampNamesPlain(StampOfColumn(cols[j]));
    }
  }

  lemma {:induction false} NamesPlain(mode: Mode, target: Target)
    ensures PlainFields(KEY_NAMES + OutputNames(mode, target) + OutputDeltaNames(mode, target))
  {
    hide PlainField, OutputNames, OutputDeltaNames;
    KeyNamesPlain();
    OutputNamesPlain(mode, target);
    DeltaNamesPlain(mode, target);
  }

  /** Splitting the joined file's heading gives its names. */
  lemma {:induction false} OutputHeadingSplits(mode: Mode, target: Target, limit: nat)
    ensures Fields(OutputHeading(mode, target), limit)
      == FirstN(KEY_NAMES + OutputNames(mode, target) + OutputDeltaNames(mode, target), limit)
  {
    hide PlainFields, Fields, OutputNames, OutputDeltaNames, Joined, FirstN;
    NamesPlain(mode, target);
    FieldsOfJoined(KEY_NAMES + OutputNames(mode, target) + OutputDeltaNames(mode, target), limit);
  }

  /** So does splitting a log's. */
  lemma {:induction false} LogHeadingSplits(t: CsvType, limit: nat)
    ensures Fields(HeaderColumns(t), limit) == FirstN(KEY_NAMES + LogNames(t), limit)
  {
    hide PlainField, Fields, LogNames, Joined, FirstN, HeaderColumns, PrintedStamps;
    KeyNamesPlain();
    LogNamesAreStamps(t);
    forall n | 0 <= n < |LogNames(t)| ensures PlainField(LogNames(t)[n]) {
      StampNamesPlain(PrintedStamps(t)[n]);
    }
    LogHeading(t);
    FieldsOfJoined(KEY_NAMES + LogNames(t), limit);
  }

  // ---- Values stand under their names.

  lemma {:induction false} StampOfColumnInjective(c: nat, d: nat)
    requires c < 12 && d < 12 && StampOfColumn(c) == StampOfColumn(d)
    ensures c == d
  {
  }

  lemma {:induction false} StampOfColumnInRange(c: nat)
    requires c < 12
    ensures StampOfColumn(c) < 12
  {
  }

  /** The record column a log's name goes to. */
  lemma {:induction false} NamedColumn(t: CsvType, n: nat, c: nat)
    requires n < |LogNames(t)| && c < 12
    ensures StampOfColumn(c) < 12
    ensures |Supplies(FileTypeOf(t))| == |LogNames(t)| == |PrintedStamps(t)|
    ensures LogNames(t)[n] == STAMP_NAMES[StampOfColumn(c)] <==> Supplies(FileTypeOf(t))[n] == c
    ensures LogNames(t)[n] == STAMP_NAMES[StampOfColumn(c)] <==> PrintedStamps(t)[n] == StampOfColumn(c)
  {
    hide LogNames, Supplies, FileTypeOf, StampOfColumn, PrintedStamps;
    LogNamesAreStamps(t);
    ColumnsAgree(t);
    StampOfColumnInRange(c);
    if LogNames(t)[n] == STAMP_NAMES[StampOfColumn(c)] {
      NamesDiffer(PrintedStamps(t)[n], StampOfColumn(c));
      StampOfColumnInjective(Supplies(FileTypeOf(t))[n], c);
    }
  }

  /** No other log has a column of that name. */
  ghost predicate OnlyLog(logs: seq<Log>, f: nat, name: string)
    requires f < |logs|
  {
    forall g :: 0 <= g < |logs| && g != f ==> name !in LogNames(logs[g].csvType)
  }

  lemma {:induction false} NotNamedNotSupplied(t: CsvType, c: nat)
    requires c < 12 && StampOfColumn(c) < 12 && STAMP_NAMES[StampOfColumn(c)] !in LogNames(t)
    ensures c !in Supplies(FileTypeOf(t))
  {
    hide LogNames, Supplies, FileTypeOf, StampOfColumn, PrintedStamps;
    ColumnsAgree(t);
    LogNamesAreStamps(t);
    forall m | 0 <= m < |LogNames(t)| ensures Supplies(FileTypeOf(t))[m] != c {
      NamedColumn(t, m, c);
    }
  }

  lemma {:induction false} NameHasOneSupplier(logs: seq<Log>, f: nat, n: nat, c: nat)
    requires f < |logs| && n < |LogNames(logs[f].csvType)| && c < 12
    requires StampOfColumn(c) < 12 && LogNames(logs[f].csvType)[n] == STAMP_NAMES[StampOfColumn(c)]
    requires OnlyLog(logs, f, STAMP_NAMES[StampOfColumn(c)])
    ensures OnlySupplier(logs, f, c)
  {
    hide LogNames, Supplies, FileTypeOf, StampOfColumn, PrintedStamps;
    NamedColumn(logs[f].csvType, n, c);
    forall g | 0 <= g < |logs| && g != f ensures c !in Supplies(FileTypeOf(logs[g].csvType)) {
      NotNamedNotSupplied(logs[g].csvType, c);
    }
  }

  /** What the joined file prints under a timestamp name is what the log printed under that name, for the same sequence
      number: character by character, and to the nanosecond of the timestamp so named. */
  lemma {:induction false} ValueUnderItsName(logs: seq<Log>, ip: string, port: nat, records: seq<Record>,
                                             i: nat, f: nat, k: nat, mode: Mode, target: Target,
                                             x: nat, y: nat, s: nat, limit: nat)
    requires GoodLogs(logs) && port < 0x1_0000 && AddressText(ip)
    requires IsJoin(FilesOf(logs), ip, port, records) && i < |records|
    requires f < |logs| && k < |logs[f].entries| && DistinctTargets(logs[f], ip, port)
    requires IsTarget(logs[f].entries[k], ip, port) && logs[f].entries[k].seqNum == records[i].seqNum
    requires 3 <= x < |Fields(OutputHeading(mode, target), limit)| && x < 3 + |OutputNames(mode, target)|
    requires 3 <= y < |Fields(HeaderColumns(logs[f].csvType), 20)| && s < 12
    requires Fields(OutputHeading(mode, target), limit)[x] == Fields(HeaderColumns(logs[f].csvType), 20)[y]
          == STAMP_NAMES[s]
    requires OnlyLog(logs, f, STAMP_NAMES[s])
    ensures |records[i].timestamps| == 20
    ensures var row, line := Fields(OutputLine(records[i], ip, port, mode, target), limit),
          Fields(Chomp(Line(logs[f].entries[k], logs[f].csvType)), 20);
      && x < |row| && y < |line| && row[..3] == line[..3] && row[x] == line[y]
      && TimestampNs(row[x]) == Stamp(logs[f].entries[k], s)
  {
    hide IsJoin, FilesOf, GoodLogs, Fields, DistinctTargets, OnlyLog, OnlySupplier, Stamp, StampOfColumn,
      OutputColumns, OutputNames, OutputDeltaNames, LogNames, PrintedStamps, Supplies, FileTypeOf, ModeDeltas,
      DeltaTexts, TimestampNs, TimestampText, AddressText, Digits, OutputHeading, OutputLine, HeaderColumns, Line,
      Chomp, LoggedEntry, NamesFit;
    var e, t, j, n := logs[f].entries[k], logs[f].csvType, x - 3, y - 3;
    OutputHeadingSplits(mode, target, limit);
    LogHeadingSplits(t, 20);
    ColumnOfName(mode, target, j);
    var c := OutputColumns(mode, target)[j];
    NameHasOneSupplier(logs, f, n, c);
    OutputLineSplits(logs, ip, port, records, i, mode, target, limit);
    TimestampJoined(logs, ip, port, records, i, f, k, c);
    NamedColumn(t, n, c);
    GoodEntry(logs, f, k);
    LineParsesBack(e, t);
    NamesDiffer(s, StampOfColumn(c));
  }

  lemma {:induction false} ColumnOfName(mode: Mode, target: Target, j: nat)
    requires j < |OutputNames(mode, target)|
    ensures j < |OutputColumns(mode, target)|
    ensures var c := OutputColumns(mode, target)[j];
      c < 12 && StampOfColumn(c) < 12 && OutputNames(mode, target)[j] == STAMP_NAMES[StampOfColumn(c)]
  {
    hide OutputNames, OutputColumns, StampOfColumn;
    OutputNamesFit(mode, target);
    StampOfColumnInRange(OutputColumns(mode, target)[j]);
  }

  lemma {:induction false} GoodEntry(logs: seq<Log>, f: nat, k: nat)
    requires GoodLogs(logs) && f < |logs| && k < |logs[f].entries|
    ensures LoggedEntry(logs[f].entries[k])
  {
  }

  lemma {:induction false} NeverSupplied(logs: seq<Log>, ip: string, port: nat, sources: seq<Source>, q: nat, c: nat)
    requires GoodLogs(logs) && port < 0x1_0000 && c < 12
    requires forall m :: 0 <= m < |sources| ==> sources[m] in AllSources(FilesOf(logs), ip, port)
    requires forall g :: 0 <= g < |logs| ==> c !in Supplies(FileTypeOf(logs[g].csvType))
    ensures LastSupply(sources, q, c) == "NULL"
  {
    hide AllSources, FilesOf, GoodLogs, Supplies, FileTypeOf, ValueFrom, IsTarget, EntryRow;
    if sources != [] {
      var m := |sources| - 1;
      NeverSupplied(logs, ip, port, sources[..m], q, c);
      var f, k := SourceIsEntry(logs, ip, port, sources[m]);
    }
  }

  /** Under a name that no log has, the joined file prints NULL. */
  lemma {:induction false} NullUnderMissingName(logs: seq<Log>, ip: string, port: nat, records: seq<Record>, i: nat,
                                                mode: Mode, target: Target, x: nat, limit: nat)
    requires GoodLogs(logs) && port < 0x1_0000 && AddressText(ip)
    requires IsJoin(FilesOf(logs), ip, port, records) && i < |records|
    requires 3 <= x < |Fields(OutputHeading(mode, target), limit)| && x < 3 + |OutputNames(mode, target)|
    requires forall g :: 0 <= g < |logs| ==>
      Fields(OutputHeading(mode, target), limit)[x] !in LogNames(logs[g].csvType)
    ensures |records[i].timestamps| == 20
    ensures var row := Fields(OutputLine(records[i], ip, port, mode, target), limit);
      x < |row| && row[x] == "NULL"
  {
    hide AllSources, FilesOf, GoodLogs, Fields, StampOfColumn, OutputColumns, OutputNames, OutputDeltaNames, LogNames,
      Supplies, FileTypeOf, ModeDeltas, DeltaTexts, LastSupply, InEvery, AddressText, Digits, OutputHeading, OutputLine;
    OutputHeadingSplits(mode, target, limit);
    OutputLineSplits(logs, ip, port, records, i, mode, target, limit);
    ColumnOfName(mode, target, x - 3);
    var c := OutputColumns(mode, target)[x - 3];
    forall g | 0 <= g < |logs| ensures c !in Supplies(FileTypeOf(logs[g].csvType)) {
      NotNamedNotSupplied(logs[g].csvType, c);
    }
    NeverSupplied(logs, ip, port, AllSources(FilesOf(logs), ip, port), records[i].seqNum, c);
    SameLength(mode, target);
    assert records[i].timestamps[c] == LastSupply(AllSources(FilesOf(logs), ip, port), records[i].seqNum, c);
  }

  // ---- Deltas stand under the names of their ends.

  /** A delta is printed under the names of two timestamps of its own row, and is NULL unless the first is there and
      earlier than the second; otherwise their exact difference, in microseconds with three decimals. */
  lemma {:induction false} DeltaUnderItsName(logs: seq<Log>, ip: string, port: nat, records: seq<Record>, i: nat,
                                             mode: Mode, target: Target, n: nat, limit: nat)
      returns (x: nat, y: nat)
    requires GoodLogs(logs) && port < 0x1_0000 && AddressText(ip)
    requires IsJoin(FilesOf(logs), ip, port, records) && i < |records|
    requires 3 + |OutputNames(mode, target)| <= n < |Fields(OutputHeading(mode, target), limit)|
    ensures |records[i].timestamps| == 20
    ensures var heading, row := Fields(OutputHeading(mode, target), limit),
          Fields(OutputLine(records[i], ip, port, mode, target), limit);
      && |row| == |heading| && 3 <= x < 3 + |OutputNames(mode, target)| && 3 <= y < 3 + |OutputNames(mode, target)|
      && NamesEnds(heading[n], heading[x], heading[y])
      && (row[n] == "NULL" <==> !(0 < TimestampNs(row[x]) < TimestampNs(row[y])))
      && (row[x] == "NULL" || row[y] == "NULL" ==> row[n] == "NULL")
      && (0 < TimestampNs(row[x]) < TimestampNs(row[y]) < TimestampNs(row[x]) + 4_294_967_296_000 ==>
            TimestampNs(row[n]) == (TimestampNs(row[y]) - TimestampNs(row[x])) * 1_000_000)
  {
    hide IsJoin, FilesOf, GoodLogs, Fields, OutputColumns, OutputNames, OutputDeltaNames, ModeDeltas, TimestampNs,
      AddressText, OutputHeading, OutputLine, NamesEnds;
    SameLength(mode, target);
    OutputHeadingSplits(mode, target, limit);
    x, y := DeltaEnds(mode, target, n - 3 - |OutputNames(mode, target)|);
    DeltaOfEnds(logs, ip, port, records, i, mode, target, n, x, y, limit);
  }

  /** The two timestamp columns a delta column is named after. */
  lemma {:induction false} DeltaEnds(mode: Mode, target: Target, j: nat) returns (x: nat, y: nat)
    requires j < |OutputDeltaNames(mode, target)|
    ensures |OutputNames(mode, target)| == |OutputColumns(mode, target)| && j < |ModeDeltas(mode, target)|
    ensures 3 <= x < 3 + |OutputNames(mode, target)| && 3 <= y < 3 + |OutputNames(mode, target)|
    ensures OutputColumns(mode, target)[x - 3] == ModeDeltas(mode, target)[j].a
    ensures OutputColumns(mode, target)[y - 3] == ModeDeltas(mode, target)[j].b
    ensures var names := OutputNames(mode, target);
      NamesEnds(OutputDeltaNames(mode, target)[j], names[x - 3], names[y - 3])
  {
    hide OutputColumns, OutputNames, OutputDeltaNames, ModeDeltas, NamesEnds, IndexOf, NamedAfter;
    DeltaNamesFit(mode, target);
    SameLength(mode, target);
    EndsPrinted(mode, target, j);
    var cols, d := OutputColumns(mode, target), ModeDeltas(mode, target)[j];
    SuppliedIndex(cols, d.a);
    SuppliedIndex(cols, d.b);
    x, y := 3 + IndexOf(cols, d.a), 3 + IndexOf(cols, d.b);
    NamedByColumns(mode, target, d, OutputDeltaNames(mode, target)[j], x - 3, y - 3);
  }

  lemma {:induction false} DeltaOfEnds(logs: seq<Log>, ip: string, port: nat, records: seq<Record>, i: nat,
                                       mode: Mode, target: Target, n: nat, x: nat, y: nat, limit: nat)
    requires GoodLogs(logs) && port < 0x1_0000 && AddressText(ip)
    requires IsJoin(FilesOf(logs), ip, port, records) && i < |records|
    requires var c := |OutputColumns(mode, target)|;
      && 3 + c <= n < 3 + c + |ModeDeltas(mode, target)| && n < limit && 3 <= x < 3 + c && 3 <= y < 3 + c
      && OutputColumns(mode, target)[x - 3] == ModeDeltas(mode, target)[n - 3 - c].a
      && OutputColumns(mode, target)[y - 3] == ModeDeltas(mode, target)[n - 3 - c].b
    ensures |records[i].timestamps| == 20
    ensures var row, whole := Fields(OutputLine(records[i], ip, port, mode, target), limit),
          3 + |OutputColumns(mode, target)| + |ModeDeltas(mode, target)|;
      && |row| == (if whole < limit then whole else limit)
      && (row[n] == "NULL" <==> !(0 < TimestampNs(row[x]) < TimestampNs(row[y])))
      && (row[x] == "NULL" || row[y] == "NULL" ==> row[n] == "NULL")
      && (0 < TimestampNs(row[x]) < TimestampNs(row[y]) < TimestampNs(row[x]) + 4_294_967_296_000 ==>
            TimestampNs(row[n]) == (TimestampNs(row[y]) - TimestampNs(row[x])) * 1_000_000)
  {
    hide IsJoin, FilesOf, GoodLogs, Fields, OutputColumns, ModeDeltas, TimestampNs, AddressText, Digits, OutputLine;
    RowTexts(logs, ip, port, records, i, mode, target, x, limit);
    RowTexts(logs, ip, port, records, i, mode, target, y, limit);
    DeltaColumnSurvives(logs, ip, port, records, i, mode, target, n - 3 - |OutputColumns(mode, target)|, limit);
    NullIsZero();
  }

  /** A joined row has as many fields as fit, and its timestamp fields are its record's columns. */
  lemma {:induction false} RowTexts(logs: seq<Log>, ip: string, port: nat, records: seq<Record>, i: nat,
                                    mode: Mode, target: Target, x: nat, limit: nat)
    requires GoodLogs(logs) && port < 0x1_0000 && AddressText(ip)
    requires IsJoin(FilesOf(logs), ip, port, records) && i < |records|
    requires 3 <= x < 3 + |OutputColumns(mode, target)| && x < limit
    ensures |records[i].timestamps| == 20
    ensures var row, whole := Fields(OutputLine(records[i], ip, port, mode, target), limit),
          3 + |OutputColumns(mode, target)| + |ModeDeltas(mode, target)|;
      && |row| == (if whole < limit then whole else limit)
      && row[x] == records[i].timestamps[OutputColumns(mode, target)[x - 3]]
  {
    hide IsJoin, FilesOf, GoodLogs, Fields, OutputColumns, ModeDeltas, AddressText, Digits, OutputLine;
    OutputLineSplits(logs, ip, port, records, i, mode, target, limit);
  }

  lemma {:induction false} SameLength(mode: Mode, target: Target)
    ensures |OutputNames(mode, target)| == |OutputColumns(mode, target)|
    ensures |OutputDeltaNames(mode, target)| == |ModeDeltas(mode, target)|
  {
    hide OutputNames, OutputColumns, OutputDeltaNames, ModeDeltas, NamedAfter;
    OutputNamesFit(mode, target);
    DeltaNamesFit(mode, target);
  }

  lemma {:induction false} NamedByColumns(mode: Mode, target: Target, d: DeltaDef, name: string, x: nat, y: nat)
    requires NamedAfter(name, d) && x < |OutputColumns(mode, target)| && y < |OutputColumns(mode, target)|
    requires OutputColumns(mode, target)[x] == d.a && OutputColumns(mode, target)[y] == d.b
    ensures x < |OutputNames(mode, target)| && y < |OutputNames(mode, target)|
    ensures var names := OutputNames(mode, target);
      NamesEnds(name, names[x], names[y])
  {
    hide OutputNames, OutputColumns, DeltaName, Tag, Signature;
    OutputNamesFit(mode, target);
    assert name == DeltaName(Tag(d), OutputNames(mode, target)[x], OutputNames(mode, target)[y]);
  }

  // ---- The joined file.

  function RowLines(records: seq<Record>, ip: string, port: nat, mode: Mode, target: Target): seq<string>
    requires forall i :: 0 <= i < |records| ==> |records[i].timestamps| == 20
  {
    if records == [] then []
    else [OutputLine(records[0], ip, port, mode, target) + "\n"] + RowLines(records[1..], ip, port, mode, target)
  }

  /** `write_output_csv`: the heading and one line per record. */
  function OutputText(records: seq<Record>, ip: string, port: nat, mode: Mode, target: Target): string
    requires forall i :: 0 <= i < |records| ==> |records[i].timestamps| == 20
  {
    OutputHeading(mode, target) + "\n" + Together(RowLines(records, ip, port, mode, target))
  }

  lemma {:induction false} StampNamesShort(mode: Mode, target: Target)
    ensures |OutputNames(mode, target)| <= 12
    ensures forall n :: 0 <= n < |OutputNames(mode, target)| ==> |OutputNames(mode, target)[n]| <= 44
  {
  }

  lemma {:induction false} DeltaNamesShort(mode: Mode, target: Target)
    ensures |OutputDeltaNames(mode, target)| <= 14
    ensures forall n :: 0 <= n < |OutputDeltaNames(mode, target)| ==> |OutputDeltaNames(mode, target)[n]| <= 44
  {
  }

  lemma {:induction false} NoNulInPlain(fields: seq<string>)
    requires PlainFields(fields)
    ensures forall n :: 0 <= n < |fields| ==> '\0' !in fields[n]
  {
    forall n | 0 <= n < |fields| ensures '\0' !in fields[n] {
      assert PlainField(fields[n]);
    }
  }

  lemma {:induction false} HeadingIsOneLine(mode: Mode, target: Target)
    ensures '\n' !in OutputHeading(mode, target) && |OutputHeading(mode, target)| <= 2046
  {
    hide PlainField, OutputNames, OutputDeltaNames, Joined;
    var names := KEY_NAMES + OutputNames(mode, target) + OutputDeltaNames(mode, target);
    NamesPlain(mode, target);
    StampNamesShort(mode, target);
    DeltaNamesShort(mode, target);
    NoNulInPlain(names);
    JoinedBound(names, 44);
    JoinedPlain(names);
    assert |names| * 45 <= 29 * 45;
  }

  lemma {:induction false} RowIsOneLine(logs: seq<Log>, ip: string, port: nat, records: seq<Record>, i: nat,
                                        mode: Mode, target: Target)
    requires GoodLogs(logs) && port < 0x1_0000 && AddressText(ip)
    requires IsJoin(FilesOf(logs), ip, port, records) && i < |records| && Printable(records[i], ip, port)
    ensures var line := OutputLine(records[i], ip, port, mode, target); '\n' !in line && |line| <= 2046
  {
    hide IsJoin, FilesOf, GoodLogs, PlainField, Joined, Printable, KeyTexts, ColumnTexts, DeltaTexts, OutputColumns,
      ModeDeltas;
    PrintableRecord(records[i], ip, port);
    var fields := OutputFields(records[i], ip, port, mode, target);
    OutputFieldsPlain(logs, ip, port, records, i, mode, target);
    OutputFieldsShort(records[i], ip, port, mode, target);
    JoinedBound(fields, 31);
    JoinedPlain(fields);
    assert |fields| * 32 <= 29 * 32;
  }

  lemma {:induction false} RowsReadBack(logs: seq<Log>, ip: string, port: nat, records: seq<Record>, n: nat,
                                        mode: Mode, target: Target)
    requires GoodLogs(logs) && port < 0x1_0000 && AddressText(ip)
    requires IsJoin(FilesOf(logs), ip, port, records) && n <= |records|
    requires forall i :: 0 <= i < |records| ==> Printable(records[i], ip, port)
    ensures forall i :: 0 <= i < |records| ==> |records[i].timestamps| == 20
    ensures ReadLines(Together(RowLines(records[n..], ip, port, mode, target)))
      == RowLines(records[n..], ip, port, mode, target)
    decreases |records| - n
  {
    hide FilesOf, GoodLogs, OutputLine, ReadLines, AddressText, InEvery, LastSupply, AllSources;
    if n < |records| {
      RowIsOneLine(logs, ip, port, records, n, mode, target);
      RowsReadBack(logs, ip, port, records, n + 1, mode, target);
      assert records[n..][1..] == records[n + 1..];
      var rest := RowLines(records[n + 1..], ip, port, mode, target);
      ReadOneLine(OutputLine(records[n], ip, port, mode, target), Together(rest));
      assert RowLines(records[n..], ip, port, mode, target)[1..] == rest;
    } else {
      assert records[n..] == [];
      NothingToRead();
    }
  }

  lemma {:induction false} NothingToRead()
    ensures ReadLines("") == []
  {
  }

  /** The joined file is read back as its heading and one line per record, in order. */
  lemma {:induction false} OutputReadsBack(logs: seq<Log>, ip: string, port: nat, records: seq<Record>,
                                           mode: Mode, target: Target)
    requires GoodLogs(logs) && port < 0x1_0000 && AddressText(ip) && IsJoin(FilesOf(logs), ip, port, records)
    requires forall i :: 0 <= i < |records| ==> Printable(records[i], ip, port)
    ensures forall i :: 0 <= i < |records| ==> |records[i].timestamps| == 20
    ensures ReadLines(OutputText(records, ip, port, mode, target))
      == [OutputHeading(mode, target) + "\n"] + RowLines(records, ip, port, mode, target)
  {
    hide FilesOf, GoodLogs, OutputLine, ReadLines, AddressText, OutputHeading, RowLines, Printable, InEvery, LastSupply,
      AllSources;
    RowsReadBack(logs, ip, port, records, 0, mode, target);
    assert records[0..] == records;
    HeadingIsOneLine(mode, target);
    ReadOneLine(OutputHeading(mode, target), Together(RowLines(records, ip, port, mode, target)));
  }
}
