// The rows the join writes: key, timestamp columns, and the fixed-point delta
// columns, whole microseconds with three nanosecond digits.
module JoinOutput {
  import opened Bits
  import opened CsvText
  import opened CsvLog
  import opened CsvRoundTrip
  import opened JoinTable

  datatype Mode = OneWay | RoundTrip
  datatype Target = Client | Server | ClientServer

  /** Record columns in the order `format_output_record` prints them. */
  function OutputColumns(mode: Mode, target: Target): (cols: seq<nat>)
    ensures 2 <= |cols| <= 12 && forall i :: 0 <= i < |cols| ==> cols[i] < 12
  {
    match (mode, target)
    case (OneWay, Client) => [1, 2]
    case (OneWay, Server) => [3, 4, 5]
    case (OneWay, ClientServer) => [1, 2, 3, 4, 5]
    case (RoundTrip, Client) => [0, 1, 2, 8, 9, 10, 11]
    case (RoundTrip, Server) => [3, 4, 5, 6, 7]
    case (RoundTrip, ClientServer) => [0, 1, 2, 3, 4, 5, 6, 7, 8, 9, 10, 11]
  }

  /** A delta column runs from one record column to another. */
  datatype DeltaDef = DeltaDef(a: nat, b: nat)

  // Client: D1, D6, D7, RTT D1, RTT D2, RTT D3. Server: D2, D3, D4, D5, TT D1, TT D2. Network: out, back.
  const D1 := DeltaDef(1, 2)
  const D6 := DeltaDef(8, 9)
  const D7 := DeltaDef(9, 11)
  const RTT_D1 := DeltaDef(1, 8)
  const RTT_D2 := DeltaDef(1, 11)
  const RTT_D3 := DeltaDef(0, 10)
  const D2 := DeltaDef(3, 4)
  const D3 := DeltaDef(4, 5)
  const D4 := DeltaDef(5, 6)
  const D5 := DeltaDef(6, 7)
  const TT_D1 := DeltaDef(3, 5)
  const TT_D2 := DeltaDef(3, 7)
  const NET_OUT := DeltaDef(2, 3)
  const NET_BACK := DeltaDef(7, 8)

  /** The delta columns of each mode and target. */
  function ModeDeltas(mode: Mode, target: Target): (defs: seq<DeltaDef>)
    ensures |defs| <= 14 && forall i :: 0 <= i < |defs| ==> defs[i].a < 12 && defs[i].b < 12
  {
    match (mode, target)
    case (OneWay, Client) => [D1]
    case (RoundTrip, Client) => [D1, D6, D7, RTT_D1, RTT_D2, RTT_D3]
    case (OneWay, Server) => [D2, D3, TT_D1]
    case (RoundTrip, Server) => [D2, D3, D4, D5, TT_D1, TT_D2]
    case (OneWay, ClientServer) => [D1, D2, D3, TT_D1, NET_OUT]
    case (RoundTrip, ClientServer) =>
      [D1, D6, D7, RTT_D1, RTT_D2, RTT_D3, D2, D3, D4, D5, TT_D1, TT_D2, NET_OUT, NET_BACK]
  }

  /** `delta_result_t`. */
  datatype Delta = Delta(wholeUs: nat, fracNs: nat, valid: bool)

  /** `calculate_delta_fast`, the whole part cast to uint32. */
  function CalculateDelta(a: nat, b: nat): Delta {
    if a == 0 || b == 0 || b <= a then Delta(0, 0, false)
    else Delta(Wrap32((b - a) / 1000), (b - a) % 1000, true)
  }

  /** The nanoseconds a printed delta stands for. */
  function DeltaNs(d: Delta): nat { d.wholeUs * 1000 + d.fracNs }

  /** `format_delta_to_buffer`: NULL or `%u.%03u`. */
  function DeltaText(d: Delta): string {
    if !d.valid then "NULL" else Digits(d.wholeUs) + "." + ZeroPadded(d.fracNs, 3)
  }

  /** The value of a record column. */
  function ColumnNs(r: Record, c: nat): nat
    requires c < |r.timestamps|
  {
    TimestampNs(r.timestamps[c])
  }

  function RecordDelta(r: Record, d: DeltaDef): Delta
    requires d.a < |r.timestamps| && d.b < |r.timestamps|
  {
    CalculateDelta(ColumnNs(r, d.a), ColumnNs(r, d.b))
  }

  // ---- Deltas are exact and telescope.

  /** A delta is NULL unless 0 < a < b; otherwise it is b - a modulo 2^32 microseconds, so exact just below that. */
  lemma {:induction false} DeltaExact(a: nat, b: nat)
    ensures CalculateDelta(a, b).valid <==> 0 < a < b
    ensures a < b && a > 0 ==> DeltaNs(CalculateDelta(a, b)) == (b - a) % 4_294_967_296_000
    ensures a < b && a > 0 ==> (DeltaNs(CalculateDelta(a, b)) == b - a <==> b - a < 4_294_967_296_000)
  {
  }

  /** The printed delta, read as decimal microseconds at nine digits, is the difference in nanoseconds times 10^6. */
  lemma {:induction false} DeltaTextExact(a: nat, b: nat)
    requires 0 < a < b && b - a < 4_294_967_296_000
    ensures TimestampNs(DeltaText(CalculateDelta(a, b))) == (b - a) * 1_000_000
  {
    var d := CalculateDelta(a, b);
    hide TimestampNs, ZeroPadded, Digits, Value;
    ValueOfDigits(d.wholeUs);
    ThreeDigits(d.fracNs);
    DecimalParse(Digits(d.wholeUs), ZeroPadded(d.fracNs, 3));
  }

  lemma {:induction false} ThreeDigits(n: nat)
    requires n < 1000
    ensures var f := ZeroPadded(n, 3); |f| == 3 && AllDigits(f) && Value(NineDigits(f)) == n * 1_000_000
  {
    hide ZeroPadded, Digits, Value, NineDigits;
    Pow10Values();
    assert Pow10(3) == 1000;
    ZeroPaddedValue(n, 3);
    NineDigitsScale(ZeroPadded(n, 3));
  }

  /** Along increasing points, the deltas between neighbours add up to the delta of the ends. */
  ghost function DeltaSum(points: seq<nat>): nat {
    if |points| < 2 then 0
    else DeltaNs(CalculateDelta(points[0], points[1])) + DeltaSum(points[1..])
  }

  ghost predicate AllHopsValid(points: seq<nat>) {
    forall i :: 0 <= i < |points| - 1 ==> CalculateDelta(points[i], points[i + 1]).valid
  }

  lemma {:induction false} DeltasTelescope(points: seq<nat>)
    requires |points| >= 2 && AllHopsValid(points)
    ensures var ends := CalculateDelta(points[0], points[|points| - 1]);
      && ends.valid
      && (points[|points| - 1] - points[0] < 4_294_967_296_000 ==> DeltaNs(ends) == DeltaSum(points))
  {
    var n := |points| - 1;
    DeltaExact(points[0], points[1]);
    DeltaExact(points[0], points[n]);
    hide CalculateDelta, DeltaNs;
    if n > 1 {
      var rest := points[1..];
      assert AllHopsValid(rest) by {
        forall i | 0 <= i < |rest| - 1 ensures CalculateDelta(rest[i], rest[i + 1]).valid {
          assert CalculateDelta(points[i + 1], points[i + 1 + 1]).valid;
        }
      }
      DeltasTelescope(rest);
      DeltaExact(points[1], points[n]);
      DeltaExact(points[0], points[n]);
    } else {
      assert DeltaSum(points[1..]) == 0;
    }
  }

  /** The difference between two record columns stays below 2^32 microseconds. */
  ghost predicate Short(r: Record, d: DeltaDef)
    requires d.a < |r.timestamps| && d.b < |r.timestamps|
  {
    ColumnNs(r, d.b) - ColumnNs(r, d.a) < 4_294_967_296_000
  }

  lemma {:induction false} TwoHops(x: nat, y: nat, z: nat)
    ensures var p, q, e := CalculateDelta(x, y), CalculateDelta(y, z), CalculateDelta(x, z);
      p.valid && q.valid && z - x < 4_294_967_296_000 ==> e.valid && DeltaNs(e) == DeltaNs(p) + DeltaNs(q)
  {
    if CalculateDelta(x, y).valid && CalculateDelta(y, z).valid {
      DeltasTelescope([x, y, z]);
      assert [x, y, z][1..] == [y, z] && [y, z][1..] == [z];
    }
  }

  ghost predicate Valid(r: Record, d: DeltaDef)
    requires d.a < |r.timestamps| && d.b < |r.timestamps|
  {
    RecordDelta(r, d).valid
  }

  ghost function Ns(r: Record, d: DeltaDef): nat
    requires d.a < |r.timestamps| && d.b < |r.timestamps|
  {
    DeltaNs(RecordDelta(r, d))
  }

  /** TT D1 = D2 + D3. */
  lemma {:induction false} ServerColumnsTelescope(r: Record)
    requires |r.timestamps| == 20 && Valid(r, D2) && Valid(r, D3) && Short(r, TT_D1)
    ensures Valid(r, TT_D1) && Ns(r, TT_D1) == Ns(r, D2) + Ns(r, D3)
  {
    hide TimestampNs, CalculateDelta, DeltaNs;
    TwoHops(ColumnNs(r, 3), ColumnNs(r, 4), ColumnNs(r, 5));
  }

  /** RTT D2 = RTT D1 + D6 + D7. */
  lemma {:induction false} ClientColumnsTelescope(r: Record)
    requires |r.timestamps| == 20 && Valid(r, RTT_D1) && Valid(r, D6) && Valid(r, D7) && Short(r, RTT_D2)
    ensures Valid(r, RTT_D2) && Ns(r, RTT_D2) == Ns(r, RTT_D1) + Ns(r, D6) + Ns(r, D7)
  {
    hide TimestampNs, CalculateDelta, DeltaNs;
    var x, y, z, w := ColumnNs(r, 1), ColumnNs(r, 8), ColumnNs(r, 9), ColumnNs(r, 11);
    HopValid(z, w);
    TwoHops(x, y, z);
    TwoHops(x, z, w);
  }

  /** RTT D1 = D1 + network out + TT D2 + network back. */
  lemma {:induction false} RoundTripColumnsTelescope(r: Record)
    requires |r.timestamps| == 20 && Valid(r, D1) && Valid(r, NET_OUT) && Valid(r, TT_D2) && Valid(r, NET_BACK)
    requires Short(r, RTT_D1)
    ensures Valid(r, RTT_D1)
    ensures Ns(r, RTT_D1) == Ns(r, D1) + Ns(r, NET_OUT) + Ns(r, TT_D2) + Ns(r, NET_BACK)
  {
    hide TimestampNs, CalculateDelta, DeltaNs;
    var v, x, y, z, w := ColumnNs(r, 1), ColumnNs(r, 2), ColumnNs(r, 3), ColumnNs(r, 7), ColumnNs(r, 8);
    HopValid(y, z);
    HopValid(z, w);
    TwoHops(v, x, y);
    TwoHops(v, y, z);
    TwoHops(v, z, w);
  }

  lemma {:induction false} HopValid(a: nat, b: nat)
    ensures CalculateDelta(a, b).valid ==> a < b
  {
  }

  // ---- Output lines.

  function ColumnTexts(r: Record, cols: seq<nat>): (s: seq<string>)
    requires |r.timestamps| == 20 && forall i :: 0 <= i < |cols| ==> cols[i] < 12
    ensures |s| == |cols|
  {
    seq(|cols|, i requires 0 <= i < |cols| => r.timestamps[cols[i]])
  }

  function DeltaTexts(r: Record, defs: seq<DeltaDef>): (s: seq<string>)
    requires |r.timestamps| == 20 && forall i :: 0 <= i < |defs| ==> defs[i].a < 12 && defs[i].b < 12
    ensures |s| == |defs|
  {
    seq(|defs|, i requires 0 <= i < |defs| => DeltaText(RecordDelta(r, defs[i])))
  }

  function KeyTexts(r: Record, ip: string, port: nat): (s: seq<string>)
    ensures |s| == 3
  {
    [ip, Digits(port), Digits(r.seqNum)]
  }

  /** The fields of an output row. */
  function OutputFields(r: Record, ip: string, port: nat, mode: Mode, target: Target): seq<string>
    requires |r.timestamps| == 20
  {
    KeyTexts(r, ip, port) + ColumnTexts(r, OutputColumns(mode, target)) + DeltaTexts(r, ModeDeltas(mode, target))
  }

  function OutputLine(r: Record, ip: string, port: nat, mode: Mode, target: Target): string
    requires |r.timestamps| == 20
  {
    Joined(OutputFields(r, ip, port, mode, target))
  }

  /** The strings of a record and the target address as C buffers hold them. */
  ghost predicate Printable(r: Record, ip: string, port: nat) {
    && |r.timestamps| == 20 && r.seqNum < TWO_32 && port < 0x1_0000
    && |ip| <= 15 && '\0' !in ip
    && forall c :: 0 <= c < 20 ==> |r.timestamps[c]| <= 31 && '\0' !in r.timestamps[c]
  }

  ghost predicate ShortFields(fields: seq<string>) {
    forall i :: 0 <= i < |fields| ==> |fields[i]| <= 31 && '\0' !in fields[i]
  }

  lemma {:induction false} DigitsShort(n: nat)
    requires n < TWO_32
    ensures |Digits(n)| <= 10 && '\0' !in Digits(n)
  {
    hide Digits, AllDigits, Pow10;
    Pow10Values();
    DigitsLength(n, 10);
    NoDotInDigits(Digits(n));
  }

  lemma {:induction false} DeltaTextShort(a: nat, b: nat)
    ensures |DeltaText(CalculateDelta(a, b))| <= 14 && '\0' !in DeltaText(CalculateDelta(a, b))
  {
    hide Digits, ZeroPadded, AllDigits, Value, NineDigits;
    var d := CalculateDelta(a, b);
    if d.valid {
      DigitsShort(d.wholeUs);
      ThreeDigits(d.fracNs);
      NoDotInDigits(ZeroPadded(d.fracNs, 3));
    }
  }

  /** No field overruns: an output row is far below the 2048-byte line buffer. */
  lemma {:induction false} OutputFieldsShort(r: Record, ip: string, port: nat, mode: Mode, target: Target)
    requires Printable(r, ip, port)
    ensures ShortFields(OutputFields(r, ip, port, mode, target)) && |OutputFields(r, ip, port, mode, target)| <= 29
  {
    hide Digits, DeltaText, CalculateDelta, OutputColumns, ModeDeltas, TimestampNs;
    DigitsShort(port);
    DigitsShort(r.seqNum);
    var cols, defs := OutputColumns(mode, target), ModeDeltas(mode, target);
    assert ShortFields(KeyTexts(r, ip, port));
    assert ShortFields(ColumnTexts(r, cols));
    forall i | 0 <= i < |defs| ensures |DeltaTexts(r, defs)[i]| <= 31 && '\0' !in DeltaTexts(r, defs)[i] {
      DeltaTextShort(ColumnNs(r, defs[i].a), ColumnNs(r, defs[i].b));
    }
  }

  lemma {:induction false} ShortPrefix(fields: seq<string>, n: nat)
    requires ShortFields(fields) && 0 < n <= |fields| <= 29
    ensures |Joined(fields[..n])| < 928 && '\0' !in Joined(fields[..n])
    ensures n < |fields| ==> Joined(fields[..n + 1]) == Joined(fields[..n]) + "," + fields[n]
  {
    JoinedBound(fields[..n], 31);
    if n < |fields| { assert fields[..n + 1][..n] == fields[..n]; }
  }

  /** The loop appending the delta columns, each led by a comma. */
  method AppendDeltas(buffer: array<char>, start: nat, deltas: seq<string>, ghost fields: seq<string>)
      returns (written: nat)
    requires buffer.Length == 2048 && ShortFields(fields) && |deltas| < |fields| <= 29
    requires fields[|fields| - |deltas|..] == deltas
    requires start < 928 && buffer[start] == '\0' && buffer[..start] == Joined(fields[..|fields| - |deltas|])
    modifies buffer
    ensures written < 928 && buffer[written] == '\0' && buffer[..written] == Joined(fields)
  {
    hide ShortFields, Joined;
    written := start;
    ghost var k := |fields| - |deltas|;
    ghost var text := buffer[..start];
    for i := 0 to |deltas|
      invariant written < 928 && buffer[..written] == text && buffer[written] == '\0'
      invariant text == Joined(fields[..k + i])
    {
      ShortPrefix(fields, k + i);
      ShortPrefix(fields, k + i + 1);
      assert fields[k + i] == deltas[i];
      var len := Snprintf(buffer, written, "," + deltas[i]);
      text := text + ("," + deltas[i]);
      written := written + len;
    }
    assert fields[..|fields|] == fields;
  }

  /** `format_output_record` into the 2048-byte line buffer. */
  method FormatOutputRecord(r: Record, ip: string, port: nat, mode: Mode, target: Target, buffer: array<char>)
      returns (written: nat)
    requires Printable(r, ip, port) && buffer.Length == 2048
    modifies buffer
    ensures CString(buffer[..]) == OutputLine(r, ip, port, mode, target)
    ensures written == |OutputLine(r, ip, port, mode, target)|
  {
    hide *;
    var cols, defs := OutputColumns(mode, target), ModeDeltas(mode, target);
    PrintableRecord(r, ip, port);
    var key, columns, deltas := KeyTexts(r, ip, port), ColumnTexts(r, cols), DeltaTexts(r, defs);
    ghost var fields := key + columns + deltas;
    OutputParts(r, ip, port, mode, target);
    FirstFields(fields, key, columns, deltas);
    ShortPrefix(fields, 3 + |cols|);
    written := Snprintf(buffer, 0, Joined(key));
    var len := Snprintf(buffer, written, "," + Joined(columns));
    written := written + len;
    written := AppendDeltas(buffer, written, deltas, fields);
    ShortPrefix(fields, |fields|);
    assert fields[..|fields|] == fields;
    Terminate(buffer, written, Joined(fields));
  }

  lemma {:induction false} PrintableRecord(r: Record, ip: string, port: nat)
    requires Printable(r, ip, port)
    ensures |r.timestamps| == 20
  {
  }

  lemma {:induction false} OutputParts(r: Record, ip: string, port: nat, mode: Mode, target: Target)
    requires Printable(r, ip, port)
    ensures |r.timestamps| == 20
    ensures var fields :=
        KeyTexts(r, ip, port) + ColumnTexts(r, OutputColumns(mode, target)) + DeltaTexts(r, ModeDeltas(mode, target));
      ShortFields(fields) && |fields| <= 29 && OutputLine(r, ip, port, mode, target) == Joined(fields)
  {
    hide KeyTexts, ColumnTexts, DeltaTexts, OutputColumns, ModeDeltas, ShortFields;
    OutputFieldsShort(r, ip, port, mode, target);
  }

  lemma {:induction false} FirstFields(fields: seq<string>, key: seq<string>, columns: seq<string>, deltas: seq<string>)
    requires |key| == 3 && |columns| >= 2 && fields == key + columns + deltas
    ensures fields[..3] == key && fields[..3 + |columns|] == key + columns
    ensures Joined(fields[..3 + |columns|]) == Joined(key) + ("," + Joined(columns))
  {
    assert fields[..3 + |columns|] == key + columns;
    JoinedSplit(key, columns);
    assert Joined(key) + "," + Joined(columns) == Joined(key) + ("," + Joined(columns));
  }
}
