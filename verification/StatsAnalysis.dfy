// Analysis of one delta over the statistics ring: which entries count, the
// histogram with its outlier counter, and the interpolated percentiles.
module StatsAnalysis {
  import opened Bits
  import opened Sorting
  import opened StatsRing

  /** What process_entry_for_delta does with an entry. */
  datatype Verdict = Ignored | OverRange | Accepted(ns: nat)

  /** (int64_t)b - (int64_t)a with the hardware's wrap-around. */
  function SignedDifference(a: nat, b: nat): int {
    var d := Wrap64(b - a);
    if d >= 0x8000_0000_0000_0000 then d - 0x1_0000_0000_0000_0000 else d
  }

  /** Both timestamps present and 1 ns to 10^9 ns apart: accepted. Later than that: over range. */
  function Judge(e: StatsEntry, a: nat, b: nat): Verdict {
    if a >= |e.timestampNs| || b >= |e.timestampNs| then Ignored
    else
      var tsA, tsB := e.timestampNs[a], e.timestampNs[b];
      if tsA == 0 || tsB == 0 then Ignored
      else
        var d := SignedDifference(tsA, tsB);
        if d < 1 then Ignored else if d > 1_000_000_000 then OverRange else Accepted(d)
  }

  function JudgeAll(es: seq<StatsEntry>, a: nat, b: nat): (vs: seq<Verdict>)
    ensures |vs| == |es|
  {
    seq(|es|, i requires 0 <= i < |es| => Judge(es[i], a, b))
  }

  /** The accepted deltas, in order. */
  function AcceptedOf(vs: seq<Verdict>): (s: seq<int>)
    ensures |s| <= |vs|
  {
    if vs == [] then []
    else
      var s := AcceptedOf(vs[..|vs| - 1]);
      match vs[|vs| - 1]
      case Accepted(ns) => s + [ns]
      case _ => s
  }

  function OverRangeCount(vs: seq<Verdict>): (n: nat)
    ensures n <= |vs|
  {
    if vs == [] then 0 else OverRangeCount(vs[..|vs| - 1]) + if vs[|vs| - 1] == OverRange then 1 else 0
  }

  /** `(uint32_t)(delta_us / bin_width_us)`. */
  function BinOf(ns: int, width: nat): int
    requires width > 0
  {
    ns / (1000 * width)
  }

  /** How many of the values fall into a bin. */
  function BinCount(values: seq<int>, bin: int, width: nat): nat
    requires width > 0
  {
    if values == [] then 0
    else BinCount(values[..|values| - 1], bin, width) + if BinOf(values[|values| - 1], width) == bin then 1 else 0
  }

  /** How many fall beyond the last bin. */
  function BeyondCount(values: seq<int>, bins: nat, width: nat): (n: nat)
    requires width > 0
    ensures n <= |values|
  {
    if values == [] then 0
    else BeyondCount(values[..|values| - 1], bins, width) + if BinOf(values[|values| - 1], width) >= bins then 1 else 0
  }

  function Min(a: nat, b: nat): nat { if a < b then a else b }

  /** `delta_analysis_t` with the verdicts it has been fed. */
  class DeltaAnalysis {
    var packetCount: nat
    var deltaValues: array<int>
    var histogram: array<nat>
    var outlierCount: nat
    var usedBins: nat
    var percentilesCalculated: bool
    var percentiles: seq<real>
    const width: nat
    ghost var seen: seq<Verdict>

    ghost predicate Valid()
      reads this, deltaValues, histogram
    {
      && width > 0 && |percentiles| == 5 && deltaValues as object != histogram
      && packetCount == Min(|AcceptedOf(seen)|, deltaValues.Length)
      && multiset(deltaValues[..packetCount]) == multiset(AcceptedOf(seen)[..packetCount])
      && (forall bin :: 0 <= bin < histogram.Length ==> histogram[bin] == BinCount(AcceptedOf(seen), bin, width))
      && outlierCount == OverRangeCount(seen) + (|AcceptedOf(seen)| - packetCount)
           + BeyondCount(AcceptedOf(seen), histogram.Length, width)
      && usedBins <= histogram.Length
      && (usedBins > 0 ==> histogram[usedBins - 1] > 0)
      && (forall bin :: usedBins <= bin < histogram.Length ==> histogram[bin] == 0)
      && (percentilesCalculated ==> PercentilesSet())
    }

    /** The values collected are sorted and the cached percentiles are theirs. */
    ghost predicate PercentilesSet()
      reads this, deltaValues
    {
      && |percentiles| == 5 && 0 < packetCount <= deltaValues.Length && Ascending(deltaValues[..packetCount])
      && forall i :: 0 <= i < 5 ==> percentiles[i] == Percentile(deltaValues[..packetCount], POSITIONS[i])
    }

    /** `exact_percentiles_init` and the histogram allocation. */
    constructor (capacity: nat, maxBins: nat, binWidthUs: nat)
      requires capacity > 0 && maxBins > 0 && binWidthUs > 0
      ensures Valid() && seen == [] && width == binWidthUs
      ensures deltaValues.Length == capacity && histogram.Length == maxBins && fresh(deltaValues) && fresh(histogram)
    {
      packetCount, outlierCount, usedBins := 0, 0, 0;
      deltaValues := new int[capacity];
      histogram := new nat[maxBins](_ => 0);
      percentilesCalculated, percentiles := false, [0.0, 0.0, 0.0, 0.0, 0.0];
      width := binWidthUs;
      seen := [];
    }

    /** `exact_percentiles_add_value`. */
    method AddValue(ns: nat)
      requires packetCount <= deltaValues.Length
      modifies this, deltaValues
      ensures deltaValues == old(deltaValues) && histogram == old(histogram)
      ensures usedBins == old(usedBins) && seen == old(seen)
      ensures percentiles == old(percentiles)
      ensures old(packetCount) < deltaValues.Length ==>
        && packetCount == old(packetCount) + 1 && outlierCount == old(outlierCount) && !percentilesCalculated
        && deltaValues[..packetCount] == old(deltaValues[..packetCount]) + [ns as int]
      ensures old(packetCount) == deltaValues.Length ==>
        && packetCount == old(packetCount) && outlierCount == old(outlierCount) + 1
        && percentilesCalculated == old(percentilesCalculated) && deltaValues[..] == old(deltaValues[..])
    {
      if packetCount < deltaValues.Length {
        deltaValues[packetCount] := ns;
        packetCount := packetCount + 1;
        percentilesCalculated := false;
      } else {
        outlierCount := outlierCount + 1;
      }
    }

    /** The histogram part of process_entry_for_delta: one bin up, or one more outlier. */
    method CountInBin(bin: nat)
      requires usedBins <= histogram.Length
      modifies `outlierCount, `usedBins, histogram
      ensures outlierCount == old(outlierCount) + if bin < histogram.Length then 0 else 1
      ensures usedBins == if old(usedBins) <= bin < histogram.Length then bin + 1 else old(usedBins)
      ensures forall i :: 0 <= i < histogram.Length ==> histogram[i] == old(histogram[i]) + if i == bin then 1 else 0
    {
      if bin < histogram.Length {
        histogram[bin] := histogram[bin] + 1;
        if bin >= usedBins { usedBins := bin + 1; }
      } else {
        outlierCount := outlierCount + 1;
      }
    }

    /** The tail of process_entry_for_delta, for a delta in range. */
    method Accept(ns: nat)
      requires Valid()
      modifies this, deltaValues, histogram
      ensures Valid() && deltaValues == old(deltaValues) && histogram == old(histogram)
      ensures seen == old(seen) + [Accepted(ns)]
    {
      hide AcceptedOf, OverRangeCount, BinCount, BeyondCount, BinOf, Percentile, Min, Ascending;
      SeenSnoc(seen, Accepted(ns));
      ghost var accepted := AcceptedOf(seen);
      CountSnoc(accepted, Accepted(ns), histogram.Length, width);
      CapSnoc(accepted, Accepted(ns), deltaValues.Length);
      AddValue(ns);
      CountInBin(BinOf(ns, width));
      seen := seen + [Accepted(ns)];
    }

    /** `process_entry_for_delta`. */
    method ProcessEntry(entry: StatsEntry, a: nat, b: nat)
      requires Valid()
      modifies this, deltaValues, histogram
      ensures Valid() && deltaValues == old(deltaValues) && histogram == old(histogram)
      ensures seen == old(seen) + [Judge(entry, a, b)]
    {
      hide AcceptedOf, OverRangeCount, BinCount, BeyondCount, BinOf, Judge, Percentile, Min, Ascending;
      var verdict := Judge(entry, a, b);
      SeenSnoc(seen, verdict);
      match verdict {
        case Ignored =>
          seen := seen + [verdict];
        case OverRange =>
          outlierCount := outlierCount + 1;
          seen := seen + [verdict];
        case Accepted(ns) =>
          Accept(ns);
      }
    }
  }

  lemma {:induction false} SeenSnoc(vs: seq<Verdict>, v: Verdict)
    ensures AcceptedOf(vs + [v]) == if v.Accepted? then AcceptedOf(vs) + [v.ns] else AcceptedOf(vs)
    ensures OverRangeCount(vs + [v]) == OverRangeCount(vs) + if v == OverRange then 1 else 0
  {
    assert (vs + [v])[..|vs|] == vs;
  }

  lemma {:induction false} CountSnoc(values: seq<int>, v: Verdict, bins: nat, width: nat)
    requires width > 0
    ensures v.Accepted? ==> BinOf(v.ns, width) >= 0
    ensures v.Accepted? ==>
      forall bin ::
        BinCount(values + [v.ns], bin, width)
          == BinCount(values, bin, width) + if BinOf(v.ns, width) == bin then 1 else 0
    ensures v.Accepted? ==>
      BeyondCount(values + [v.ns], bins, width)
        == BeyondCount(values, bins, width) + if BinOf(v.ns, width) >= bins then 1 else 0
  {
    hide BinOf;
    if v.Accepted? {
      assert (values + [v.ns])[..|values|] == values;
      BinNonNegative(v.ns, width);
    }
  }

  lemma {:induction false} BinNonNegative(ns: nat, width: nat)
    requires width > 0
    ensures BinOf(ns, width) >= 0
  {
    MultipleIsFar(1000 * width, ns / (1000 * width));
  }

  lemma {:induction false} CapSnoc(values: seq<int>, v: Verdict, capacity: nat)
    ensures v.Accepted? && |values| < capacity ==>
      && Min(|values| + 1, capacity) == Min(|values|, capacity) + 1
      && (values + [v.ns])[..Min(|values| + 1, capacity)] == values[..Min(|values|, capacity)] + [v.ns]
      && Min(|values|, capacity) == |values|
    ensures v.Accepted? && |values| >= capacity ==>
      && Min(|values| + 1, capacity) == Min(|values|, capacity) == capacity
      && (values + [v.ns])[..capacity] == values[..capacity]
  {
  }

  const POSITIONS := [25.0, 50.0, 75.0, 90.0, 95.0]

  /** A collected delta in microseconds. */
  function Us(ns: int): real { ns as real / 1000.0 }

  function Ceiling(x: real): int { -((-x).Floor) }

  /** The point a fraction of the way from lo to hi. */
  function Between(lo: real, hi: real, fraction: real): real { lo + fraction * (hi - lo) }

  /** Linear interpolation of the sorted deltas at a real position. */
  function Interpolate(sorted: seq<int>, pos: real): real
    requires 0.0 <= pos && pos <= (|sorted| - 1) as real
  {
    var lower, upper := pos.Floor, Ceiling(pos);
    if lower == upper || upper >= |sorted| then Us(sorted[lower])
    else Between(Us(sorted[lower]), Us(sorted[upper]), pos - lower as real)
  }

  function Position(n: nat, percent: real): real
    requires n > 0
  {
    (percent / 100.0) * (n - 1) as real
  }

  function Percentile(sorted: seq<int>, percent: real): real
    requires |sorted| > 0 && 0.0 <= percent <= 100.0
  {
    PositionInRange(|sorted|, percent);
    Interpolate(sorted, Position(|sorted|, percent))
  }

  lemma {:induction false} PositionInRange(n: nat, percent: real)
    requires n > 0 && 0.0 <= percent <= 100.0
    ensures 0.0 <= Position(n, percent) <= (n - 1) as real
  {
    var x, m := percent / 100.0, (n - 1) as real;
    assert 0.0 <= x <= 1.0 && m >= 0.0;
    assert 0.0 <= x * m;
    assert m - x * m == (1.0 - x) * m >= 0.0;
  }

  // ---- What the verdicts mean.

  /** For timestamps below 2^63: accepted exactly when the second is 1 ns to 10^9 ns after the first, as that
      difference; over range exactly when it is later than that. */
  lemma {:induction false} JudgeIs(e: StatsEntry, a: nat, b: nat)
    requires a < |e.timestampNs| && b < |e.timestampNs|
    requires e.timestampNs[a] < TWO_63 && e.timestampNs[b] < TWO_63
    ensures var x, y := e.timestampNs[a], e.timestampNs[b];
      && (forall ns: nat :: Judge(e, a, b) == Accepted(ns) <==> 0 < x < y <= x + 1_000_000_000 && ns == y - x)
      && (Judge(e, a, b) == OverRange <==> 0 < x && y > x + 1_000_000_000)
      && (Judge(e, a, b) == Ignored <==> x == 0 || y <= x)
  {
    hide Wrap64;
    SignedDifferenceIs(e.timestampNs[a], e.timestampNs[b]);
  }

  lemma {:induction false} SignedDifferenceIs(a: nat, b: nat)
    requires a < TWO_63 && b < TWO_63
    ensures SignedDifference(a, b) == b - a
  {
  }

  /** Both timestamps are there and below 2^63 in every entry. */
  ghost predicate InRange(live: seq<StatsEntry>, a: nat, b: nat) {
    forall i :: 0 <= i < |live| ==>
      && a < |live[i].timestampNs| && b < |live[i].timestampNs|
      && live[i].timestampNs[a] < TWO_63 && live[i].timestampNs[b] < TWO_63
  }

  /** The differences from 1 ns to 10^9 ns between the two timestamps, entry by entry. */
  ghost function Differences(live: seq<StatsEntry>, a: nat, b: nat): seq<int>
    requires InRange(live, a, b)
  {
    if live == [] then []
    else
      var rest, e := Differences(live[..|live| - 1], a, b), live[|live| - 1];
      if 0 < e.timestampNs[a] < e.timestampNs[b] && e.timestampNs[b] - e.timestampNs[a] <= 1_000_000_000
      then rest + [e.timestampNs[b] - e.timestampNs[a]]
      else rest
  }

  /** How many entries lie more than 10^9 ns apart. */
  ghost function TooLate(live: seq<StatsEntry>, a: nat, b: nat): nat
    requires InRange(live, a, b)
  {
    if live == [] then 0
    else
      var e := live[|live| - 1];
      TooLate(live[..|live| - 1], a, b)
      + if 0 < e.timestampNs[a] && e.timestampNs[b] > e.timestampNs[a] + 1_000_000_000 then 1 else 0
  }

  lemma {:induction false} VerdictsAreDifferences(live: seq<StatsEntry>, a: nat, b: nat)
    requires InRange(live, a, b)
    ensures AcceptedOf(JudgeAll(live, a, b)) == Differences(live, a, b)
    ensures OverRangeCount(JudgeAll(live, a, b)) == TooLate(live, a, b)
  {
    hide Judge;
    if live != [] {
      var n := |live| - 1;
      VerdictsAreDifferences(live[..n], a, b);
      assert live[..n + 1] == live;
      JudgeNext(live, n, a, b);
      SeenSnoc(JudgeAll(live[..n], a, b), Judge(live[n], a, b));
      JudgeIs(live[n], a, b);
    }
  }

  /** How many values lie from lo up to, but not including, hi. */
  ghost function CountBetween(values: seq<int>, lo: int, hi: int): nat {
    if values == [] then 0
    else
      CountBetween(values[..|values| - 1], lo, hi) + if lo <= values[|values| - 1] < hi then 1 else 0
  }

  ghost function CountFrom(values: seq<int>, lo: int): nat {
    if values == [] then 0 else CountFrom(values[..|values| - 1], lo) + if lo <= values[|values| - 1] then 1 else 0
  }

  /** Bin k takes exactly the deltas from k to k + 1 bin widths, a width being that many microseconds. */
  lemma {:induction false} BinIs(ns: int, width: nat, k: int)
    requires width > 0
    ensures BinOf(ns, width) == k <==> 1000 * width * k <= ns < 1000 * width * (k + 1)
    ensures BinOf(ns, width) >= k <==> 1000 * width * k <= ns
  {
    var w := 1000 * width;
    var q := ns / w;
    assert ns == w * q + ns % w;
    assert w * (k - q) == w * k - w * q && w * (k + 1) == w * k + w;
    MultipleIsFar(w, k - q);
  }

  lemma {:induction false} BinCountIs(values: seq<int>, k: int, width: nat)
    requires width > 0
    ensures BinCount(values, k, width) == CountBetween(values, 1000 * width * k, 1000 * width * (k + 1))
  {
    hide BinOf;
    if values != [] {
      BinCountIs(values[..|values| - 1], k, width);
      BinIs(values[|values| - 1], width, k);
    }
  }

  lemma {:induction false} BeyondCountIs(values: seq<int>, bins: nat, width: nat)
    requires width > 0
    ensures BeyondCount(values, bins, width) == CountFrom(values, 1000 * width * bins)
  {
    hide BinOf;
    if values != [] {
      BeyondCountIs(values[..|values| - 1], bins, width);
      BinIs(values[|values| - 1], width, bins);
    }
  }

  // ---- Accounting.

  function Sum(s: seq<int>): int {
    if s == [] then 0 else Sum(s[..|s| - 1]) + s[|s| - 1]
  }

  lemma {:induction false} SumBump(s: seq<int>, i: nat)
    requires i < |s|
    ensures Sum(s[i := s[i] + 1]) == Sum(s) + 1
  {
    var n := |s| - 1;
    var t := s[i := s[i] + 1];
    if i == n {
      assert t[..n] == s[..n];
    } else {
      assert t[..n] == s[..n][i := s[..n][i] + 1];
      SumBump(s[..n], i);
    }
  }

  /** The histogram of a list of values. */
  function Histogram(values: seq<int>, bins: nat, width: nat): (h: seq<int>)
    requires width > 0
    ensures |h| == bins
  {
    seq(bins, bin requires 0 <= bin < bins => BinCount(values, bin, width))
  }

  lemma {:induction false} SumOfZeros(s: seq<int>)
    requires forall i :: 0 <= i < |s| ==> s[i] == 0
    ensures Sum(s) == 0
  {
    if s != [] { SumOfZeros(s[..|s| - 1]); }
  }

  /** Every value is in exactly one bin or beyond the last. */
  lemma {:induction false} EachValueCountedOnce(values: seq<int>, bins: nat, width: nat)
    requires width > 0 && forall i :: 0 <= i < |values| ==> BinOf(values[i], width) >= 0
    ensures Sum(Histogram(values, bins, width)) + BeyondCount(values, bins, width) == |values|
  {
    hide BinOf, Sum;
    if values == [] {
      SumOfZeros(Histogram([], bins, width));
    } else {
      var front, last := values[..|values| - 1], values[|values| - 1];
      EachValueCountedOnce(front, bins, width);
      var h, bin := Histogram(front, bins, width), BinOf(last, width);
      if bin < bins {
        SumBump(h, bin);
        assert Histogram(values, bins, width) == h[bin := h[bin] + 1];
      } else {
        assert Histogram(values, bins, width) == h;
      }
    }
  }

  lemma {:induction false} AcceptedBins(vs: seq<Verdict>, width: nat)
    requires width > 0
    ensures forall i :: 0 <= i < |AcceptedOf(vs)| ==> BinOf(AcceptedOf(vs)[i], width) >= 0
  {
    hide BinOf;
    if vs != [] {
      AcceptedBins(vs[..|vs| - 1], width);
      if vs[|vs| - 1].Accepted? { BinNonNegative(vs[|vs| - 1].ns, width); }
    }
  }

  /** Bins plus outliers: every accepted and over-range delta once, and each accepted one past the capacity once
      more. */
  lemma {:induction false} HistogramAccounting(d: DeltaAnalysis)
    requires d.Valid()
    ensures d.packetCount == Min(|AcceptedOf(d.seen)|, d.deltaValues.Length)
    ensures Sum(d.histogram[..]) + d.outlierCount
      == |AcceptedOf(d.seen)| + OverRangeCount(d.seen) + (|AcceptedOf(d.seen)| - d.packetCount)
    ensures forall bin :: 0 <= bin < d.histogram.Length && d.histogram[bin] > 0 ==> bin < d.usedBins
    ensures d.usedBins > 0 ==> d.histogram[d.usedBins - 1] > 0
  {
    hide AcceptedOf, BinCount, BeyondCount, OverRangeCount, Sum, BinOf, Percentile, SortAscending, Min;
    AcceptedBins(d.seen, d.width);
    EachValueCountedOnce(AcceptedOf(d.seen), d.histogram.Length, d.width);
    assert d.histogram[..] == Histogram(AcceptedOf(d.seen), d.histogram.Length, d.width);
  }

  /** Over one ring (fewer than 2^31 live entries) no uint32 counter of the analysis can wrap. */
  lemma {:induction false} CountersFit(d: DeltaAnalysis)
    requires d.Valid() && |d.seen| < 0x8000_0000
    ensures d.packetCount < TWO_32 && d.outlierCount < TWO_32
    ensures forall bin :: 0 <= bin < d.histogram.Length ==> d.histogram[bin] < TWO_32
  {
    hide BinOf, Percentile, SortAscending;
    VerdictsCounted(d.seen);
    forall bin | 0 <= bin < d.histogram.Length ensures d.histogram[bin] < TWO_32 {
      BinCountBound(AcceptedOf(d.seen), bin, d.width);
    }
  }

  lemma {:induction false} VerdictsCounted(vs: seq<Verdict>)
    ensures |AcceptedOf(vs)| + OverRangeCount(vs) <= |vs|
  {
    if vs != [] { VerdictsCounted(vs[..|vs| - 1]); }
  }

  lemma {:induction false} BinCountBound(values: seq<int>, bin: int, width: nat)
    requires width > 0
    ensures BinCount(values, bin, width) <= |values|
  {
    hide BinOf;
    if values != [] { BinCountBound(values[..|values| - 1], bin, width); }
  }

  /** Bins and outliers over a whole buffer: each accepted and over-range entry once, and each accepted one past the
      capacity once more. */
  ghost predicate Accounted(d: DeltaAnalysis, live: seq<StatsEntry>, a: nat, b: nat)
    reads d, d.deltaValues, d.histogram
  {
    var verdicts := JudgeAll(live, a, b);
    var accepted := |AcceptedOf(verdicts)|;
    && d.packetCount == Min(accepted, d.deltaValues.Length)
    && Sum(d.histogram[..]) + d.outlierCount == accepted + OverRangeCount(verdicts) + (accepted - d.packetCount)
    && (forall bin :: 0 <= bin < d.histogram.Length && d.histogram[bin] > 0 ==> bin < d.usedBins)
    && (d.usedBins > 0 ==> d.usedBins <= d.histogram.Length && d.histogram[d.usedBins - 1] > 0)
  }

  /** The same in plain arithmetic: the first values that fit are collected, bin k counts the differences from k to
      k + 1 widths, and the outliers are those too late, those that did not fit and those beyond the last bin. */
  ghost predicate Measured(d: DeltaAnalysis, live: seq<StatsEntry>, a: nat, b: nat)
    requires InRange(live, a, b)
    reads d, d.deltaValues, d.histogram
  {
    var values := Differences(live, a, b);
    && d.packetCount == Min(|values|, d.deltaValues.Length)
    && multiset(d.deltaValues[..d.packetCount]) == multiset(values[..d.packetCount])
    && (forall k :: 0 <= k < d.histogram.Length ==>
          d.histogram[k] == CountBetween(values, 1000 * d.width * k, 1000 * d.width * (k + 1)))
    && d.outlierCount == TooLate(live, a, b) + (|values| - d.packetCount)
         + CountFrom(values, 1000 * d.width * d.histogram.Length)
  }

  lemma {:induction false} BufferMeasured(d: DeltaAnalysis, live: seq<StatsEntry>, a: nat, b: nat)
    requires d.Valid() && d.seen == JudgeAll(live, a, b) && InRange(live, a, b)
    ensures Measured(d, live, a, b)
  {
    hide AcceptedOf, BinCount, BeyondCount, OverRangeCount, BinOf, Percentile, Ascending, Min, Judge, InRange,
      Differences, TooLate, CountBetween, CountFrom;
    VerdictsAreDifferences(live, a, b);
    var values := Differences(live, a, b);
    forall k | 0 <= k < d.histogram.Length
      ensures d.histogram[k] == CountBetween(values, 1000 * d.width * k, 1000 * d.width * (k + 1))
    {
      BinCountIs(values, k, d.width);
    }
    BeyondCountIs(values, d.histogram.Length, d.width);
  }

  /** `process_buffer_for_analysis` for one delta: the live entries from oldest to newest. */
  method ProcessBuffer(stats: StatsCollector, analysis: DeltaAnalysis, a: nat, b: nat)
    requires stats.Valid() && analysis.Valid() && analysis.seen == []
    requires stats.buffer as object != analysis.deltaValues && stats.buffer as object != analysis.histogram
    modifies analysis, analysis.deltaValues, analysis.histogram
    ensures analysis.Valid() && analysis.seen == JudgeAll(stats.Contents(), a, b)
    ensures Accounted(analysis, stats.Contents(), a, b)
    ensures InRange(stats.Contents(), a, b) ==> Measured(analysis, stats.Contents(), a, b)
  {
    hide BitAnd, Wrap32, Wrap64, RingSize, LiveEntries, Distance, SlotAfter, Judge, LastN, Sum, Min,
      AcceptedOf, OverRangeCount, DeltaAnalysis.Valid, Accounted, Measured, InRange;
    var count := stats.GetBufferCount();
    ghost var live := stats.Contents();
    NothingJudged(live, a, b);
    var i := 0;
    while i < count
      invariant 0 <= i <= count && stats.Valid() && stats.Contents() == live
      invariant analysis.Valid()
      invariant analysis.deltaValues == old(analysis.deltaValues) && analysis.histogram == old(analysis.histogram)
      invariant analysis.seen == JudgeAll(live[..i], a, b)
    {
      var index := BitAnd(Wrap32(stats.tail + i), stats.sizeMask);
      NextLive(stats.buffer[..], stats.tail, count, i);
      JudgeNext(live, i, a, b);
      analysis.ProcessEntry(stats.buffer[index], a, b);
      i := i + 1;
    }
    assert live[..count] == live;
    BufferAccounted(analysis, live, a, b);
    if InRange(live, a, b) { BufferMeasured(analysis, live, a, b); }
  }

  lemma {:induction false} BufferAccounted(d: DeltaAnalysis, live: seq<StatsEntry>, a: nat, b: nat)
    requires d.Valid() && d.seen == JudgeAll(live, a, b)
    ensures Accounted(d, live, a, b)
  {
    hide AcceptedOf, BinCount, BeyondCount, OverRangeCount, Sum, BinOf, Percentile, SortAscending, Min, Judge;
    HistogramAccounting(d);
  }

  lemma {:induction false} NothingJudged(live: seq<StatsEntry>, a: nat, b: nat)
    ensures JudgeAll(live[..0], a, b) == []
  {
  }

  lemma {:induction false} JudgeNext(live: seq<StatsEntry>, i: nat, a: nat, b: nat)
    requires i < |live|
    ensures JudgeAll(live[..i + 1], a, b) == JudgeAll(live[..i], a, b) + [Judge(live[i], a, b)]
  {
    hide Judge;
  }

  /** `(tail + i) & size_mask` is the slot of the i-th live entry. */
  lemma {:induction false} NextLive(buffer: seq<StatsEntry>, tail: nat, count: nat, i: nat)
    requires RingSize(|buffer|) && tail < |buffer| && i < count < |buffer|
    ensures var index := BitAnd(Wrap32(tail + i), |buffer| - 1);
      index < |buffer| && buffer[index] == LiveEntries(buffer, tail, count)[i]
  {
    hide BitAnd, Wrap32, LiveEntries, RingSize;
    MaskedIndex(tail + i, |buffer|);
    LiveAt(buffer, tail, count, i);
  }

  // ---- Percentiles.

  lemma {:induction false} CeilingIs(x: real)
    ensures Ceiling(x) == if x == x.Floor as real then x.Floor else x.Floor + 1
  {
  }

  lemma {:induction false} UsOrdered(s: seq<int>, i: nat, j: nat)
    requires Ascending(s) && i <= j < |s|
    ensures Us(s[i]) <= Us(s[j])
  {
  }

  /** Both indices are in bounds and the value lies between its neighbours. */
  lemma {:induction false} InterpolateBetween(s: seq<int>, pos: real)
    requires Ascending(s) && 0.0 <= pos && pos <= (|s| - 1) as real
    ensures var lower, upper := pos.Floor, Ceiling(pos);
      && 0 <= lower <= upper < |s|
      && Us(s[lower]) <= Interpolate(s, pos) <= Us(s[upper])
  {
    hide Us, Ceiling, Ascending, Interpolate, Between;
    CeilingIs(pos);
    UsOrdered(s, pos.Floor, Ceiling(pos));
    InterpolateIs(s, pos);
    if pos != pos.Floor as real {
      BetweenBounds(Us(s[pos.Floor]), Us(s[Ceiling(pos)]), pos - pos.Floor as real);
    }
  }

  lemma {:induction false} InterpolateIs(s: seq<int>, pos: real)
    requires 0.0 <= pos && pos <= (|s| - 1) as real
    ensures pos.Floor < |s| && Ceiling(pos) < |s|
    ensures Interpolate(s, pos) ==
      if pos == pos.Floor as real then Us(s[pos.Floor])
      else Between(Us(s[pos.Floor]), Us(s[Ceiling(pos)]), pos - pos.Floor as real)
  {
    hide Us, Ceiling, Between;
    CeilingIs(pos);
  }

  lemma {:induction false} BetweenBounds(lo: real, hi: real, t: real)
    requires 0.0 <= t <= 1.0 && lo <= hi
    ensures lo <= Between(lo, hi, t) <= hi
  {
    ProductNonNegative(t, hi - lo);
    ProductNonNegative(1.0 - t, hi - lo);
    assert (1.0 - t) * (hi - lo) == (hi - lo) - t * (hi - lo);
  }

  /** Linear interpolation over ascending data is monotone in the position, within and across segments. */
  lemma {:induction false} InterpolateMonotone(s: seq<int>, p: real, q: real)
    requires Ascending(s) && 0.0 <= p <= q && q <= (|s| - 1) as real
    ensures Interpolate(s, p) <= Interpolate(s, q)
  {
    hide Us, Ceiling, Ascending, Interpolate, Between;
    CeilingIs(p);
    CeilingIs(q);
    InterpolateBetween(s, p);
    InterpolateBetween(s, q);
    if p.Floor != q.Floor {
      UsOrdered(s, Ceiling(p), q.Floor);
    } else if p != p.Floor as real {
      UsOrdered(s, p.Floor, Ceiling(p));
      InterpolateIs(s, p);
      InterpolateIs(s, q);
      BetweenMonotone(Us(s[p.Floor]), Us(s[Ceiling(p)]), p - p.Floor as real, q - q.Floor as real);
    } else {
      InterpolateIs(s, p);
    }
  }

  lemma {:induction false} BetweenMonotone(lo: real, hi: real, t: real, u: real)
    requires t <= u && lo <= hi
    ensures Between(lo, hi, t) <= Between(lo, hi, u)
  {
    ProductNonNegative(u - t, hi - lo);
    assert (u - t) * (hi - lo) == u * (hi - lo) - t * (hi - lo);
  }

  lemma {:induction false} ProductNonNegative(x: real, y: real)
    requires x >= 0.0 && y >= 0.0
    ensures x * y >= 0.0
  {
  }

  lemma {:induction false} PositionMonotone(n: nat, p: real, q: real)
    requires n > 0 && p <= q
    ensures Position(n, p) <= Position(n, q)
  {
    assert (q / 100.0 - p / 100.0) * (n - 1) as real >= 0.0;
  }

  lemma {:induction false} PercentileMonotone(s: seq<int>, p: real, q: real)
    requires Ascending(s) && |s| > 0 && 0.0 <= p <= q <= 100.0
    ensures Us(s[0]) <= Percentile(s, p) <= Percentile(s, q) <= Us(s[|s| - 1])
  {
    hide Us, Ascending, Interpolate, Position;
    PositionInRange(|s|, p);
    PositionInRange(|s|, q);
    PositionMonotone(|s|, p, q);
    InterpolateMonotone(s, Position(|s|, p), Position(|s|, q));
    EndValues(s, Position(|s|, p));
    EndValues(s, Position(|s|, q));
  }

  /** What a percentile is: at rank r = percent of n - 1, the value there if r is whole, else the point that far between
      the two values around it; in microseconds, a thousandth of the nanoseconds. */
  lemma {:induction false} PercentileIs(s: seq<int>, percent: real, k: nat, fraction: real)
    requires |s| > 0 && 0.0 <= percent <= 100.0 && k < |s| && 0.0 <= fraction < 1.0
    requires percent * (|s| - 1) as real == 100.0 * (k as real + fraction)
    requires fraction > 0.0 ==> k + 1 < |s|
    ensures fraction == 0.0 ==> 1000.0 * Percentile(s, percent) == s[k] as real
    ensures fraction > 0.0 ==>
      1000.0 * Percentile(s, percent) == (1.0 - fraction) * s[k] as real + fraction * s[k + 1] as real
  {
    hide Interpolate, Ceiling;
    PositionInRange(|s|, percent);
    PositionIs(|s|, percent, k as real + fraction);
    var pos := Position(|s|, percent);
    assert pos.Floor == k;
    CeilingIs(pos);
    InterpolateIs(s, pos);
    if fraction > 0.0 { Mix(s[k] as real, s[k + 1] as real, fraction); }
  }

  lemma {:induction false} PositionIs(n: nat, percent: real, pos: real)
    requires n > 0 && percent * (n - 1) as real == 100.0 * pos
    ensures Position(n, percent) == pos
  {
    var m := (n - 1) as real;
    assert (percent / 100.0) * m == (percent * m) / 100.0;
  }

  lemma {:induction false} Mix(x: real, y: real, fraction: real)
    ensures 1000.0 * Between(x / 1000.0, y / 1000.0, fraction) == (1.0 - fraction) * x + fraction * y
  {
    assert fraction * (y / 1000.0 - x / 1000.0) == (fraction * (y - x)) / 1000.0;
    assert fraction * (y - x) == fraction * y - fraction * x;
    assert (1.0 - fraction) * x == x - fraction * x;
  }

  /** P50 is the middle value, or the mean of the two middle ones. */
  lemma {:induction false} MedianInTheMiddle(s: seq<int>)
    requires |s| > 0
    ensures |s| % 2 == 1 ==> 1000.0 * Percentile(s, 50.0) == s[|s| / 2] as real
    ensures |s| % 2 == 0 ==> 2000.0 * Percentile(s, 50.0) == (s[|s| / 2 - 1] + s[|s| / 2]) as real
  {
    hide Percentile;
    if |s| % 2 == 1 {
      PercentileIs(s, 50.0, |s| / 2, 0.0);
    } else {
      PercentileIs(s, 50.0, |s| / 2 - 1, 0.5);
    }
  }

  lemma {:induction false} EndValues(s: seq<int>, pos: real)
    requires Ascending(s) && 0.0 <= pos && pos <= (|s| - 1) as real
    ensures Us(s[0]) <= Interpolate(s, pos) <= Us(s[|s| - 1])
  {
    hide Us, Ceiling, Ascending, Interpolate;
    InterpolateBetween(s, pos);
    UsOrdered(s, 0, pos.Floor);
    UsOrdered(s, Ceiling(pos), |s| - 1);
  }

  /** min <= P25 <= P50 <= P75 <= P90 <= P95 <= max of the collected deltas, whatever was collected. */
  lemma {:induction false} PercentilesOrdered(values: seq<int>)
    requires |values| > 0
    ensures var s := SortAscending(values);
      && multiset(s) == multiset(values) && Ascending(s)
      && Us(s[0]) <= Percentile(s, 25.0) <= Percentile(s, 50.0) <= Percentile(s, 75.0)
      && Percentile(s, 75.0) <= Percentile(s, 90.0) <= Percentile(s, 95.0) <= Us(s[|s| - 1])
  {
    hide SortAscending, Percentile, Us, Ascending;
    SortSorts(values);
    var s := SortAscending(values);
    PercentileMonotone(s, 25.0, 50.0);
    PercentileMonotone(s, 50.0, 75.0);
    PercentileMonotone(s, 75.0, 90.0);
    PercentileMonotone(s, 90.0, 95.0);
  }

  /** `exact_percentiles_calculate`: sorts the collected deltas in place and caches the five percentiles. */
  method CalculatePercentiles(d: DeltaAnalysis)
    requires d.Valid()
    modifies d, d.deltaValues
    ensures d.Valid() && d.deltaValues == old(d.deltaValues) && d.histogram == old(d.histogram)
    ensures d.seen == old(d.seen) && d.packetCount == old(d.packetCount)
    ensures d.deltaValues[..d.packetCount] == SortAscending(old(d.deltaValues[..d.packetCount]))
    ensures d.deltaValues[d.packetCount..] == old(d.deltaValues[d.packetCount..])
    ensures d.packetCount > 0 ==> d.percentilesCalculated && d.PercentilesSet()
    ensures d.packetCount > 0 ==> FiveInOrder(d.deltaValues[..d.packetCount], d.percentiles)
  {
    hide AcceptedOf, OverRangeCount, BinCount, BeyondCount, Percentile, SortAscending, Us, FiveInOrder;
    ghost var values := d.deltaValues[..d.packetCount];
    ghost var sorted := SortAscending(values);
    SortSorts(values);
    if d.packetCount == 0 { return; }
    SortedAlready(values);
    if d.percentilesCalculated {
      FiveValues(sorted, d.percentiles);
      return;
    }
    Qsort(d.deltaValues, d.packetCount);
    for i := 0 to 5
      invariant d.packetCount == old(d.packetCount)
      invariant d.deltaValues == old(d.deltaValues) && d.histogram == old(d.histogram)
      invariant d.packetCount <= d.deltaValues.Length && |d.percentiles| == 5
      invariant d.deltaValues[..d.packetCount] == sorted
      invariant d.deltaValues[d.packetCount..] == old(d.deltaValues[d.packetCount..])
      invariant d.outlierCount == old(d.outlierCount) && d.usedBins == old(d.usedBins) && d.seen == old(d.seen)
      invariant forall j :: 0 <= j < i ==> d.percentiles[j] == Percentile(sorted, POSITIONS[j])
    {
      d.percentiles := d.percentiles[i := Percentile(d.deltaValues[..d.packetCount], POSITIONS[i])];
    }
    d.percentilesCalculated := true;
    FiveValues(sorted, d.percentiles);
  }

  /** The five percentiles of ascending values, in the order the report prints them. */
  ghost predicate FiveInOrder(s: seq<int>, five: seq<real>)
    requires |s| > 0
  {
    && five == [Percentile(s, 25.0), Percentile(s, 50.0), Percentile(s, 75.0), Percentile(s, 90.0), Percentile(s, 95.0)]
    && Us(s[0]) <= five[0] <= five[1] <= five[2] <= five[3] <= five[4] <= Us(s[|s| - 1])
  }

  lemma {:induction false} FiveValues(s: seq<int>, five: seq<real>)
    requires |s| > 0 && Ascending(s) && |five| == 5
    requires forall i :: 0 <= i < 5 ==> five[i] == Percentile(s, POSITIONS[i])
    ensures FiveInOrder(s, five)
  {
    hide SortAscending, Percentile, Us;
    SortedAlready(s);
    PercentilesOrdered(s);
    assert five[0] == Percentile(s, POSITIONS[0]) && five[1] == Percentile(s, POSITIONS[1]);
    assert five[2] == Percentile(s, POSITIONS[2]) && five[3] == Percentile(s, POSITIONS[3]);
    assert five[4] == Percentile(s, POSITIONS[4]);
  }

  lemma {:induction false} SortedAlready(values: seq<int>)
    ensures Ascending(values) ==> SortAscending(values) == values
  {
    hide SortAscending, Ascending;
    SortSorts(values);
    if Ascending(values) { AscendingUnique(SortAscending(values), values); }
  }
}
