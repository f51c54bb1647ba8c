// Decimal text as printf writes it and as strtol reads it, and the parser
// for "seconds.fraction" timestamps. Strings are C strings without their NUL.
module CsvText {
  import opened Bits

  function Pow10(k: nat): (p: nat)
    ensures p >= 1
  {
    if k == 0 then 1 else 10 * Pow10(k - 1)
  }

  predicate IsDigit(c: char) { '0' <= c <= '9' }

  predicate IsSpace(c: char) { c == ' ' || '\t' <= c <= '\r' }

  predicate AllDigits(s: string) {
    s == [] || (IsDigit(s[|s| - 1]) && AllDigits(s[..|s| - 1]))
  }

  function DigitChar(d: nat): (c: char)
    requires d < 10
    ensures IsDigit(c)
  {
    '0' + d as char
  }

  function DigitValue(c: char): (d: nat)
    ensures d < 10
  {
    if IsDigit(c) then (c - '0') as nat else 0
  }

  /** The number a digit string denotes. */
  function Value(s: string): nat {
    if s == [] then 0 else 10 * Value(s[..|s| - 1]) + DigitValue(s[|s| - 1])
  }

  /** `%u` and `%llu`. */
  function Digits(n: nat): (s: string)
    ensures |s| >= 1 && AllDigits(s)
    decreases n
  {
    if n < 10 then
      assert [DigitChar(n)][..0] == [];
      [DigitChar(n)]
    else
      var front := Digits(n / 10);
      assert (front + [DigitChar(n % 10)])[..|front|] == front;
      front + [DigitChar(n % 10)]
  }

  function Zeros(k: nat): (s: string)
    ensures |s| == k && AllDigits(s)
  {
    if k == 0 then []
    else
      var z := Zeros(k - 1);
      assert (z + ['0'])[..k - 1] == z;
      z + ['0']
  }

  /** `%0<w>llu`: padded with zeros on the left up to width w. */
  function ZeroPadded(n: nat, w: nat): string {
    var d := Digits(n);
    if |d| >= w then d else Zeros(w - |d|) + d
  }

  /** `%llu.%09llu` applied to n / 10^9 and n % 10^9. */
  function TimestampText(n: nat): string {
    Digits(n / 1_000_000_000) + "." + ZeroPadded(n % 1_000_000_000, 9)
  }

  // ---- Reading numbers.

  function SpacePrefix(s: string): (k: nat)
    ensures k <= |s|
  {
    if s != [] && IsSpace(s[0]) then 1 + SpacePrefix(s[1..]) else 0
  }

  function DigitPrefix(s: string): (k: nat)
    ensures k <= |s|
  {
    if s != [] && IsDigit(s[0]) then 1 + DigitPrefix(s[1..]) else 0
  }

  function Saturate(v: int): int {
    if v >= TWO_63 then TWO_63 - 1 else if v + TWO_63 < 0 then 0 - TWO_63 else v
  }

  /** `strtol(s, &end, 10)` on a 64-bit long: the value, and the text at `end`. */
  function Strtol(s: string): (int, string) {
    var t := s[SpacePrefix(s)..];
    var u := if t != [] && (t[0] == '-' || t[0] == '+') then t[1..] else t;
    var k := DigitPrefix(u);
    if k == 0 then (0, s)
    else (Saturate(if t[0] == '-' then 0 - Value(u[..k]) else Value(u[..k])), u[k..])
  }

  /** `atoll`, `atoi`: the value part of strtol. */
  function Atoll(s: string): int { Strtol(s).0 }

  /** Position of the first x, or the length when there is none. */
  function IndexOf<T(==)>(s: seq<T>, x: T): (k: nat)
    ensures k <= |s|
  {
    if s == [] || s[0] == x then 0 else 1 + IndexOf(s[1..], x)
  }

  /** The nine fraction digits the parser keeps: cut or zero-filled on the right. */
  function NineDigits(frac: string): (s: string)
    ensures |s| == 9
  {
    if |frac| >= 9 then frac[..9] else frac + Zeros(9 - |frac|)
  }

  /** What `parse_timestamp_ns` yields, with its uint64 wrap-around. */
  function TimestampNs(ts: string): (n: nat)
    ensures n < TWO_64
  {
    var dot := IndexOf(ts, '.');
    if ts == "NULL" then 0
    else if dot == |ts| then JoinNs(Atoll(ts), 0)
    else JoinNs(Atoll(ts), Atoll(NineDigits(ts[dot + 1..])))
  }

  /** seconds * 10^9 + nanoseconds on uint64, both cast from long long. */
  function JoinNs(seconds: int, nanoseconds: int): (n: nat)
    ensures n < TWO_64
  {
    Wrap64(Wrap64(seconds) * 1_000_000_000 + Wrap64(nanoseconds))
  }

  lemma {:induction false} ZerosAt(k: nat)
    ensures forall i :: 0 <= i < k ==> Zeros(k)[i] == '0'
  {
    if k > 0 {
      ZerosAt(k - 1);
      assert Zeros(k) == Zeros(k - 1) + ['0'];
    }
  }

  lemma {:induction false} NineDigitsAt(frac: string, i: nat)
    requires i < 9
    ensures NineDigits(frac)[i] == if i < |frac| then frac[i] else '0'
  {
    hide Zeros;
    if |frac| < 9 { ZerosAt(9 - |frac|); }
  }

  /** The fraction buffer: 15 characters copied, cut at 9, zero-filled up to 9. */
  method FillFraction(frac: string, fracStr: array<char>)
    requires fracStr.Length == 16
    modifies fracStr
    ensures fracStr[..9] == NineDigits(frac) && fracStr[9] == '\0'
  {
    hide NineDigits;
    var copied := if |frac| < 15 then |frac| else 15;
    for i := 0 to copied
      invariant forall j :: 0 <= j < i ==> fracStr[j] == frac[j]
    {
      fracStr[i] := frac[i];
    }
    var fracLen := if copied > 9 then 9 else copied;
    for i := fracLen to 9
      invariant forall j :: 0 <= j < i ==> fracStr[j] == if j < |frac| then frac[j] else '0'
    {
      fracStr[i] := '0';
    }
    fracStr[9] := '\0';
    forall i | 0 <= i < 9 ensures fracStr[i] == NineDigits(frac)[i] {
      NineDigitsAt(frac, i);
    }
  }

  /** `parse_timestamp_ns`, with its 16-byte fraction buffer. */
  method ParseTimestampNs(ts: string) returns (ns: nat)
    ensures ns == TimestampNs(ts)
  {
    hide IndexOf, Atoll, NineDigits;
    if ts == "NULL" { return 0; }
    var dot := IndexOf(ts, '.');
    var seconds := Wrap64(Atoll(ts));
    if dot == |ts| { return Wrap64(seconds * 1_000_000_000); }
    var fracStr := new char[16];
    FillFraction(ts[dot + 1..], fracStr);
    return Wrap64(seconds * 1_000_000_000 + Wrap64(Atoll(fracStr[..9])));
  }

  // ---- Values of digit strings.

  lemma {:induction false} DigitsAppend(a: string, b: string)
    requires AllDigits(a) && AllDigits(b)
    ensures AllDigits(a + b)
    decreases |b|
  {
    if b == [] {
      assert a + b == a;
    } else {
      DigitsAppend(a, b[..|b| - 1]);
      assert (a + b)[..|a + b| - 1] == a + b[..|b| - 1];
    }
  }

  lemma {:induction false} DigitsTail(s: string)
    requires s != [] && AllDigits(s)
    ensures IsDigit(s[0]) && AllDigits(s[1..])
  {
    if |s| > 1 {
      DigitsTail(s[..|s| - 1]);
      assert s[1..][..|s| - 2] == s[..|s| - 1][1..];
    }
  }

  lemma {:induction false} ValueAppend(a: string, b: string)
    ensures Value(a + b) == Value(a) * Pow10(|b|) + Value(b)
    decreases |b|
  {
    if b == [] {
      assert a + b == a;
    } else {
      var b' := b[..|b| - 1];
      ValueAppend(a, b');
      assert (a + b)[..|a + b| - 1] == a + b';
      TenTimes(Value(a), Pow10(|b'|));
    }
  }

  lemma {:induction false} TenTimes(x: nat, p: nat)
    ensures x * (10 * p) == 10 * (x * p)
  {
  }

  lemma {:induction false} ValueBelowPow10(s: string)
    ensures Value(s) < Pow10(|s|)
  {
    if s != [] {
      ValueBelowPow10(s[..|s| - 1]);
    }
  }

  lemma {:induction false} ValueOfZeros(k: nat)
    ensures Value(Zeros(k)) == 0
  {
    if k > 0 {
      assert Zeros(k)[..k - 1] == Zeros(k - 1) && Zeros(k)[k - 1] == '0';
      ValueOfZeros(k - 1);
    }
  }

  lemma {:induction false} ValueOfDigits(n: nat)
    ensures Value(Digits(n)) == n
    decreases n
  {
    if n >= 10 {
      ValueOfDigits(n / 10);
      var s := Digits(n);
      assert s[..|s| - 1] == Digits(n / 10);
    } else {
      assert Digits(n)[..0] == [];
    }
  }

  lemma {:induction false} DigitsLength(n: nat, k: nat)
    requires k > 0
    ensures n < Pow10(k) ==> |Digits(n)| <= k
    decreases k
  {
    if n >= 10 {
      if k == 1 {
        assert Pow10(1) == 10 * Pow10(0);
      } else {
        DigitsLength(n / 10, k - 1);
      }
    }
  }

  lemma {:induction false} Pow10Values()
    ensures Pow10(5) == 100_000 && Pow10(9) == 1_000_000_000
    ensures Pow10(10) == 10_000_000_000 && Pow10(11) == 100_000_000_000
  {
    assert Pow10(3) == 1000;
    assert Pow10(6) == 1_000_000;
    assert Pow10(8) == 100_000_000;
  }

  lemma {:induction false} ZeroPaddedValue(n: nat, w: nat)
    requires w > 0 && n < Pow10(w)
    ensures |ZeroPadded(n, w)| == w && Value(ZeroPadded(n, w)) == n && AllDigits(ZeroPadded(n, w))
  {
    var d := Digits(n);
    assert |d| <= w by { DigitsLength(n, w); }
    assert Value(d) == n by { ValueOfDigits(n); }
    if |d| < w {
      var z := Zeros(w - |d|);
      assert Value(z + d) == n by {
        ValueOfZeros(w - |d|);
        ValueAppend(z, d);
      }
      DigitsAppend(z, d);
    }
  }

  lemma {:induction false} DigitPrefixOf(a: string, b: string)
    requires AllDigits(a) && (b == [] || !IsDigit(b[0]))
    ensures DigitPrefix(a + b) == |a|
  {
    if a == [] {
      assert a + b == b;
    } else {
      DigitsTail(a);
      assert (a + b)[1..] == a[1..] + b;
      DigitPrefixOf(a[1..], b);
    }
  }

  /** strtol reads back a nonempty digit string, up to saturation, and stops right after it. */
  lemma {:induction false} StrtolOfDigits(a: string, b: string)
    requires a != [] && AllDigits(a) && (b == [] || !IsDigit(b[0]))
    ensures Strtol(a + b) == (Saturate(Value(a)), b)
  {
    DigitPrefixOf(a, b);
    DigitsTail(a);
    var s := a + b;
    assert s[0] == a[0] && s[SpacePrefix(s)..] == s;
    assert s[..|a|] == a && s[|a|..] == b;
  }

  lemma {:induction false} StrtolOfPrinted(n: nat)
    requires n < TWO_63
    ensures Strtol(Digits(n)) == (n, "")
  {
    StrtolOfDigits(Digits(n), "");
    assert Digits(n) + "" == Digits(n);
    ValueOfDigits(n);
  }

  /** Out-of-range numbers become the nearest long: no long w lies closer, on either side. */
  lemma {:induction false} SaturateIsNearest(v: int, w: int)
    requires -0x8000_0000_0000_0000 <= w < 0x8000_0000_0000_0000
    ensures -0x8000_0000_0000_0000 <= Saturate(v) < 0x8000_0000_0000_0000
    ensures v <= w ==> v <= Saturate(v) <= w
    ensures w <= v ==> w <= Saturate(v) <= v
  {
  }

  lemma {:induction false} SpacesSkipped(spaces: string, rest: string)
    requires forall i :: 0 <= i < |spaces| ==> IsSpace(spaces[i])
    requires rest == "" || !IsSpace(rest[0])
    ensures SpacePrefix(spaces + rest) == |spaces|
  {
    if spaces == "" {
      assert spaces + rest == rest;
    } else {
      assert (spaces + rest)[1..] == spaces[1..] + rest;
      SpacesSkipped(spaces[1..], rest);
    }
  }

  /** strtol skips spaces, takes one sign, and reads the digits that follow, stopping right after them. */
  lemma {:induction false} StrtolReadsSigned(spaces: string, sign: string, digits: string, rest: string)
    requires forall i :: 0 <= i < |spaces| ==> IsSpace(spaces[i])
    requires sign == "" || sign == "+" || sign == "-"
    requires digits != [] && AllDigits(digits) && (rest == [] || !IsDigit(rest[0]))
    ensures Strtol(spaces + (sign + (digits + rest)))
      == (Saturate(if sign == "-" then 0 - Value(digits) else Value(digits)), rest)
  {
    hide Saturate, Value, SpacePrefix, DigitPrefix, AllDigits;
    DigitsTail(digits);
    var t, u := sign + (digits + rest), digits + rest;
    assert t[0] == if sign == "" then digits[0] else sign[0];
    SpacesSkipped(spaces, t);
    assert (spaces + t)[|spaces|..] == t;
    assert sign == "" ==> t == u;
    assert sign != "" ==> t[1..] == u;
    DigitPrefixOf(digits, rest);
    assert u[..|digits|] == digits && u[|digits|..] == rest;
  }

  /** With no digit after the spaces and the sign it reads nothing: zero, and the end is the start. */
  lemma {:induction false} StrtolWithoutDigits(spaces: string, sign: string, rest: string)
    requires forall i :: 0 <= i < |spaces| ==> IsSpace(spaces[i])
    requires sign == "" || sign == "+" || sign == "-"
    requires rest == [] || (!IsDigit(rest[0]) && !IsSpace(rest[0]) && (sign == "" ==> rest[0] != '+' && rest[0] != '-'))
    ensures Strtol(spaces + (sign + rest)) == (0, spaces + (sign + rest))
  {
    hide SpacePrefix;
    var t := sign + rest;
    SpacesSkipped(spaces, t);
    assert (spaces + t)[|spaces|..] == t;
    assert sign == "" ==> t == rest;
    assert sign != "" ==> t[1..] == rest;
  }

  /** A missing timestamp counts as zero. */
  lemma {:induction false} NullIsZero()
    ensures TimestampNs("NULL") == 0
  {
  }

  /** A timestamp without a point is whole seconds. */
  lemma {:induction false} WholeSecondsParse(sec: string)
    requires sec != [] && AllDigits(sec) && Value(sec) < TWO_63
    ensures TimestampNs(sec) == Wrap64(Value(sec) * 1_000_000_000)
  {
    hide Value, IndexOf, DigitPrefix, SpacePrefix;
    StrtolOfDigits(sec, "");
    assert sec + "" == sec;
    NoDotInDigits(sec);
    IndexOfNone(sec, '.');
    DigitsTail(sec);
  }

  lemma {:induction false} IndexOfNone(s: string, c: char)
    requires c !in s
    ensures IndexOf(s, c) == |s|
  {
    if s != [] { IndexOfNone(s[1..], c); }
  }

  /** floor(value * 10^9) of the decimal number sec.frac. */
  function FloorNs(sec: string, frac: string): int {
    Value(sec + frac) * 1_000_000_000 / Pow10(|frac|)
  }

  lemma {:induction false} Pow10Add(i: nat, j: nat)
    ensures Pow10(i + j) == Pow10(i) * Pow10(j)
    decreases i
  {
    if i > 0 {
      Pow10Add(i - 1, j);
      TenTimes(Pow10(j), Pow10(i - 1));
    }
  }

  lemma {:induction false} NineDigitsScale(frac: string)
    requires |frac| <= 9
    ensures Value(NineDigits(frac)) == Value(frac) * Pow10(9 - |frac|)
  {
    var z := Zeros(9 - |frac|);
    assert NineDigits(frac) == frac + z by { assert |frac| == 9 ==> frac[..9] == frac; }
    ValueAppend(frac, z);
    ValueOfZeros(9 - |frac|);
  }

  lemma {:induction false} FloorNsShort(sec: string, frac: string)
    requires |frac| <= 9
    ensures FloorNs(sec, frac) == Value(sec) * 1_000_000_000 + Value(NineDigits(frac))
  {
    hide Value, NineDigits, Pow10;
    var p, q := Pow10(|frac|), Pow10(9 - |frac|);
    ValueAppend(sec, frac);
    NineDigitsScale(frac);
    assert p * q == 1_000_000_000 by { Pow10Values(); Pow10Add(|frac|, 9 - |frac|); }
    ScaledQuotient(Value(sec), Value(frac), p, q);
  }

  lemma {:induction false} ScaledQuotient(s: nat, f: nat, p: nat, q: nat)
    requires p > 0
    ensures (s * p + f) * (p * q) / p == s * (p * q) + f * q
  {
    var r := s * (p * q) + f * q;
    assert (s * p + f) * (p * q) == p * r + 0 by {
      assert (s * p + f) * (p * q) == (s * p) * (p * q) + f * (p * q);
      assert (s * p) * (p * q) == p * (s * (p * q));
      assert f * (p * q) == p * (f * q);
      assert p * r == p * (s * (p * q)) + p * (f * q);
    }
    RemainderIs((s * p + f) * (p * q), p, r, 0);
  }

  lemma {:induction false} FloorNsLong(sec: string, frac: string)
    requires |frac| > 9
    ensures FloorNs(sec, frac) == Value(sec) * 1_000_000_000 + Value(NineDigits(frac))
  {
    var g, h := frac[..9], frac[9..];
    assert sec + frac == (sec + g) + h;
    ValueAppend(sec, g);
    ValueAppend(sec + g, h);
    ValueBelowPow10(h);
    assert Pow10(|frac|) == 1_000_000_000 * Pow10(|h|) && Pow10(9) == 1_000_000_000 by {
      Pow10Values();
      Pow10Add(9, |h|);
    }
    CutQuotient(Value(sec + g), Value(h), Pow10(|h|), 1_000_000_000);
  }

  lemma {:induction false} FloorNsSplits(sec: string, frac: string)
    ensures FloorNs(sec, frac) == Value(sec) * 1_000_000_000 + Value(NineDigits(frac))
  {
    if |frac| <= 9 { FloorNsShort(sec, frac); } else { FloorNsLong(sec, frac); }
  }

  lemma {:induction false} CutQuotient(v: nat, h: nat, p: nat, m: nat)
    requires h < p && m > 0
    ensures m * p > 0 && (v * p + h) * m / (m * p) == v
  {
    assert m * p > 0 by { MultipleIsFar(m, p); }
    assert (v * p + h) * m == (m * p) * v + h * m by {
      assert (v * p + h) * m == v * p * m + h * m;
      assert v * p * m == (m * p) * v;
    }
    assert h * m < m * p by {
      assert m * p - h * m == m * (p - h);
      MultipleIsFar(m, p - h);
    }
    RemainderIs((v * p + h) * m, m * p, v, h * m);
  }

  lemma {:induction false} SecondsRead(sec: string, frac: string)
    requires sec != [] && AllDigits(sec) && Value(sec) < TWO_63
    ensures Atoll(sec + "." + frac) == Value(sec)
  {
    assert sec + "." + frac == sec + ("." + frac);
    StrtolOfDigits(sec, "." + frac);
  }

  lemma {:induction false} DecimalJoins(sec: string, frac: string)
    requires sec != [] && AllDigits(sec) && AllDigits(frac) && Value(sec) < TWO_63
    ensures TimestampNs(sec + "." + frac) == JoinNs(Value(sec), Value(NineDigits(frac)))
  {
    var ts := sec + "." + frac;
    SecondsRead(sec, frac);
    NoDotInDigits(sec);
    IndexOfAppend(sec, frac, '.');
    DigitsTail(sec);
    assert ts[|sec| + 1..] == frac && ts[0] == sec[0];
    NineDigitsRead(frac);
  }

  lemma {:induction false} JoinNsInRange(s: nat, n: nat)
    requires s < TWO_63 && n < 1_000_000_000
    ensures JoinNs(s, n) == Wrap64(s * 1_000_000_000 + n)
  {
  }

  lemma {:induction false} DecimalParse(sec: string, frac: string)
    requires sec != [] && AllDigits(sec) && AllDigits(frac) && Value(sec) < TWO_63
    ensures TimestampNs(sec + "." + frac) == Wrap64(Value(sec) * 1_000_000_000 + Value(NineDigits(frac)))
  {
    hide *;
    DecimalJoins(sec, frac);
    NineDigitsRead(frac);
    JoinNsInRange(Value(sec), Value(NineDigits(frac)));
  }

  /** sec.frac parses to the floor of its value in nanoseconds, however many fraction digits it has. */
  lemma {:induction false} DecimalParsesToFloor(sec: string, frac: string)
    requires sec != [] && AllDigits(sec) && AllDigits(frac) && Value(sec) < TWO_63
    ensures TimestampNs(sec + "." + frac) == Wrap64(FloorNs(sec, frac))
  {
    hide *;
    DecimalParse(sec, frac);
    FloorNsSplits(sec, frac);
  }

  lemma {:induction false} DigitsPrefix(s: string, k: nat)
    requires AllDigits(s) && k <= |s|
    ensures AllDigits(s[..k])
  {
    if k == |s| {
      assert s[..k] == s;
    } else {
      DigitsPrefix(s[..|s| - 1], k);
      assert s[..|s| - 1][..k] == s[..k];
    }
  }

  lemma {:induction false} NineDigitsAreDigits(frac: string)
    requires AllDigits(frac)
    ensures AllDigits(NineDigits(frac))
  {
    if |frac| >= 9 { DigitsPrefix(frac, 9); } else { DigitsAppend(frac, Zeros(9 - |frac|)); }
  }

  lemma {:induction false} NineDigitsRead(frac: string)
    requires AllDigits(frac)
    ensures Atoll(NineDigits(frac)) == Value(NineDigits(frac)) < 1_000_000_000
  {
    var nine := NineDigits(frac);
    NineDigitsAreDigits(frac);
    StrtolOfDigits(nine, "");
    assert nine + "" == nine;
    ValueBelowPow10(nine);
    Pow10Values();
  }

  lemma {:induction false} NoDotInDigits(s: string)
    requires AllDigits(s)
    ensures forall i :: 0 <= i < |s| ==> IsDigit(s[i])
    ensures '.' !in s
  {
    if s != [] {
      NoDotInDigits(s[..|s| - 1]);
      forall i | 0 <= i < |s| ensures IsDigit(s[i]) {
        if i < |s| - 1 { assert s[i] == s[..|s| - 1][i]; }
      }
    }
  }

  lemma {:induction false} IndexOfAppend(a: string, b: string, c: char)
    requires c !in a
    ensures IndexOf(a + [c] + b, c) == |a|
  {
    if a != [] {
      assert (a + [c] + b)[1..] == a[1..] + [c] + b;
      IndexOfAppend(a[1..], b, c);
    }
  }

  lemma {:induction false} PaddedFraction(n: nat)
    ensures var frac := ZeroPadded(n % 1_000_000_000, 9);
      |frac| == 9 && AllDigits(frac) && NineDigits(frac) == frac && Value(frac) == n % 1_000_000_000
  {
    Pow10Values();
    ZeroPaddedValue(n % 1_000_000_000, 9);
  }

  /** The parser undoes the logger's format on every 64-bit timestamp. */
  lemma {:induction false} PrintedTimestampParsesBack(n: nat)
    requires n < TWO_64
    ensures TimestampNs(TimestampText(n)) == n
  {
    hide TimestampNs, Value, ZeroPadded;
    var sec, frac := Digits(n / 1_000_000_000), ZeroPadded(n % 1_000_000_000, 9);
    ValueOfDigits(n / 1_000_000_000);
    PaddedFraction(n);
    DecimalParse(sec, frac);
  }

  lemma {:induction false} TimestampTextShape(n: nat)
    requires n < TWO_64
    ensures 1 <= |TimestampText(n)| <= 21
    ensures forall i :: 0 <= i < |TimestampText(n)| ==> IsDigit(TimestampText(n)[i]) || TimestampText(n)[i] == '.'
  {
    hide AllDigits, Digits, ZeroPadded, Value, Pow10;
    Pow10Values();
    DigitsLength(n / 1_000_000_000, 11);
    ZeroPaddedValue(n % 1_000_000_000, 9);
    NoDotInDigits(Digits(n / 1_000_000_000));
    NoDotInDigits(ZeroPadded(n % 1_000_000_000, 9));
  }
}
