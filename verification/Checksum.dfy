// The ten-word IP header checksum. The code adds the words in the host's
// little-endian order; RFC 1071 section 2(B) says the order does not matter.
module Checksum {
  import opened Bits

  datatype Order = Host | Network    // little-endian as the code reads, big-endian as on the wire

  predicate Bytes(s: seq<nat>) { forall i :: 0 <= i < |s| ==> s[i] < 256 }

  function Word(a: nat, b: nat, o: Order): nat { if o == Host then a + 256 * b else 256 * a + b }

  /** The sum of the 16-bit words of an even number of bytes. */
  function WordSum(h: seq<nat>, o: Order): nat
  {
    if |h| < 2 then 0 else WordSum(h[..|h| - 2], o) + Word(h[|h| - 2], h[|h| - 1], o)
  }

  /** End-around carries until the sum fits in 16 bits. */
  function Fold(sum: nat): (r: nat)
    ensures r < 0x1_0000
  {
    if sum < 0x1_0000 then sum else Fold(sum % 0x1_0000 + sum / 0x1_0000)
  }

  /** The one's-complement check value for a header whose check field is zero. */
  function CheckValue(h: seq<nat>, o: Order): (c: nat)
    ensures c < 0x1_0000
  {
    0xFFFF - Fold(WordSum(h, o))
  }

  /** A header verifies when its folded word sum is all ones. */
  predicate Verifies(h: seq<nat>, o: Order) { Fold(WordSum(h, o)) == 0xFFFF }

  lemma {:induction false} FoldStep(sum: nat)
    ensures sum % 0x1_0000 + sum / 0x1_0000 <= sum
    ensures (sum - (sum % 0x1_0000 + sum / 0x1_0000)) % 0xFFFF == 0
    ensures sum > 0 ==> sum % 0x1_0000 + sum / 0x1_0000 > 0
  {
    var q := sum / 0x1_0000;
    assert sum - (sum % 0x1_0000 + q) == 0xFFFF * q;
  }

  /** Folding keeps the value modulo 65535 and keeps zero apart from nonzero. */
  lemma {:induction false} FoldMod(sum: nat)
    ensures Fold(sum) <= sum && (sum - Fold(sum)) % 0xFFFF == 0
    ensures Fold(sum) == 0 <==> sum == 0
  {
    if sum >= 0x1_0000 {
      var carried := sum % 0x1_0000 + sum / 0x1_0000;
      FoldStep(sum);
      FoldMod(carried);
      CongruenceChains(sum, carried, Fold(carried));
    }
  }

  lemma {:induction false} CongruenceChains(a: int, b: int, c: int)
    requires (a - b) % 0xFFFF == 0 && (b - c) % 0xFFFF == 0
    ensures (a - c) % 0xFFFF == 0
  {
  }

  /** A sum folds to all ones exactly when it is a positive multiple of 65535. */
  lemma {:induction false} FoldsToOnes(sum: nat)
    ensures Fold(sum) == 0xFFFF <==> sum > 0 && sum % 0xFFFF == 0
  {
    hide Fold;
    FoldMod(sum);
    var f := Fold(sum);
    var k := (sum - f) / 0xFFFF;
    assert sum == 0xFFFF * k + f;
    if f == 0xFFFF { RemainderIs(sum, 0xFFFF, k + 1, 0); } else { RemainderIs(sum, 0xFFFF, k, f); }
  }

  lemma {:induction false} SameFold(a: nat, b: nat)
    requires (a - b) % 0xFFFF == 0 && (a == 0 <==> b == 0) && a < 0x1_0000
    ensures a > 0 ==> a == Fold(b) || (a == 0xFFFF && Fold(b) == 0xFFFF)
    ensures a == Fold(b)
  {
    FoldMod(b);
  }

  /** Reading every word the other way round multiplies the sum by 256, modulo 65535. */
  lemma {:induction false} NetworkSum(h: seq<nat>)
    requires Bytes(h) && |h| % 2 == 0
    ensures (256 * WordSum(h, Host) - WordSum(h, Network)) % 0xFFFF == 0
    ensures WordSum(h, Host) == 0 <==> WordSum(h, Network) == 0
  {
    if |h| >= 2 {
      NetworkSum(h[..|h| - 2]);
      var a, b := h[|h| - 2], h[|h| - 1];
      assert 256 * Word(a, b, Host) - Word(a, b, Network) == 0xFFFF * b;
    }
  }

  lemma {:induction false} TimesTwoFiftySix(x: nat, y: nat)
    requires (256 * x - y) % 0xFFFF == 0
    ensures x % 0xFFFF == 0 <==> y % 0xFFFF == 0
  {
    var k := (256 * x - y) / 0xFFFF;
    assert 256 * x - y == 0xFFFF * k;
    if x % 0xFFFF == 0 {
      var q := x / 0xFFFF;
      assert y == 0xFFFF * (256 * q - k);
      RemainderIs(y, 0xFFFF, 256 * q - k, 0);
    }
    if y % 0xFFFF == 0 {
      var q := y / 0xFFFF;
      assert x == 0xFFFF * (256 * (q + k) - x);
      RemainderIs(x, 0xFFFF, 256 * (q + k) - x, 0);
    }
  }

  /** Byte-order independence: a header verifies as the host reads it exactly when it does on the wire. */
  lemma {:induction false} OrderDoesNotMatter(h: seq<nat>)
    requires Bytes(h) && |h| % 2 == 0
    ensures Verifies(h, Host) <==> Verifies(h, Network)
  {
    NetworkSum(h);
    FoldsToOnes(WordSum(h, Host));
    FoldsToOnes(WordSum(h, Network));
    TimesTwoFiftySix(WordSum(h, Host), WordSum(h, Network));
  }

  /** The header with the check field's two bytes replaced. */
  function WithCheck(h: seq<nat>, low: nat, high: nat): (r: seq<nat>)
    requires |h| == 20
    ensures |r| == 20
  {
    h[..10] + [low, high] + h[12..]
  }

  lemma {:induction false} SumAppend(a: seq<nat>, b: seq<nat>, o: Order)
    requires |a| % 2 == 0 && |b| % 2 == 0
    ensures WordSum(a + b, o) == WordSum(a, o) + WordSum(b, o)
  {
    if |b| == 0 {
      assert a + b == a;
    } else {
      SumAppend(a, b[..|b| - 2], o);
      assert (a + b)[..|a + b| - 2] == a + b[..|b| - 2];
    }
  }

  lemma {:induction false} SumWithCheck(h: seq<nat>, low: nat, high: nat, o: Order)
    requires |h| == 20 && h[10] == 0 && h[11] == 0
    ensures WordSum(WithCheck(h, low, high), o) == WordSum(h, o) + Word(low, high, o)
  {
    assert h == h[..10] + ([0, 0] + h[12..]);
    assert WithCheck(h, low, high) == h[..10] + ([low, high] + h[12..]);
    SumAppend(h[..10], [0, 0] + h[12..], o);
    SumAppend(h[..10], [low, high] + h[12..], o);
    SumAppend([0, 0], h[12..], o);
    SumAppend([low, high], h[12..], o);
    OneWord(0, 0, o);
    OneWord(low, high, o);
  }

  lemma {:induction false} OneWord(a: nat, b: nat, o: Order)
    ensures WordSum([a, b], o) == Word(a, b, o)
  {
    assert WordSum([a, b][..0], o) == 0;
  }

  /** The check value as the code stores it: a uint16 in host order. */
  function Checked(h: seq<nat>): (r: seq<nat>)
    requires |h| == 20
    ensures |r| == 20
  {
    WithCheck(h, CheckValue(h, Host) % 256, CheckValue(h, Host) / 256)
  }

  /** The finished header verifies, whichever way its words are read. */
  lemma {:induction false} CheckedHeaderVerifies(h: seq<nat>)
    requires |h| == 20 && Bytes(h) && h[10] == 0 && h[11] == 0
    ensures Bytes(Checked(h)) && Verifies(Checked(h), Host) && Verifies(Checked(h), Network)
  {
    hide WordSum, Fold, WithCheck;
    var c, s := CheckValue(h, Host), WordSum(h, Host);
    SumWithCheck(h, c % 256, c / 256, Host);
    FoldMod(s);
    FillsUp(s, Fold(s));
    FoldsToOnes(s + c);
    BytesWithCheck(h, c % 256, c / 256);
    OrderDoesNotMatter(Checked(h));
  }

  lemma {:induction false} FillsUp(s: nat, f: nat)
    requires (s - f) % 0xFFFF == 0 && f <= 0xFFFF && (f == 0 <==> s == 0)
    ensures (s + (0xFFFF - f)) % 0xFFFF == 0 && s + (0xFFFF - f) > 0
  {
  }

  lemma {:induction false} BytesWithCheck(h: seq<nat>, low: nat, high: nat)
    requires |h| == 20 && Bytes(h) && low < 256 && high < 256
    ensures Bytes(WithCheck(h, low, high))
  {
  }

  lemma {:induction false} SwapMod(x: nat)
    requires x < 0x1_0000
    ensures var y := 256 * (x % 256) + x / 256;
      && y < 0x1_0000 && (256 * x - y) % 0xFFFF == 0 && (y == 0 <==> x == 0)
      && 0xFFFF - y == 256 * ((0xFFFF - x) % 256) + (0xFFFF - x) / 256
  {
    var lo, hi := x % 256, x / 256;
    assert x == 256 * hi + lo;
    assert 256 * x - (256 * lo + hi) == 0xFFFF * hi;
    assert 0xFFFF - x == 256 * (255 - hi) + (255 - lo);
  }

  /** The two bytes stored are those a network-order computation would put on the wire. */
  lemma {:induction false} SameBytesAsNetworkOrder(h: seq<nat>)
    requires |h| == 20 && Bytes(h)
    ensures CheckValue(h, Network) == 256 * (CheckValue(h, Host) % 256) + CheckValue(h, Host) / 256
  {
    var x, host, net := Fold(WordSum(h, Host)), WordSum(h, Host), WordSum(h, Network);
    var y := 256 * (x % 256) + x / 256;
    hide WordSum, Fold, Bytes;
    NetworkSum(h);
    FoldMod(host);
    SwapMod(x);
    CongruentSwap(host, x, net, y);
    SameFold(y, net);
  }

  lemma {:induction false} CongruentSwap(host: nat, x: nat, net: nat, y: nat)
    requires (256 * host - net) % 0xFFFF == 0 && (host - x) % 0xFFFF == 0 && (256 * x - y) % 0xFFFF == 0
    ensures (y - net) % 0xFFFF == 0
  {
    var a, b, c := (256 * host - net) / 0xFFFF, (256 * x - y) / 0xFFFF, (host - x) / 0xFFFF;
    assert 256 * host - net == 0xFFFF * a && 256 * x - y == 0xFFFF * b && host - x == 0xFFFF * c;
    RemainderIs(y - net, 0xFFFF, a - b - 256 * c, 0);
  }

  // ---- The loop.

  lemma {:induction false} SumBound(h: seq<nat>)
    requires Bytes(h)
    ensures WordSum(h, Host) <= 0x8000 * |h|
  {
    if |h| >= 2 { SumBound(h[..|h| - 2]); }
  }

  lemma {:induction false} SumSnoc(h: seq<nat>, i: nat)
    requires 2 * i + 2 <= |h|
    ensures WordSum(h[..2 * i + 2], Host) == WordSum(h[..2 * i], Host) + Word(h[2 * i], h[2 * i + 1], Host)
  {
    assert h[..2 * i + 2][..2 * i] == h[..2 * i];
  }

  /** `sum & 0xFFFF` and `sum >> 16`. */
  lemma {:induction false} LowHalf(sum: nat)
    ensures BitAnd(sum, 0xFFFF) == sum % 0x1_0000
  {
    hide BitAnd;
    Pow2Values();
    MaskIsRemainder(sum, 16);
  }

  /** The summing and folding loops of createUdpPacket over the header's words, and the stored complement. */
  method HeaderChecksum(h: seq<nat>) returns (check: nat)
    requires |h| == 20 && Bytes(h)
    ensures check == CheckValue(h, Host)
  {
    hide BitAnd, Wrap32;
    var sum: nat := 0;
    assert WordSum(h[..0], Host) == 0;
    for i := 0 to 10
      invariant sum == WordSum(h[..2 * i], Host)
    {
      SumSnoc(h, i);
      SumBound(h[..2 * i + 2]);
      sum := Wrap32(sum + Word(h[2 * i], h[2 * i + 1], Host));
    }
    assert h[..20] == h;
    SumBound(h);
    while sum / 0x1_0000 > 0
      invariant Fold(sum) == Fold(WordSum(h, Host)) && sum < TWO_32
      decreases sum
    {
      LowHalf(sum);
      sum := Wrap32(BitAnd(sum, 0xFFFF) + sum / 0x1_0000);
    }
    check := (0xFFFF_FFFF - sum) % 0x1_0000;
  }
}
