// Building the Ethernet/IPv4/UDP frame for one destination inside the UMEM
// area, and what the parsers make of the result.
module Frames {
  import opened Wrappers
  import opened Checksum
  import opened Parsers

  const HEADERS: nat := 42
  const FRAME_SIZE: nat := 4096

  /** Everything createUdpPacket looks up or is configured with, in network byte order. */
  datatype Addressing = Addressing(
    foundDstMac: Option<seq<nat>>, foundSrcMac: Option<seq<nat>>,
    srcIp: seq<nat>, listenPort: nat, destIp: seq<nat>, destPort: nat)

  predicate ValidMac(m: Option<seq<nat>>) { m.Some? ==> |m.value| == 6 && Bytes(m.value) }

  predicate ValidAddressing(a: Addressing) {
    && ValidMac(a.foundDstMac) && ValidMac(a.foundSrcMac)
    && |a.srcIp| == 4 && Bytes(a.srcIp) && |a.destIp| == 4 && Bytes(a.destIp)
    && a.listenPort < 0x1_0000 && a.destPort < 0x1_0000
  }

  /** Broadcast when ARP found nothing; a fixed address when the interface has none. */
  function DstMac(a: Addressing): seq<nat> {
    if a.foundDstMac.Some? then a.foundDstMac.value else [0xFF, 0xFF, 0xFF, 0xFF, 0xFF, 0xFF]
  }

  function SrcMac(a: Addressing): seq<nat> {
    if a.foundSrcMac.Some? then a.foundSrcMac.value else [0x02, 0, 0, 0, 0, 0x01]
  }

  /** htons of a length: truncated to 16 bits. */
  function Htons(x: nat): (b: seq<nat>)
    ensures |b| == 2 && b[0] < 256 && b[1] < 256
    ensures 256 * b[0] + b[1] == x % 0x1_0000
  {
    var low := x % 0x1_0000;
    [low / 256, low % 256]
  }

  function EthernetHeader(a: Addressing): seq<nat> { DstMac(a) + SrcMac(a) + [0x08, 0x00] }

  /** The first twelve bytes of the IP header, check field still zero. */
  function IpFields(length: nat): (h: seq<nat>)
    ensures |h| == 12
  {
    [0x45, 0] + Htons(28 + length) + [0x30, 0x39, 0, 0, 64, 17, 0, 0]
  }

  function IpHeader(a: Addressing, length: nat): seq<nat> { IpFields(length) + a.srcIp + a.destIp }

  function UdpHeader(a: Addressing, length: nat): seq<nat> {
    Htons(a.listenPort) + Htons(a.destPort) + Htons(8 + length) + [0, 0]
  }

  /** The wire image: checksummed headers and the payload. */
  function Frame(a: Addressing, payload: seq<nat>): (f: seq<nat>)
    requires ValidAddressing(a)
    ensures |f| == HEADERS + |payload|
  {
    EthernetHeader(a) + Checked(IpHeader(a, |payload|)) + UdpHeader(a, |payload|) + payload
  }

  // ---- Overwriting part of the UMEM.

  function Overwrite(s: seq<nat>, at: nat, bytes: seq<nat>): (r: seq<nat>)
    requires at + |bytes| <= |s|
    ensures |r| == |s|
  {
    s[..at] + bytes + s[at + |bytes|..]
  }

  lemma {:induction false} OverwriteAppend(s: seq<nat>, at: nat, a: seq<nat>, b: seq<nat>)
    requires at + |a| + |b| <= |s|
    ensures Overwrite(Overwrite(s, at, a), at + |a|, b) == Overwrite(s, at, a + b)
  {
  }

  lemma {:induction false} OverwriteAgain(s: seq<nat>, at: nat, a: seq<nat>, b: seq<nat>)
    requires at + |a| <= |s| && |a| == |b|
    ensures Overwrite(Overwrite(s, at, a), at, b) == Overwrite(s, at, b)
  {
  }

  /** Two bytes inside a written stretch replaced. */
  lemma {:induction false} OverwriteInside(s: seq<nat>, at: nat, a: seq<nat>, k: nat, low: nat, high: nat)
    requires at + |a| <= |s| && k + 2 <= |a|
    ensures Overwrite(Overwrite(s, at, a), at + k, [low, high]) == Overwrite(s, at, a[..k] + [low, high] + a[k + 2..])
  {
  }

  lemma {:induction false} OverwriteReads(s: seq<nat>, at: nat, bytes: seq<nat>, i: nat, j: nat)
    requires at + |bytes| <= |s| && i <= j <= |s|
    ensures at <= i && j <= at + |bytes| ==> Overwrite(s, at, bytes)[i..j] == bytes[i - at..j - at]
    ensures j <= at || at + |bytes| <= i ==> Overwrite(s, at, bytes)[i..j] == s[i..j]
  {
  }

  /** memcpy or field stores of known bytes. */
  method WriteBytes(umem: array<nat>, at: nat, bytes: seq<nat>)
    requires at + |bytes| <= umem.Length
    modifies umem
    ensures umem[..] == Overwrite(old(umem[..]), at, bytes)
  {
    for i := 0 to |bytes|
      invariant forall k :: 0 <= k < umem.Length ==>
        umem[k] == if at <= k < at + i then bytes[k - at] else old(umem[k])
    {
      umem[at + i] := bytes[i];
    }
  }

  /** memcpy of the payload from the received frame. */
  method CopyBytes(umem: array<nat>, at: nat, src: nat, n: nat)
    requires at + n <= umem.Length && src + n <= umem.Length
    requires src + n <= at || at + n <= src
    modifies umem
    ensures umem[..] == Overwrite(old(umem[..]), at, old(umem[src..src + n]))
  {
    for i := 0 to n
      invariant forall k :: 0 <= k < umem.Length ==>
        umem[k] == if at <= k < at + i then old(umem[src + (k - at)]) else old(umem[k])
    {
      umem[at + i] := umem[src + i];
    }
  }

  function ZeroBytes(n: nat): (z: seq<nat>)
    ensures |z| == n
  {
    seq<nat>(n, _ => 0)
  }

  lemma {:induction false} HeaderBytes(a: Addressing, length: nat)
    requires ValidAddressing(a)
    ensures |EthernetHeader(a)| == 14 && |IpHeader(a, length)| == 20 && |UdpHeader(a, length)| == 8
    ensures Bytes(IpHeader(a, length)) && IpHeader(a, length)[10] == 0 && IpHeader(a, length)[11] == 0
  {
  }

  /** Ethernet header, IP header and its checksum, written into the buffer at `base`. */
  method WriteIpHeaders(umem: array<nat>, base: nat, length: nat, a: Addressing)
    requires ValidAddressing(a) && base + HEADERS <= umem.Length
    modifies umem
    ensures umem[..] == Overwrite(old(umem[..]), base, EthernetHeader(a) + Checked(IpHeader(a, length)))
  {
    hide EthernetHeader, IpHeader, UdpHeader, Checked, CheckValue, Bytes, Overwrite, WithCheck;
    ghost var before := umem[..];
    ghost var eth, ip := EthernetHeader(a), IpHeader(a, length);
    HeaderBytes(a, length);
    WriteBytes(umem, base, EthernetHeader(a));
    WriteBytes(umem, base + 14, IpHeader(a, length));
    OverwriteAppend(before, base, eth, ip);
    OverwriteReads(before, base, eth + ip, base + 14, base + 34);
    assert umem[..][base + 14..base + 34] == umem[base + 14..base + 34] == ip;
    var check := HeaderChecksum(umem[base + 14..base + 34]);
    WriteBytes(umem, base + 24, [check % 256, check / 256]);
    OverwriteInside(before, base, eth + ip, 24, check % 256, check / 256);
    CheckInPlace(eth, ip, check % 256, check / 256);
    CheckedIs(ip);
  }

  lemma {:induction false} CheckedIs(ip: seq<nat>)
    requires |ip| == 20
    ensures Checked(ip) == WithCheck(ip, CheckValue(ip, Host) % 256, CheckValue(ip, Host) / 256)
  {
  }

  lemma {:induction false} CheckInPlace(eth: seq<nat>, ip: seq<nat>, low: nat, high: nat)
    requires |eth| == 14 && |ip| == 20
    ensures (eth + ip)[..24] + [low, high] + (eth + ip)[26..] == eth + WithCheck(ip, low, high)
  {
  }

  /** `createUdpPacket` on a UMEM buffer, with the payload lying elsewhere in the same UMEM. */
  method CreateUdpPacket(umem: array<nat>, base: nat, bufferSize: nat, src: nat, length: nat, a: Addressing)
    returns (total: nat)
    requires ValidAddressing(a) && base + bufferSize <= umem.Length && src + length <= umem.Length
    requires src + length <= base || base + bufferSize <= src
    modifies umem
    ensures HEADERS + length > bufferSize ==> total == 0 && umem[..] == old(umem[..])
    ensures HEADERS + length <= bufferSize ==>
      && total == HEADERS + length
      && umem[..] == Overwrite(old(umem[..]), base, Frame(a, old(umem[src..src + length])))
  {
    hide EthernetHeader, IpHeader, UdpHeader, Checked, Overwrite, ZeroBytes, Bytes, Htons;
    total := HEADERS + length;
    if total > bufferSize { return 0; }
    ghost var before, payload := umem[..], umem[src..src + length];
    HeaderBytes(a, length);
    ghost var headers := EthernetHeader(a) + Checked(IpHeader(a, length));
    WriteBytes(umem, base, ZeroBytes(total));
    ghost var cleared := umem[..];
    WriteIpHeaders(umem, base, length, a);
    WriteBytes(umem, base + 34, UdpHeader(a, length));
    OverwriteAppend(cleared, base, headers, UdpHeader(a, length));
    PayloadUntouched(before, base, ZeroBytes(total), headers + UdpHeader(a, length), src, length);
    assert umem[src..src + length] == umem[..][src..src + length] == before[src..src + length] == payload;
    CopyBytes(umem, base + 42, src, length);
    OverwriteAppend(cleared, base, headers + UdpHeader(a, length), payload);
    OverwriteAgain(before, base, ZeroBytes(total), Frame(a, payload));
  }

  lemma {:induction false} PayloadUntouched(s: seq<nat>, at: nat, a: seq<nat>, b: seq<nat>, src: nat, n: nat)
    requires |b| <= |a| && at + |a| <= |s| && src + n <= |s| && (src + n <= at || at + |a| <= src)
    ensures Overwrite(Overwrite(s, at, a), at, b)[src..src + n] == s[src..src + n]
  {
    OverwriteReads(s, at, a, src, src + n);
    OverwriteReads(Overwrite(s, at, a), at, b, src, src + n);
  }

  // ---- What the parsers make of a built frame.

  lemma {:induction false} CheckedFields(h: seq<nat>)
    requires |h| == 20
    ensures forall i :: 0 <= i < 20 && i != 10 && i != 11 ==> Checked(h)[i] == h[i]
  {
    hide CheckValue;
  }

  lemma {:induction false} EthernetType(a: Addressing)
    requires ValidAddressing(a)
    ensures |EthernetHeader(a)| == 14 && EthernetHeader(a)[12] == 0x08 && EthernetHeader(a)[13] == 0x00
  {
  }

  lemma {:induction false} AddressFields(a: Addressing, length: nat)
    requires ValidAddressing(a)
    ensures |IpHeader(a, length)| == 20
    ensures Checked(IpHeader(a, length))[12..16] == a.srcIp && Checked(IpHeader(a, length))[16..20] == a.destIp
  {
    hide Checked, Bytes;
    CheckedFields(IpHeader(a, length));
  }

  lemma {:induction false} FrameParts(a: Addressing, payload: seq<nat>)
    requires ValidAddressing(a)
    ensures |EthernetHeader(a)| == 14 && |IpHeader(a, |payload|)| == 20 && |UdpHeader(a, |payload|)| == 8
    ensures var f := Frame(a, payload);
      && f[..14] == EthernetHeader(a) && f[14..34] == Checked(IpHeader(a, |payload|))
      && f[34..42] == UdpHeader(a, |payload|) && f[42..] == payload
  {
    hide EthernetHeader, Checked, IpHeader, UdpHeader, Bytes, ValidAddressing;
    HeaderBytes(a, |payload|);
  }

  /** The fields the parsers look at, by position. */
  lemma {:induction false} FrameFields(a: Addressing, payload: seq<nat>)
    requires ValidAddressing(a)
    ensures var f := Frame(a, payload);
      && BigWord(f, 12) == ETH_P_IP && f[14] == 0x45 && f[23] == IPPROTO_UDP
      && BigWord(f, 16) == (28 + |payload|) % 0x1_0000
      && f[26..30] == a.srcIp && f[30..34] == a.destIp
      && BigWord(f, 34) == a.listenPort && BigWord(f, 36) == a.destPort
      && BigWord(f, 38) == (8 + |payload|) % 0x1_0000
      && f[14..34] == Checked(IpHeader(a, |payload|)) && f[42..] == payload
  {
    hide Checked, Bytes, Frame, EthernetHeader;
    FrameParts(a, payload);
    var f, ip := Frame(a, payload), IpHeader(a, |payload|);
    CheckedFields(ip);
    EthernetType(a);
    assert f[12] == f[..14][12] && f[13] == f[..14][13];
    assert forall i :: 0 <= i < 20 ==> f[14 + i] == f[14..34][i];
    assert forall i :: 0 <= i < 8 ==> f[34 + i] == f[34..42][i];
    AddressFields(a, |payload|);
    assert f[26..30] == f[14..34][12..16] && f[30..34] == f[14..34][16..20];
  }

  /** Extraction gives the payload back exactly when its UDP length fits 16 bits. */
  lemma {:induction false} ExtractInvertsBuild(a: Addressing, payload: seq<nat>)
    requires ValidAddressing(a)
    ensures ExtractUdpPayload(Frame(a, payload)) == Some(Payload(42, |payload|)) <==> |payload| <= 65527
    ensures ExtractUdpPayloadFast(Frame(a, payload)) == Some(Payload(42, |payload|))
    ensures Frame(a, payload)[42..42 + |payload|] == payload
  {
    hide Frame, ExtractUdpPayloadFast, ValidAddressing, BigWord, Checked, IpHeader, Bytes;
    FrameFields(a, payload);
    FastOffset(Frame(a, payload));
  }

  /** The bytes on the wire, one by one: the destination's MAC as found, or broadcast; the interface's, or
      02:00:00:00:00:01; then the fields of RFC 791 section 3.1 and the UDP header, most significant byte first. */
  predicate OnTheWire(f: seq<nat>, a: Addressing, payload: seq<nat>) {
    && |f| == 42 + |payload|
    && f[..6] == (if a.foundDstMac.Some? then a.foundDstMac.value else [0xFF, 0xFF, 0xFF, 0xFF, 0xFF, 0xFF])
    && f[6..12] == (if a.foundSrcMac.Some? then a.foundSrcMac.value else [0x02, 0x00, 0x00, 0x00, 0x00, 0x01])
    && f[12] == 0x08 && f[13] == 0x00
    && f[14] == 0x45 && f[15] == 0 && 256 * f[16] + f[17] == (|f| - 14) % 0x1_0000
    && 256 * f[18] + f[19] == 12345 && f[20] == 0 && f[21] == 0 && f[22] == 64 && f[23] == 17
    && f[26..30] == a.srcIp && f[30..34] == a.destIp
    && 256 * f[34] + f[35] == a.listenPort && 256 * f[36] + f[37] == a.destPort
    && 256 * f[38] + f[39] == (|f| - 34) % 0x1_0000 && f[40] == 0 && f[41] == 0
    && f[42..] == payload
  }

  lemma {:induction false} MacsInPlace(a: Addressing)
    requires ValidAddressing(a)
    ensures |EthernetHeader(a)| == 14
    ensures EthernetHeader(a)[..6] ==
      if a.foundDstMac.Some? then a.foundDstMac.value else [0xFF, 0xFF, 0xFF, 0xFF, 0xFF, 0xFF]
    ensures EthernetHeader(a)[6..12] ==
      if a.foundSrcMac.Some? then a.foundSrcMac.value else [0x02, 0x00, 0x00, 0x00, 0x00, 0x01]
  {
    hide Bytes;
  }

  lemma {:induction false} IpFieldsAre(a: Addressing, length: nat)
    requires ValidAddressing(a)
    ensures var h := IpHeader(a, length);
      && |h| == 20 && h[1] == 0 && 256 * h[4] + h[5] == 12345 && h[6] == 0 && h[7] == 0 && h[8] == 64
  {
    hide Bytes;
  }

  /** Every frame built has exactly these bytes. */
  lemma {:induction false} FrameOnTheWire(a: Addressing, payload: seq<nat>)
    requires ValidAddressing(a)
    ensures OnTheWire(Frame(a, payload), a, payload)
  {
    hide Frame, EthernetHeader, Checked, IpHeader, Bytes;
    FrameFields(a, payload);
    FrameParts(a, payload);
    MacsInPlace(a);
    IpFieldsAre(a, |payload|);
    CheckedFields(IpHeader(a, |payload|));
    var f := Frame(a, payload);
    assert f[..14][..6] == f[..6] && f[..14][6..12] == f[6..12];
    assert f[12] == f[..14][12] && f[13] == f[..14][13];
    assert forall i :: 0 <= i < 20 ==> f[14 + i] == f[14..34][i];
    assert f[40] == f[34..42][6] && f[41] == f[34..42][7];
    EthernetType(a);
  }

  /** Any frame built in a 4096-byte buffer: addressed, lengths untruncated, header verifying, and extractable. */
  lemma {:induction false} BuiltFrameIsSound(a: Addressing, payload: seq<nat>)
    requires ValidAddressing(a) && HEADERS + |payload| <= FRAME_SIZE
    ensures var f := Frame(a, payload);
      && OnTheWire(f, a, payload)
      && f[..6] == (if a.foundDstMac.Some? then a.foundDstMac.value else [0xFF, 0xFF, 0xFF, 0xFF, 0xFF, 0xFF])
      && f[6..12] == (if a.foundSrcMac.Some? then a.foundSrcMac.value else [0x02, 0x00, 0x00, 0x00, 0x00, 0x01])
      && ExtractUdpPayload(f) == ExtractUdpPayloadFast(f) == Some(Payload(42, |payload|)) && f[42..] == payload
      && 256 * f[16] + f[17] == |f| - 14 && 256 * f[38] + f[39] == |f| - 34
      && Verifies(f[14..34], Host) && Verifies(f[14..34], Network)
      && f[30..34] == a.destIp && 256 * f[36] + f[37] == a.destPort
      && UnicastFilter(f, Some(UnicastConfig(a.destIp, a.destPort)), true) == Redirect
  {
    hide Frame, ExtractUdpPayloadFast, ExtractUdpPayload, UnicastFilter, ValidAddressing, Verifies, Checked, IpHeader;
    FrameFields(a, payload);
    FrameOnTheWire(a, payload);
    HeaderBytes(a, |payload|);
    ExtractInvertsBuild(a, payload);
    CheckedHeaderVerifies(IpHeader(a, |payload|));
    RedirectedIffFastAcceptsTarget(Frame(a, payload), Some(UnicastConfig(a.destIp, a.destPort)), true);
  }

  /** A frame built for the payload of a received frame is never longer than that frame, so it always fits a
      UMEM frame. */
  lemma {:induction false} ReplicaFits(f: seq<nat>, a: Addressing)
    requires ValidAddressing(a) && ExtractUdpPayload(f).Some?
    ensures var p := ExtractUdpPayload(f).value;
      && p.offset + p.length <= |f|
      && |Frame(a, f[p.offset..p.offset + p.length])| <= |f|
      && (|f| <= FRAME_SIZE ==>
            var g := Frame(a, f[p.offset..p.offset + p.length]);
            && ExtractUdpPayload(g) == Some(Payload(42, p.length))
            && g[42..] == f[p.offset..p.offset + p.length])
  {
    hide Frame, ExtractUdpPayload, ExtractUdpPayloadFast, UnicastFilter, ValidAddressing, Verifies, BigWord;
    CheckedWithinFast(f);
    var p := ExtractUdpPayload(f).value;
    var payload := f[p.offset..p.offset + p.length];
    if |f| <= FRAME_SIZE { BuiltFrameIsSound(a, payload); }
  }
}
