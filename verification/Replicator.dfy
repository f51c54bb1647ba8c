// Replicating one received frame to every destination inside the shared UMEM:
// TX frames are taken round-robin from the lower half while the payload is read
// from the upper half.
module Replicator {
  import opened Sequences
  import opened Wrappers
  import opened Bits
  import opened Checksum
  import opened Parsers
  import opened Frames
  import opened UmemPool

  const RX_AREA: nat := 0x80_0000      // 2048 * 4096
  const UMEM_SIZE: nat := 0x100_0000   // 4096 * 4096

  /** Address of the TX frame the k-th send after counter value `first` writes to. */
  function TxAddress(first: nat, k: nat): (addr: nat)
    ensures addr + FRAME_SIZE <= RX_AREA
  {
    (first + k) % 2048 * 4096
  }

  /** The descriptors of the sends whose ring reservation succeeded. */
  function SentDescs(first: nat, len: nat, reserved: seq<bool>): (d: seq<Desc>)
    ensures |d| <= |reserved|
  {
    if reserved == [] then []
    else
      var n := |reserved| - 1;
      SentDescs(first, len, reserved[..n]) + if reserved[n] then [Desc(TxAddress(first, n), len)] else []
  }

  lemma {:induction false} SentDescsSnoc(first: nat, len: nat, reserved: seq<bool>, i: nat)
    requires i < |reserved|
    ensures SentDescs(first, len, reserved[..i + 1])
      == SentDescs(first, len, reserved[..i]) + if reserved[i] then [Desc(TxAddress(first, i), len)] else []
  {
    assert reserved[..i + 1][..i] == reserved[..i];
  }

  /** Up to 2048 consecutive sends use frames that do not overlap. */
  lemma {:induction false} DistinctTxFrames(first: nat, j: nat, k: nat)
    requires j < k < j + TX_FRAMES
    ensures var a, b := TxAddress(first, j), TxAddress(first, k);
      a + FRAME_SIZE <= b || b + FRAME_SIZE <= a
  {
    var x, y := (first + j) % 2048, (first + k) % 2048;
    assert x != y;
  }

  /** The uint32 frame counter wraps without disturbing the frame numbers. */
  lemma {:induction false} CounterFrame(first: nat, k: nat)
    requires first < TWO_32
    ensures Wrap32(first + k) % 2048 * 4096 == TxAddress(first, k)
    ensures Wrap32(Wrap32(first + k) + 1) == Wrap32(first + k + 1)
  {
    RemainderOfRemainder(first + k, 2048, 0x1_0000_0000);
  }

  /** One more frame built: it holds what it should, other TX frames and the RX area are as before. */
  lemma {:induction false} FrameWritten(s: seq<nat>, at: nat, frame: seq<nat>, other: nat, n: nat)
    requires at + |frame| <= RX_AREA && |frame| <= FRAME_SIZE && n <= FRAME_SIZE
    requires |s| == UMEM_SIZE && other + n <= UMEM_SIZE
    ensures Overwrite(s, at, frame)[at..at + |frame|] == frame
    ensures Overwrite(s, at, frame)[RX_AREA..] == s[RX_AREA..]
    ensures other + FRAME_SIZE <= at || at + FRAME_SIZE <= other ==>
      Overwrite(s, at, frame)[other..other + n] == s[other..other + n]
  {
    OverwriteReads(s, at, frame, at, at + |frame|);
    OverwriteReads(s, at, frame, RX_AREA, UMEM_SIZE);
    OverwriteReads(s, at, frame, other, other + n);
    assert frame[at - at..at + |frame| - at] == frame;
  }

  ghost predicate ValidDestinations(dests: seq<Addressing>) {
    forall d :: d in dests ==> ValidAddressing(d)
  }

  /** The newest 2048 frames built so far are in their TX slots. */
  ghost predicate FramesBuilt(umem: seq<nat>, first: nat, dests: seq<Addressing>, i: int, payload: seq<nat>)
    requires |umem| == UMEM_SIZE && ValidDestinations(dests) && 0 <= i <= |dests|
    requires HEADERS + |payload| <= FRAME_SIZE
  {
    forall k :: 0 <= k < i && i - TX_FRAMES <= k ==>
      umem[TxAddress(first, k)..TxAddress(first, k) + HEADERS + |payload|] == Frame(dests[k], payload)
  }

  lemma {:induction false} BuildKeepsOthers(s: seq<nat>, first: nat, dests: seq<Addressing>, i: nat, payload: seq<nat>)
    requires |s| == UMEM_SIZE && ValidDestinations(dests) && i < |dests|
    requires HEADERS + |payload| <= FRAME_SIZE && FramesBuilt(s, first, dests, i, payload)
    ensures FramesBuilt(Overwrite(s, TxAddress(first, i), Frame(dests[i], payload)), first, dests, i + 1, payload)
    ensures Overwrite(s, TxAddress(first, i), Frame(dests[i], payload))[RX_AREA..] == s[RX_AREA..]
  {
    hide Frame, Overwrite, TxAddress;
    var at, frame := TxAddress(first, i), Frame(dests[i], payload);
    FrameWritten(s, at, frame, at, 0);
    forall k | 0 <= k < i && i + 1 - TX_FRAMES <= k
      ensures Overwrite(s, at, frame)[TxAddress(first, k)..TxAddress(first, k) + HEADERS + |payload|]
        == Frame(dests[k], payload)
    {
      DistinctTxFrames(first, k, i);
      FrameWritten(s, at, frame, TxAddress(first, k), HEADERS + |payload|);
    }
  }

  lemma {:induction false} RxSlice(s: seq<nat>, t: seq<nat>, src: nat, n: nat)
    requires |s| == |t| == UMEM_SIZE && s[RX_AREA..] == t[RX_AREA..] && RX_AREA <= src && src + n <= UMEM_SIZE
    ensures s[src..src + n] == t[src..src + n]
  {
    SliceOfTail(s, RX_AREA, src, src + n);
    SliceOfTail(t, RX_AREA, src, src + n);
  }

  /** `sendSinglePacketDirect`: a frame number, the frame, and a descriptor when the TX ring has room. */
  method SendSinglePacketDirect(umem: array<nat>, src: nat, length: nat, dest: Addressing, counter: nat, reserved: bool)
    returns (descs: seq<Desc>, counter': nat)
    requires umem.Length == UMEM_SIZE && RX_AREA <= src && src + length <= UMEM_SIZE && HEADERS + length <= FRAME_SIZE
    requires ValidAddressing(dest)
    modifies umem
    ensures counter' == Wrap32(counter + 1)
    ensures umem[..] == Overwrite(old(umem[..]), counter % 2048 * 4096, Frame(dest, old(umem[..])[src..src + length]))
    ensures descs == if reserved then [Desc(counter % 2048 * 4096, HEADERS + length)] else []
  {
    hide Frame, Overwrite, ValidAddressing;
    var frameAddr := counter % 2048 * 4096;
    counter' := Wrap32(counter + 1);
    assert umem[src..src + length] == umem[..][src..src + length];
    var total := CreateUdpPacket(umem, frameAddr, FRAME_SIZE, src, length, dest);
    descs := if reserved then [Desc(frameAddr, total)] else [];
  }

  /** `replicatePacket` and the sends it makes, given which ring reservations succeed. */
  method ReplicatePacket(umem: array<nat>, rxAddr: nat, rxLen: nat, dests: seq<Addressing>, counter: nat,
                         reserved: seq<bool>)
    returns (sent: nat, descs: seq<Desc>, counter': nat)
    requires umem.Length == UMEM_SIZE && RX_AREA <= rxAddr && rxLen <= FRAME_SIZE && rxAddr + rxLen <= UMEM_SIZE
    requires ValidDestinations(dests) && |reserved| == |dests| && counter < TWO_32
    modifies umem
    ensures umem[RX_AREA..] == old(umem[RX_AREA..]) && sent == |descs|
    ensures var got := ExtractUdpPayload(old(umem[rxAddr..rxAddr + rxLen]));
      && (got.None? ==> sent == 0 && counter' == counter && umem[..] == old(umem[..]))
      && (got.Some? ==>
            && got.value.offset + got.value.length <= rxLen && HEADERS + got.value.length <= rxLen
            && counter' == Wrap32(counter + |dests|)
            && descs == SentDescs(counter, HEADERS + got.value.length, reserved)
            && FramesBuilt(umem[..], counter, dests, |dests|,
                 old(umem[rxAddr + got.value.offset..rxAddr + got.value.offset + got.value.length])))
  {
    hide Frame, Overwrite, ExtractUdpPayload, TxAddress, Wrap32, SentDescs, ValidAddressing, FramesBuilt;
    sent, descs, counter' := 0, [], counter;
    var got := ExtractUdpPayload(umem[rxAddr..rxAddr + rxLen]);
    if got.None? { return; }
    CheckedWithinFast(umem[rxAddr..rxAddr + rxLen]);
    var src, length := rxAddr + got.value.offset, got.value.length;
    ghost var before, payload := umem[..], umem[src..src + length];
    NothingBuilt(before, counter, dests, payload, reserved, HEADERS + length);
    for i := 0 to |dests|
      invariant umem[..][RX_AREA..] == before[RX_AREA..]
      invariant FramesBuilt(umem[..], counter, dests, i, payload)
      invariant counter' == Wrap32(counter + i)
      invariant descs == SentDescs(counter, HEADERS + length, reserved[..i]) && sent == |descs|
    {
      CounterFrame(counter, i);
      RxSlice(umem[..], before, src, length);
      BuildKeepsOthers(umem[..], counter, dests, i, payload);
      SentDescsSnoc(counter, HEADERS + length, reserved, i);
      var added: seq<Desc>;
      added, counter' := SendSinglePacketDirect(umem, src, length, dests[i], counter', reserved[i]);
      descs := descs + added;
      sent := sent + |added|;
    }
    assert reserved[..|dests|] == reserved;
  }

  lemma {:induction false} NothingBuilt(umem: seq<nat>, first: nat, dests: seq<Addressing>, payload: seq<nat>,
                                        reserved: seq<bool>, len: nat)
    requires |umem| == UMEM_SIZE && ValidDestinations(dests) && HEADERS + |payload| <= FRAME_SIZE
    ensures FramesBuilt(umem, first, dests, 0, payload)
    ensures SentDescs(first, len, reserved[..0]) == []
  {
  }

  /** Each of the newest 2048 frames built delivers the received payload to its destination. */
  lemma {:induction false} SentFramesDeliver(umem: seq<nat>, first: nat, dests: seq<Addressing>, payload: seq<nat>,
                                             k: nat)
    requires |umem| == UMEM_SIZE && ValidDestinations(dests) && HEADERS + |payload| <= FRAME_SIZE
    requires FramesBuilt(umem, first, dests, |dests|, payload)
    requires k < |dests| <= k + TX_FRAMES
    ensures var f := umem[TxAddress(first, k)..TxAddress(first, k) + HEADERS + |payload|];
      && OnTheWire(f, dests[k], payload)
      && f[..6] == (if dests[k].foundDstMac.Some? then dests[k].foundDstMac.value
                    else [0xFF, 0xFF, 0xFF, 0xFF, 0xFF, 0xFF])
      && f[6..12] == (if dests[k].foundSrcMac.Some? then dests[k].foundSrcMac.value
                      else [0x02, 0x00, 0x00, 0x00, 0x00, 0x01])
      && UnicastFilter(f, Some(UnicastConfig(dests[k].destIp, dests[k].destPort)), true) == Redirect
      && ExtractUdpPayload(f) == Some(Payload(42, |payload|)) && f[42..] == payload
      && Verifies(f[14..34], Network)
  {
    hide Frame, UnicastFilter, ExtractUdpPayload, Verifies, TxAddress, ValidAddressing, OnTheWire;
    assert dests[k] in dests;
    BuiltFrameIsSound(dests[k], payload);
  }
}
