// The three independent UDP header parsers: the XDP filter that redirects a
// frame, the checked extractor and the branch-hinted fast one. Frames are byte
// sequences; every index is proved in bounds.
module Parsers {
  import opened Wrappers
  import opened Bits

  /** Where the payload starts and how long it is. */
  datatype Payload = Payload(offset: nat, length: nat)

  datatype Action = Pass | Redirect

  /** Target address and port as the filter's configuration map holds them. */
  datatype UnicastConfig = UnicastConfig(ip: seq<nat>, port: nat)

  const ETH_P_IP: nat := 0x0800
  const IPPROTO_UDP: nat := 17

  /** ntohs of the two bytes at i. */
  function BigWord(f: seq<nat>, i: nat): nat
    requires i + 1 < |f|
  {
    256 * f[i] + f[i + 1]
  }

  /** The `ihl` bit-field times four. */
  function IpHeaderLength(f: seq<nat>): nat
    requires |f| > 14
  {
    f[14] % 16 * 4
  }

  /** `extractUdpPayload`. */
  function ExtractUdpPayload(f: seq<nat>): Option<Payload> {
    if |f| < 42 || BigWord(f, 12) != ETH_P_IP || f[23] != IPPROTO_UDP then None
    else
      var ipLength := IpHeaderLength(f);
      if ipLength < 20 then None
      else
        var headers := 14 + ipLength + 8;
        if |f| < headers then None
        else
          var udpLength := BigWord(f, 14 + ipLength + 4);
          if udpLength < 8 || udpLength > |f| - headers + 8 then None
          else Some(Payload(headers, udpLength - 8))
  }

  /** `extractUdpPayloadFast`: masks and shifts, and no look at the UDP length. */
  function ExtractUdpPayloadFast(f: seq<nat>): Option<Payload> {
    if |f| < 42 || BigWord(f, 12) != ETH_P_IP || f[23] != IPPROTO_UDP then None
    else
      var ipLength := BitAnd(f[14] % 16, 0x0F) * 4;
      if ipLength < 20 then None
      else if |f| < 14 + ipLength + 8 then None
      else Some(Payload(14 + ipLength + 8, |f| - (14 + ipLength + 8)))
  }

  /** `unicast_filter`. */
  function UnicastFilter(f: seq<nat>, config: Option<UnicastConfig>, socketOnQueue: bool): Action {
    if |f| < 14 || BigWord(f, 12) != ETH_P_IP then Pass
    else if |f| < 34 || f[23] != IPPROTO_UDP then Pass
    else
      var ipLength := IpHeaderLength(f);
      if ipLength < 20 then Pass
      else if 14 + ipLength + 8 > |f| then Pass
      else if config.None? then Pass
      else if f[30..34] != config.value.ip || BigWord(f, 14 + ipLength + 2) != config.value.port then Pass
      else if socketOnQueue then Redirect else Pass
  }

  lemma {:induction false} NibbleMask(x: nat)
    requires x < 16
    ensures BitAnd(x, 0x0F) == x
  {
    hide BitAnd;
    assert Pow2(4) == 16;
    MaskIsRemainder(x, 4);
  }

  lemma {:induction false} FastOffset(f: seq<nat>)
    ensures ExtractUdpPayloadFast(f).Some? ==>
      && |f| >= 42 && 20 <= IpHeaderLength(f) <= |f| - 22
      && ExtractUdpPayloadFast(f).value == Payload(22 + IpHeaderLength(f), |f| - (22 + IpHeaderLength(f)))
    ensures ExtractUdpPayloadFast(f).Some? <==>
      && |f| >= 42 && BigWord(f, 12) == ETH_P_IP && f[23] == IPPROTO_UDP
      && 20 <= IpHeaderLength(f) && 22 + IpHeaderLength(f) <= |f|
  {
    hide BitAnd;
    if |f| >= 42 { NibbleMask(f[14] % 16); }
  }

  /** The filter redirects exactly the frames the fast extractor accepts that are addressed to the target. */
  lemma {:induction false} RedirectedIffFastAcceptsTarget(f: seq<nat>, config: Option<UnicastConfig>,
                                                          socketOnQueue: bool)
    ensures UnicastFilter(f, config, socketOnQueue) == Redirect <==>
      && ExtractUdpPayloadFast(f).Some? && config.Some? && socketOnQueue
      && ExtractUdpPayloadFast(f).value.offset <= |f| && 42 <= ExtractUdpPayloadFast(f).value.offset
      && f[30..34] == config.value.ip
      && BigWord(f, ExtractUdpPayloadFast(f).value.offset - 6) == config.value.port
  {
    hide ExtractUdpPayloadFast;
    FastOffset(f);
  }

  /** The checked extractor accepts exactly the fast one's frames whose UDP length is sane... */
  lemma {:induction false} CheckedIffFastAndSaneLength(f: seq<nat>)
    ensures ExtractUdpPayload(f).Some? <==>
      && ExtractUdpPayloadFast(f).Some?
      && 42 <= ExtractUdpPayloadFast(f).value.offset <= |f|
      && var udp := ExtractUdpPayloadFast(f).value.offset - 8;
         8 <= BigWord(f, udp + 4) <= |f| - udp
  {
    hide ExtractUdpPayloadFast;
    FastOffset(f);
  }

  /** ...finds the payload at the same place, and no longer; equally long exactly when UDP fills the frame. */
  lemma {:induction false} CheckedWithinFast(f: seq<nat>)
    requires ExtractUdpPayload(f).Some?
    ensures var checked, quick := ExtractUdpPayload(f).value, ExtractUdpPayloadFast(f);
      && quick.Some? && quick.value.offset == checked.offset
      && 42 <= checked.offset && checked.offset + checked.length <= |f|
      && checked.offset + quick.value.length == |f|
      && (checked.length == quick.value.length <==> BigWord(f, checked.offset - 4) == |f| - (checked.offset - 8))
  {
    hide ExtractUdpPayloadFast;
    FastOffset(f);
  }

  /** A redirected frame is always accepted by the fast extractor; by the checked one unless its UDP length lies. */
  lemma {:induction false} RedirectedFrames(f: seq<nat>, config: Option<UnicastConfig>, socketOnQueue: bool)
    requires UnicastFilter(f, config, socketOnQueue) == Redirect
    ensures ExtractUdpPayloadFast(f).Some?
    ensures var udp := ExtractUdpPayloadFast(f).value.offset - 8;
      && 34 <= udp <= |f| - 8
      && (ExtractUdpPayload(f).Some? <==> 8 <= BigWord(f, udp + 4) <= |f| - udp)
  {
    hide ExtractUdpPayloadFast, ExtractUdpPayload, UnicastFilter;
    FastOffset(f);
    RedirectedIffFastAcceptsTarget(f, config, socketOnQueue);
    CheckedIffFastAndSaneLength(f);
  }
}
