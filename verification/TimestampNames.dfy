// The twelve timestamps a packet can carry, by the names the programs give them.
module TimestampNames {

  /** What each place of the universal timestamp array holds. */
  const STAMP_NAMES := [
    "clt_app_tx_tsc_ts", "clt_app_tx_ts", "clt_ker_tx_ts", "clt_hw_rx_ts", "clt_ker_rx_ts", "clt_app_rx_tsc_ts",
    "clt_app_rx_ts", "svr_hw_rx_ts", "svr_ker_rx_ts", "svr_app_rx_ts", "svr_app_tx_ts", "svr_ker_tx_ts"]

  /** Length, side, layer and direction tell the names apart. */
  ghost function Signature(s: string): (int, char, char, char)
    requires |s| > 9
  {
    (|s|, s[0], s[4], if s[4] == 'h' then s[7] else s[8])
  }

  lemma {:induction false} Signatures()
    ensures |STAMP_NAMES| == 12 && forall i :: 0 <= i < 12 ==> |STAMP_NAMES[i]| > 9
    ensures Signature(STAMP_NAMES[0]) == (17, 'c', 'a', 't') && Signature(STAMP_NAMES[1]) == (13, 'c', 'a', 't')
    ensures Signature(STAMP_NAMES[2]) == (13, 'c', 'k', 't') && Signature(STAMP_NAMES[3]) == (12, 'c', 'h', 'r')
    ensures Signature(STAMP_NAMES[4]) == (13, 'c', 'k', 'r') && Signature(STAMP_NAMES[5]) == (17, 'c', 'a', 'r')
    ensures Signature(STAMP_NAMES[6]) == (13, 'c', 'a', 'r') && Signature(STAMP_NAMES[7]) == (12, 's', 'h', 'r')
    ensures Signature(STAMP_NAMES[8]) == (13, 's', 'k', 'r') && Signature(STAMP_NAMES[9]) == (13, 's', 'a', 'r')
    ensures Signature(STAMP_NAMES[10]) == (13, 's', 'a', 't') && Signature(STAMP_NAMES[11]) == (13, 's', 'k', 't')
  {
  }

  /** No two timestamps share a name. */
  lemma {:induction false} NamesDiffer(i: nat, j: nat)
    requires i < 12 && j < 12 && STAMP_NAMES[i] == STAMP_NAMES[j]
    ensures i == j
  {
    Signatures();
    hide Signature;
    assert Signature(STAMP_NAMES[i]) == Signature(STAMP_NAMES[j]);
  }
}
