// The modulo-50000 correlation arrays that stand in for a map from sequence
// numbers to timestamps, on the client's send path and the server's receive path.
module Correlation {
  import opened Bits

  const MAX_SEQUENCE_NUMBERS: nat := 50000

  /** `get_circular_index`. */
  function CircularIndex(seqNum: nat): (i: nat)
    ensures i < MAX_SEQUENCE_NUMBERS
  {
    seqNum % 50000
  }

  /** The slot of a number is what is left of it after whole blocks of 50000. */
  lemma {:induction false} SlotIsRest(blocks: nat, rest: nat)
    requires rest < 50000
    ensures CircularIndex(50000 * blocks + rest) == rest
  {
    RemainderIs(50000 * blocks + rest, 50000, blocks, rest);
  }

  /** What the server keeps of a received packet. */
  datatype Received = Received(hwRx: nat, kerRx: nat, appRx: nat, clientIp: string, clientPort: nat)

  /** Position of the newest store that went into a slot, or -1. */
  function Newest(numbers: seq<nat>, slot: nat): (p: int)
    ensures -1 <= p < |numbers|
    ensures p >= 0 ==> CircularIndex(numbers[p]) == slot
  {
    if numbers == [] then -1
    else if CircularIndex(numbers[|numbers| - 1]) == slot then |numbers| - 1
    else Newest(numbers[..|numbers| - 1], slot)
  }

  lemma {:induction false} NewestSnoc(numbers: seq<nat>, x: nat, slot: nat)
    ensures Newest(numbers + [x], slot) == if CircularIndex(x) == slot then |numbers| else Newest(numbers, slot)
  {
    assert (numbers + [x])[..|numbers|] == numbers;
  }

  lemma {:induction false} NothingLater(numbers: seq<nat>, slot: nat, j: nat)
    requires Newest(numbers, slot) < j < |numbers|
    ensures CircularIndex(numbers[j]) != slot
  {
    hide CircularIndex;
    var n := |numbers| - 1;
    if CircularIndex(numbers[n]) != slot && j < n {
      NothingLater(numbers[..n], slot, j);
    }
  }

  /** strncpy into a 16-byte slot whose last byte is then cleared. */
  function ClipIp(ip: string): (r: string)
    ensures r <= ip && |r| <= 15 && (|ip| > 15 ==> |r| == 15) && (|ip| <= 15 ==> r == ip)
  {
    if |ip| <= 15 then ip else ip[..15]
  }

  /** `app_tx_timestamps` and `app_tx_tsc_values`, with everything stored so far. */
  class ClientArrays {
    var appTx: array<nat>
    var tsc: array<nat>
    ghost var numbers: seq<nat>
    ghost var values: seq<(nat, nat)>

    ghost predicate Valid()
      reads this, appTx, tsc
    {
      && appTx.Length == tsc.Length == MAX_SEQUENCE_NUMBERS && appTx != tsc
      && |values| == |numbers|
      && forall slot :: 0 <= slot < MAX_SEQUENCE_NUMBERS ==> SlotHolds(slot)
    }

    ghost predicate SlotHolds(slot: nat)
      requires slot < MAX_SEQUENCE_NUMBERS && appTx.Length == tsc.Length == MAX_SEQUENCE_NUMBERS
      requires |values| == |numbers|
      reads this, appTx, tsc
    {
      var p := Newest(numbers, slot);
      (appTx[slot], tsc[slot]) == if p < 0 then (0, 0) else values[p]
    }

    /** The two calloc calls. */
    constructor ()
      ensures Valid() && numbers == [] && fresh(appTx) && fresh(tsc)
    {
      appTx := new nat[50000](_ => 0);
      tsc := new nat[50000](_ => 0);
      numbers, values := [], [];
    }

    /** `store_tx_timestamps`. */
    method Store(seqNum: nat, ts: nat, tscValue: nat)
      requires Valid()
      modifies this, appTx, tsc
      ensures Valid() && appTx == old(appTx) && tsc == old(tsc)
      ensures numbers == old(numbers) + [seqNum] && values == old(values) + [(ts, tscValue)]
    {
      hide CircularIndex, Newest;
      var index := CircularIndex(seqNum);
      appTx[index] := ts;
      tsc[index] := tscValue;
      forall slot | 0 <= slot < MAX_SEQUENCE_NUMBERS
        ensures Newest(numbers + [seqNum], slot) == if index == slot then |numbers| else Newest(numbers, slot)
      {
        NewestSnoc(numbers, seqNum, slot);
      }
      numbers, values := numbers + [seqNum], values + [(ts, tscValue)];
      forall slot | 0 <= slot < MAX_SEQUENCE_NUMBERS ensures SlotHolds(slot) {
        assert old(SlotHolds(slot));
      }
    }

    /** The lookup in rx_thread_func: what the newest store into the slot left, zeros when there was none. */
    method Lookup(seqNum: nat) returns (ts: nat, tscValue: nat)
      requires Valid()
      ensures var p := Newest(numbers, CircularIndex(seqNum));
        (ts, tscValue) == if p < 0 then (0, 0) else values[p]
    {
      var index := CircularIndex(seqNum);
      assert SlotHolds(index);
      ts, tscValue := appTx[index], tsc[index];
    }
  }

  /** The server's five parallel arrays. */
  class ServerArrays {
    var hwRx: array<nat>
    var kerRx: array<nat>
    var appRx: array<nat>
    var clientIps: array<string>
    var clientPorts: array<nat>
    ghost var numbers: seq<nat>
    ghost var values: seq<Received>

    ghost predicate Shaped()
      reads this
    {
      && hwRx.Length == kerRx.Length == appRx.Length == MAX_SEQUENCE_NUMBERS
      && clientIps.Length == clientPorts.Length == MAX_SEQUENCE_NUMBERS
      && hwRx != kerRx && hwRx != appRx && kerRx != appRx
      && clientPorts != hwRx && clientPorts != kerRx && clientPorts != appRx
      && |values| == |numbers|
    }

    ghost predicate Valid()
      reads this, hwRx, kerRx, appRx, clientIps, clientPorts
    {
      Shaped() && forall slot :: 0 <= slot < MAX_SEQUENCE_NUMBERS ==> SlotHolds(slot)
    }

    ghost predicate SlotHolds(slot: nat)
      requires slot < MAX_SEQUENCE_NUMBERS && Shaped()
      reads this, hwRx, kerRx, appRx, clientIps, clientPorts
    {
      var p := Newest(numbers, slot);
      Received(hwRx[slot], kerRx[slot], appRx[slot], clientIps[slot], clientPorts[slot])
        == if p < 0 then Received(0, 0, 0, "", 0) else values[p]
    }

    constructor ()
      ensures Valid() && numbers == []
    {
      hwRx := new nat[50000](_ => 0);
      kerRx := new nat[50000](_ => 0);
      appRx := new nat[50000](_ => 0);
      clientIps := new string[50000](_ => "");
      clientPorts := new nat[50000](_ => 0);
      numbers, values := [], [];
    }

    /** `store_server_rx_timestamps`. */
    method Store(seqNum: nat, r: Received)
      requires Valid()
      modifies this, hwRx, kerRx, appRx, clientIps, clientPorts
      ensures Valid() && numbers == old(numbers) + [seqNum]
      ensures values == old(values) + [r.(clientIp := ClipIp(r.clientIp))]
      ensures hwRx == old(hwRx) && kerRx == old(kerRx) && appRx == old(appRx)
      ensures clientIps == old(clientIps) && clientPorts == old(clientPorts)
    {
      hide CircularIndex, Newest, ClipIp;
      var index := CircularIndex(seqNum);
      hwRx[index] := r.hwRx;
      kerRx[index] := r.kerRx;
      appRx[index] := r.appRx;
      clientIps[index] := ClipIp(r.clientIp);
      clientPorts[index] := r.clientPort;
      forall slot | 0 <= slot < MAX_SEQUENCE_NUMBERS
        ensures Newest(numbers + [seqNum], slot) == if index == slot then |numbers| else Newest(numbers, slot)
      {
        NewestSnoc(numbers, seqNum, slot);
      }
      numbers, values := numbers + [seqNum], values + [r.(clientIp := ClipIp(r.clientIp))];
      forall slot | 0 <= slot < MAX_SEQUENCE_NUMBERS ensures SlotHolds(slot) {
        assert old(SlotHolds(slot));
      }
    }

    method Lookup(seqNum: nat) returns (r: Received)
      requires Valid()
      ensures var p := Newest(numbers, CircularIndex(seqNum));
        r == if p < 0 then Received(0, 0, 0, "", 0) else values[p]
    {
      var index := CircularIndex(seqNum);
      assert SlotHolds(index);
      r := Received(hwRx[index], kerRx[index], appRx[index], clientIps[index], clientPorts[index]);
    }
  }

  // ---- When the arrays agree with an unbounded map.

  /** n sequence numbers sent one after another from `first`, as uint32. */
  function Consecutive(first: nat, n: nat): (s: seq<nat>)
    ensures |s| == n
  {
    seq<nat>(n, i requires 0 <= i < n => Wrap32(first + i))
  }

  /** Whether the slot of the k-th number still holds the k-th store. */
  predicate HoldsOwn(numbers: seq<nat>, k: nat)
    requires k < |numbers|
  {
    Newest(numbers, CircularIndex(numbers[k])) == k
  }

  /** It does exactly when no later store went into its slot. */
  lemma {:induction false} HoldsOwnIff(numbers: seq<nat>, k: nat)
    requires k < |numbers|
    ensures HoldsOwn(numbers, k) <==>
      forall j :: k < j < |numbers| ==> CircularIndex(numbers[j]) != CircularIndex(numbers[k])
  {
    hide CircularIndex;
    var slot := CircularIndex(numbers[k]);
    forall j | Newest(numbers, slot) < j < |numbers| ensures CircularIndex(numbers[j]) != slot {
      NothingLater(numbers, slot, j);
    }
  }

  /** Two of the numbers share a slot at multiples of 50000 apart, or, across the wrap, at 17296 plus
      such a multiple. */
  lemma {:induction false} SharedSlot(first: nat, k: nat, j: nat)
    requires first < TWO_32 && k < j < TWO_32
    ensures CircularIndex(Wrap32(first + j)) == CircularIndex(Wrap32(first + k)) <==>
      (j - k) % 50000 == if first + k < TWO_32 <= first + j then 17296 else 0
  {
    hide CircularIndex, Wrap32;
    WrapOnce(first + k);
    WrapOnce(first + j);
    SameIndex(Wrap32(first + k), Wrap32(first + j));
    ShiftedRemainder(j - k);
  }

  lemma {:induction false} WrapOnce(x: nat)
    requires x < 2 * TWO_32
    ensures Wrap32(x) == if x < TWO_32 then x else x - TWO_32
  {
  }

  lemma {:induction false} SameIndex(x: nat, y: nat)
    ensures CircularIndex(x) == CircularIndex(y) <==> (y - x) % 50000 == 0
  {
  }

  /** 2^32 mod 50000 is 17296. */
  lemma {:induction false} ShiftedRemainder(d: int)
    ensures (d - TWO_32) % 50000 == 0 <==> d % 50000 == 17296
  {
  }

  /** How many numbers may follow the k-th before its slot is overwritten, given the distance e from it to the wrap. */
  function Lifetime(first: nat, k: nat): nat {
    var e := TWO_32 - first - k;
    if 1 <= e <= 17296 then 17296 else if 17296 < e <= 50000 then 67296 else 50000
  }

  /** The first later number to share the slot is the one exactly a lifetime away. */
  lemma {:induction false} FirstCollision(first: nat, k: nat, d: nat)
    requires first < TWO_32 && k < TWO_32 && 0 < d <= Lifetime(first, k)
    ensures d % 50000 == (if first + k < TWO_32 <= first + k + d then 17296 else 0) <==> d == Lifetime(first, k)
  {
  }

  lemma {:induction false} CollidesIff(first: nat, n: nat, k: nat, j: nat)
    requires first < TWO_32 && k < j < n <= TWO_32 && j - k <= Lifetime(first, k)
    ensures CircularIndex(Consecutive(first, n)[j]) == CircularIndex(Consecutive(first, n)[k])
      <==> j - k == Lifetime(first, k)
  {
    hide CircularIndex, Wrap32, Lifetime;
    SharedSlot(first, k, j);
    FirstCollision(first, k, j - k);
  }

  /** Exactly when the k-th of n consecutive numbers still has its entry, for any starting point and one full turn. */
  lemma {:induction false} OwnEntryIff(first: nat, n: nat, k: nat)
    requires first < TWO_32 && k < n <= TWO_32
    ensures HoldsOwn(Consecutive(first, n), k) <==> n - k <= Lifetime(first, k)
  {
    hide CircularIndex, Wrap32, HoldsOwn, Lifetime, Consecutive;
    var numbers, life := Consecutive(first, n), Lifetime(first, k);
    HoldsOwnIff(numbers, k);
    LifetimePositive(first, k);
    if n - k <= life {
      forall j | k < j < n ensures CircularIndex(numbers[j]) != CircularIndex(numbers[k]) {
        CollidesIff(first, n, k, j);
      }
    } else {
      CollidesIff(first, n, k, k + life);
    }
  }

  lemma {:induction false} LifetimePositive(first: nat, k: nat)
    ensures Lifetime(first, k) > 0
  {
  }

  /** From zero, as the client numbers its packets: the newest 50000 of up to 2^32 have their own entries, no others. */
  lemma {:induction false} NewestFiftyThousand(n: nat, s: nat)
    requires s < n <= TWO_32
    ensures HoldsOwn(Consecutive(0, n), s) <==> n - s <= 50000
  {
    hide HoldsOwn;
    OwnEntryIff(0, n, s);
  }

  /** Any 17296 consecutive uint32 numbers have distinct slots, wherever they start... */
  lemma {:induction false} DistinctSlots(first: nat, i: nat, j: nat)
    requires first < TWO_32 && i < j < 17296
    ensures CircularIndex(Wrap32(first + i)) != CircularIndex(Wrap32(first + j))
  {
    hide CircularIndex, Wrap32;
    SharedSlot(first, i, j);
  }

  /** ...and no longer window has that property: two numbers 17296 apart across the wrap always collide. */
  lemma {:induction false} BoundIsTight(k: nat)
    requires TWO_32 - 17296 <= k < TWO_32
    ensures Wrap32(k + 17296) < k && CircularIndex(Wrap32(k + 17296)) == CircularIndex(k)
  {
  }

  /** Once overwritten, a slot holds a later store. */
  lemma {:induction false} OverwrittenByLater(numbers: seq<nat>, k: nat)
    requires k < |numbers|
    ensures Newest(numbers, CircularIndex(numbers[k])) >= k
    ensures !HoldsOwn(numbers, k) ==> Newest(numbers, CircularIndex(numbers[k])) > k
  {
    hide CircularIndex;
    if Newest(numbers, CircularIndex(numbers[k])) < k { NothingLater(numbers, CircularIndex(numbers[k]), k); }
  }

  /** The arrays looked up by number: the k-th send's own values while its lifetime lasts, a later send's afterwards. */
  method LookupAfterSending(arrays: ClientArrays, first: nat, sent: seq<(nat, nat)>, k: nat)
    returns (ts: nat, tscValue: nat)
    requires arrays.Valid() && arrays.numbers == [] && arrays.values == []
    requires first < TWO_32 && k < |sent| <= TWO_32
    modifies arrays, arrays.appTx, arrays.tsc
    ensures |sent| - k <= Lifetime(first, k) ==> (ts, tscValue) == sent[k]
    ensures |sent| - k > Lifetime(first, k) ==> exists p :: k < p < |sent| && (ts, tscValue) == sent[p]
    ensures arrays.Valid() && arrays.numbers == Consecutive(first, |sent|) && arrays.values == sent
  {
    hide CircularIndex, Wrap32, Newest, Lifetime;
    for i := 0 to |sent|
      invariant arrays.Valid() && arrays.appTx == old(arrays.appTx) && arrays.tsc == old(arrays.tsc)
      invariant arrays.numbers == Consecutive(first, i) && arrays.values == sent[..i]
    {
      arrays.Store(Wrap32(first + i), sent[i].0, sent[i].1);
    }
    OwnEntryIff(first, |sent|, k);
    OverwrittenByLater(arrays.numbers, k);
    ts, tscValue := arrays.Lookup(Wrap32(first + k));
  }
}
