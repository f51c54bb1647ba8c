// Unsigned machine arithmetic: 32- and 64-bit wrap-around, bitwise AND on
// naturals, and the power-of-two facts behind `& size_mask` indexing.
module Bits {

  const TWO_32: nat := 0x1_0000_0000
  const TWO_63: nat := 0x8000_0000_0000_0000
  const TWO_64: nat := 0x1_0000_0000_0000_0000

  /** Reduction of a result to uint32 and to uint64. */
  function Wrap32(x: int): (r: nat)
    ensures r < TWO_32
    ensures 0 <= x < TWO_32 ==> r == x
  {
    x % 0x1_0000_0000
  }

  function Wrap64(x: int): (r: nat)
    ensures r < TWO_64
    ensures 0 <= x < TWO_64 ==> r == x
  {
    x % 0x1_0000_0000_0000_0000
  }

  /** The value of the C operator `&` on two unsigned words, bit by bit. */
  function BitAnd(x: nat, y: nat): nat
    decreases x
  {
    if x == 0 then 0
    else 2 * BitAnd(x / 2, y / 2) + (if x % 2 == 1 && y % 2 == 1 then 1 else 0)
  }

  function Pow2(k: nat): (p: nat)
    ensures p >= 1
  {
    if k == 0 then 1 else 2 * Pow2(k - 1)
  }

  ghost predicate IsPow2(n: nat) {
    exists k: nat :: n == Pow2(k)
  }

  /** Subtraction of 32-bit unsigned words, with its wrap-around. */
  function Sub32(x: nat, y: nat): nat {
    Wrap32(x - y)
  }

  lemma {:induction false} HalfOfRemainder(x: nat, m: nat)
    requires m > 0
    ensures x % (2 * m) == 2 * (x / 2 % m) + x % 2
  {
    var q, r := x / 2 / m, x / 2 % m;
    assert x == (2 * m) * q + (2 * r + x % 2) by {
      assert x / 2 == m * q + r;
      assert x == 2 * (x / 2) + x % 2;
      assert 2 * (m * q) == (2 * m) * q;
    }
    RemainderIs(x, 2 * m, q, 2 * r + x % 2);
  }

  /** Quotient and remainder are determined by the division equation. */
  lemma {:induction false} RemainderIs(x: int, m: int, q: int, r: int)
    requires m > 0 && 0 <= r < m && x == m * q + r
    ensures x % m == r && x / m == q
  {
    var q', r' := x / m, x % m;
    assert m * (q - q') == r' - r by {
      assert x == m * q' + r';
      assert m * (q - q') == m * q - m * q';
    }
    MultipleIsFar(m, q - q');
  }

  /** A nonzero multiple of m lies at least m away from zero. */
  lemma {:induction false} MultipleIsFar(m: int, d: int)
    requires m > 0
    ensures d >= 1 ==> m * d >= m
    ensures d <= -1 ==> m * d <= -m
  {
    if d >= 1 {
      assert m * d == m * (d - 1) + m && m * (d - 1) >= 0;
    } else if d <= -1 {
      assert m * d == -(m * (-d - 1)) - m && m * (-d - 1) >= 0;
    }
  }

  /** Masking with 2^k - 1 is the remainder modulo 2^k. */
  lemma {:induction false} MaskIsRemainder(x: nat, k: nat)
    ensures BitAnd(x, Pow2(k) - 1) == x % Pow2(k)
    decreases k
  {
    hide BitAnd;
    if k == 0 {
      AndZero(x);
    } else if x != 0 {
      var m := Pow2(k - 1);
      AndMaskStep(x, m);
      MaskIsRemainder(x / 2, k - 1);
      HalfOfRemainder(x, m);
    } else {
      AndOfZero(Pow2(k) - 1);
      RemainderIs(0, Pow2(k), 0, 0);
    }
  }

  lemma {:induction false} AndOfZero(y: nat)
    ensures BitAnd(0, y) == 0
  {
  }

  lemma {:induction false} AndMaskStep(x: nat, m: nat)
    requires m > 0
    ensures BitAnd(x, 2 * m - 1) == 2 * BitAnd(x / 2, m - 1) + x % 2
  {
    assert (2 * m - 1) / 2 == m - 1 && (2 * m - 1) % 2 == 1;
  }

  lemma {:induction false} AndZero(x: nat)
    ensures BitAnd(x, 0) == 0
  {
    if x != 0 {
      AndZero(x / 2);
    }
  }

  /** The classic power-of-two test: `n & (n - 1)` is zero exactly on powers of two. */
  lemma {:induction false} PowerOfTwoTest(n: nat)
    requires n > 0
    ensures BitAnd(n, n - 1) == 0 <==> IsPow2(n)
  {
    if n == 1 {
      assert BitAnd(1, 0) == 0 by { AndZero(1); }
      assert n == Pow2(0);
    } else if n % 2 == 0 {
      PowerOfTwoTest(n / 2);
      assert (n - 1) / 2 == n / 2 - 1;
      if IsPow2(n / 2) {
        var k: nat :| n / 2 == Pow2(k);
        assert n == Pow2(k + 1);
      }
      if IsPow2(n) {
        var k: nat :| n == Pow2(k);
        assert n / 2 == Pow2(k - 1);
      }
    } else {
      assert (n - 1) / 2 == n / 2 && n / 2 > 0;
      AndSelf(n / 2);
      OddIsNotPow2(n);
    }
  }

  lemma {:induction false} Pow2Even(k: nat)
    ensures k > 0 ==> Pow2(k) == 2 * Pow2(k - 1)
    ensures k == 0 ==> Pow2(k) == 1
  {
  }

  lemma {:induction false} OddIsNotPow2(n: nat)
    requires n % 2 == 1 && n > 1
    ensures !IsPow2(n)
  {
    hide Pow2;
    forall k: nat ensures n != Pow2(k) {
      Pow2Even(k);
    }
  }

  lemma {:induction false} AndSelf(x: nat)
    ensures BitAnd(x, x) == x
  {
    if x != 0 {
      AndSelf(x / 2);
    }
  }

  lemma {:induction false} Pow2Monotone(i: nat, j: nat)
    requires i <= j
    ensures Pow2(i) <= Pow2(j)
    ensures Pow2(j) % Pow2(i) == 0
    decreases j
  {
    if i < j {
      Pow2Monotone(i, j - 1);
      var q := Pow2(j - 1) / Pow2(i);
      assert Pow2(j) == Pow2(i) * (2 * q) + 0 by {
        assert Pow2(j - 1) == Pow2(i) * q;
      }
      RemainderIs(Pow2(j), Pow2(i), 2 * q, 0);
    } else {
      RemainderIs(Pow2(j), Pow2(i), 1, 0);
    }
  }

  lemma {:induction false} Pow2Values()
    ensures Pow2(8) == 0x100 && Pow2(16) == 0x1_0000 && Pow2(31) == 0x8000_0000 && Pow2(32) == TWO_32
  {
    assert Pow2(4) == 16;
    assert Pow2(8) == 256;
    assert Pow2(12) == 4096;
    assert Pow2(16) == 65536;
    assert Pow2(20) == 0x10_0000;
    assert Pow2(24) == 0x100_0000;
    assert Pow2(28) == 0x1000_0000;
    assert Pow2(31) == 0x8000_0000;
  }

  lemma {:induction false} RemainderOfRemainder(x: int, m: nat, n: nat)
    requires m > 0 && n > 0 && n % m == 0
    ensures (x % n) % m == x % m
  {
    var q, r := x / n, x % n;
    var c := n / m;
    assert x == m * (c * q + r / m) + r % m by {
      assert n == m * c;
      assert x == n * q + r && r == m * (r / m) + r % m;
      assert n * q == m * (c * q);
      assert m * (c * q + r / m) == m * (c * q) + m * (r / m);
    }
    RemainderIs(x, m, c * q + r / m, r % m);
  }

  /** Wrapping at 32 bits does not disturb the remainder modulo a smaller power of two. */
  lemma {:induction false} WrapThenMask(x: int, k: nat)
    requires k <= 32
    ensures BitAnd(Wrap32(x), Pow2(k) - 1) == x % Pow2(k)
  {
    hide BitAnd, Pow2;
    Pow2Values();
    Pow2Monotone(k, 32);
    MaskIsRemainder(Wrap32(x), k);
    RemainderOfRemainder(x, Pow2(k), 0x1_0000_0000);
  }

  /** `(head - tail) & size_mask` in 32-bit arithmetic is the ring distance. */
  lemma {:induction false} MaskedDistance(head: nat, tail: nat, k: nat)
    requires k <= 32 && head < Pow2(k) && tail < Pow2(k)
    ensures BitAnd(Sub32(head, tail), Pow2(k) - 1) == (head - tail) % Pow2(k)
    ensures (head - tail) % Pow2(k) == if tail <= head then head - tail else head + Pow2(k) - tail
  {
    hide BitAnd, Pow2, Wrap32;
    WrapThenMask(head - tail, k);
    if tail <= head {
      RemainderIs(head - tail, Pow2(k), 0, head - tail);
    } else {
      RemainderIs(head - tail, Pow2(k), -1, head + Pow2(k) - tail);
    }
  }

  /** Above 2^31 the only 33-bit power of two is 2^32 itself. */
  lemma {:induction false} NoPow2Between(n: nat)
    requires 0x8000_0000 < n < TWO_32
    ensures !IsPow2(n)
  {
    Pow2Values();
    forall k: nat ensures n != Pow2(k) {
      if k <= 31 { Pow2Monotone(k, 31); } else { Pow2Monotone(32, k); }
    }
  }

  ghost predicate LeastPow2(n: nat, r: nat) {
    IsPow2(r) && n <= r && forall k: nat :: n <= Pow2(k) ==> r <= Pow2(k)
  }

  lemma {:induction false} LeastFrom(n: nat, k: nat)
    requires n <= Pow2(k) && (k == 0 || Pow2(k - 1) < n)
    ensures LeastPow2(n, Pow2(k))
  {
    forall j: nat | n <= Pow2(j) ensures Pow2(k) <= Pow2(j) {
      if j >= k { Pow2Monotone(k, j); } else { Pow2Monotone(j, k - 1); }
    }
  }

  /** `power <<= 1` on uint32 doubles up to 2^31 and overflows to zero there. */
  lemma {:induction false} ShiftLeft(k: nat)
    requires k <= 31
    ensures Pow2(k) <= 0x8000_0000
    ensures k < 31 ==> Wrap32(Pow2(k) * 2) == Pow2(k + 1)
    ensures k == 31 ==> Pow2(k) == 0x8000_0000 && Wrap32(Pow2(k) * 2) == 0
  {
    Pow2Values();
    Pow2Monotone(k, 31);
    if k < 31 { Pow2Monotone(k + 1, 31); }
  }

  lemma {:induction false} LoopStart()
    ensures Pow2(0) == 1
  {
  }

  lemma {:induction false} PowerIsLeast(n: nat)
    requires IsPow2(n)
    ensures LeastPow2(n, n)
  {
  }

  /** `next_power_of_2` on uint32: zero signals that the shift overflowed. */
  method NextPowerOf2(n: nat) returns (r: nat)
    requires n < TWO_32
    ensures n == 0 ==> r == 1
    ensures n > 0x8000_0000 ==> r == 0
    ensures n <= 0x8000_0000 ==> LeastPow2(n, r)
  {
    hide BitAnd, Pow2, Wrap32;
    LoopStart();
    if n == 0 {
      LeastFrom(n, 0);
      return 1;
    }
    PowerOfTwoTest(n);
    if n > 0x8000_0000 { NoPow2Between(n); }
    if BitAnd(n, n - 1) == 0 {
      PowerIsLeast(n);
      return n;
    }
    var power := 1;
    ghost var k: nat := 0;
    while power < n
      invariant power == Pow2(k) && k <= 31
      invariant k == 0 || Pow2(k - 1) < n
      decreases 32 - k
    {
      ShiftLeft(k);
      power := Wrap32(power * 2);
      if power == 0 {
        return 0;
      }
      k := k + 1;
    }
    LeastFrom(n, k);
    ShiftLeft(k);
    return power;
  }
}
