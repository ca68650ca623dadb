/** 64-bit machine words as naturals: the bit operations the shard selector needs. */
module Words {
  import opened Text

  const TWO31 := 0x8000_0000
  const TWO33 := 0x2_0000_0000

  function Pow2(k: nat): (p: nat)
    ensures p >= 1
  {
    if k == 0 then 1 else 2 * Pow2(k - 1)
  }

  /** Bitwise exclusive or. */
  function Xor(x: nat, y: nat): nat {
    if x == 0 && y == 0 then 0 else 2 * Xor(x / 2, y / 2) + (x % 2 + y % 2) % 2
  }

  /** Bitwise and. */
  function And(x: nat, y: nat): nat {
    if x == 0 || y == 0 then 0 else 2 * And(x / 2, y / 2) + (x % 2) * (y % 2)
  }

  lemma {:induction false} XorTwice(x: nat, y: nat)
    ensures Xor(Xor(x, y), y) == x
    decreases x + y
  {
    hide Xor;
    if x == 0 && y == 0 {
      XorNone();
    } else {
      XorTwice(x / 2, y / 2);
      XorStep(x, y);
      XorStep(Xor(x, y), y);
      BitTwice(x % 2, y % 2);
    }
  }

  lemma XorNone()
    ensures Xor(0, 0) == 0
  {
  }

  lemma BitTwice(a: nat, b: nat)
    requires a < 2 && b < 2
    ensures ((a + b) % 2 + b) % 2 == a
  {
  }

  lemma XorStep(x: nat, y: nat)
    ensures var z := Xor(x, y);
            && z == 2 * Xor(x / 2, y / 2) + (x % 2 + y % 2) % 2
            && z / 2 == Xor(x / 2, y / 2) && z % 2 == (x % 2 + y % 2) % 2
  {
  }

  lemma XorLowStep(high: nat, b: nat, c: nat, p: nat)
    requires Xor(high + b / 2, c / 2) == high + Xor(b / 2, c / 2) && Xor(b / 2, c / 2) < p
    ensures Xor(2 * high + b, c) == 2 * high + Xor(b, c) && Xor(b, c) < 2 * p
  {
    hide Xor;
    assert (2 * high + b) / 2 == high + b / 2;
    XorStep(2 * high + b, c);
    XorStep(b, c);
  }

  lemma TimesTwice(a: nat, p: nat)
    ensures a * (2 * p) == 2 * (a * p)
  {
  }

  lemma HalfMultiple(a: nat, k: nat)
    requires k > 0
    ensures a * Pow2(k) == 2 * (a * Pow2(k - 1))
    ensures Pow2(k) == 2 * Pow2(k - 1)
  {
    Pow2Twice(k);
    TimesTwice(a, Pow2(k - 1));
  }

  lemma WholeMultiple(a: nat)
    ensures a * Pow2(0) == a && Pow2(0) == 1
  {
  }

  /** A number below 2^k only changes the low k bits of a word, and keeps them below 2^k. */
  lemma {:induction false} XorLow(a: nat, high: nat, b: nat, c: nat, k: nat)
    requires high == a * Pow2(k) && b < Pow2(k) && c < Pow2(k)
    ensures Xor(high + b, c) == high + Xor(b, c) && Xor(b, c) < Pow2(k)
    decreases k
  {
    hide Xor, Pow2;
    if k == 0 {
      WholeMultiple(a);
      XorZero(a);
      XorNone();
    } else {
      HalfMultiple(a, k);
      var half := a * Pow2(k - 1);
      XorLow(a, half, b / 2, c / 2, k - 1);
      XorLowStep(half, b, c, Pow2(k - 1));
    }
  }

  lemma {:induction false} XorZero(a: nat)
    ensures Xor(a, 0) == a
  {
    if a != 0 { XorZero(a / 2); }
  }

  lemma AndStep(x: nat, y: nat)
    ensures And(x, y) == 2 * And(x / 2, y / 2) + (x % 2) * (y % 2)
  {
  }

  lemma AndZero(x: nat)
    ensures And(x, 0) == 0 == And(0, x)
  {
  }

  lemma Pow2Twice(k: nat)
    requires k > 0
    ensures Pow2(k) == 2 * Pow2(k - 1) && Pow2(0) == 1
  {
  }

  /** Masking with 2^k - 1 is the remainder by 2^k. */
  lemma {:induction false} MaskIsRemainder(x: nat, k: nat)
    ensures And(x, Pow2(k) - 1) == x % Pow2(k)
  {
    if k == 0 {
      AndZero(x);
    } else {
      hide And, Pow2;
      var p, m := Pow2(k - 1), Pow2(k) - 1;
      Pow2Twice(k);
      AndStep(x, m);
      assert m == 2 * (p - 1) + 1;
      assert m % 2 == 1 && m / 2 == p - 1;
      MaskIsRemainder(x / 2, k - 1);
      RemainderTwice(x, p);
    }
  }

  lemma RemainderTwice(x: nat, p: nat)
    requires p >= 1
    ensures x % (2 * p) == 2 * ((x / 2) % p) + x % 2
  {
    var q, r := x / 2 / p, (x / 2) % p;
    assert x / 2 == q * p + r;
    assert x == q * (2 * p) + (2 * r + x % 2) by { assert 2 * (q * p) == q * (2 * p); }
    RemainderIs(x, 2 * p, q, 2 * r + x % 2);
  }

  lemma RemainderIs(x: int, m: int, q: int, r: int)
    requires m > 0 && x == q * m + r && 0 <= r < m
    ensures x % m == r && x / m == q
  {
    var d := x / m - q;
    assert x == (x / m) * m + x % m;
    assert d * m == r - x % m;
    MultipleAtLeast(d, m);
  }

  lemma MultipleAtLeast(d: int, m: int)
    requires m > 0
    ensures d >= 1 ==> d * m >= m
    ensures d <= -1 ==> d * m <= -m
  {
  }

  // ------------------------------------------------------------- the mixer

  const MULTIPLIER := 0xff51_afd7_ed55_8ccd
  const INVERSE := 0x4f74_430c_22a5_4005
  const CARRY := 0x4f3e_2925_cb7c_5b4e

  /** `h ^= h >> 33` */
  function ShiftXor(h: nat): nat { Xor(h, h / TWO33) }

  /** The mixing step of `shard_for`. */
  function Mix(h: nat): nat { ShiftXor(ShiftXor(h) * MULTIPLIER % TWO64) }

  function Unmix(h: nat): nat { ShiftXor(ShiftXor(h) * INVERSE % TWO64) }

  lemma Pow2Of33()
    ensures Pow2(33) == TWO33
  {
    assert Pow2(8) == 0x100;
    assert Pow2(16) == 0x1_0000;
    assert Pow2(24) == 0x100_0000;
    assert Pow2(32) == 0x1_0000_0000;
  }

  lemma ShiftXorInvolution(h: nat)
    requires h < TWO64
    ensures ShiftXor(h) < TWO64 && ShiftXor(ShiftXor(h)) == h
  {
    hide Pow2, Xor;
    var a, b := h / TWO33, h % TWO33;
    Pow2Of33();
    assert a < TWO31;
    XorLow(a, a * TWO33, b, a, 33);
    XorTwice(b, a);
    var c := Xor(b, a);
    XorLow(a, a * TWO33, c, a, 33);
    assert ShiftXor(h) == a * TWO33 + c;
    assert (a * TWO33 + c) / TWO33 == a;
  }

  lemma TimesInverse(h: nat, m: nat, m': nat, t: nat)
    requires h < TWO64 && m * m' == 1 + t * TWO64
    ensures (h * m % TWO64) * m' % TWO64 == h
  {
    var q, r := h * m / TWO64, h * m % TWO64;
    assert h * m == q * TWO64 + r;
    assert r * m' == (h * t - q * m') * TWO64 + h by {
      assert (h * m) * m' == h * (m * m') == h + (h * t) * TWO64;
      assert (h * m) * m' == (q * m') * TWO64 + r * m';
    }
    RemainderIs(r * m', TWO64, h * t - q * m', h);
  }

  /** The mixer is a bijection on 64-bit words. */
  lemma MixBijective(h: nat)
    requires h < TWO64
    ensures Mix(h) < TWO64 && Unmix(h) < TWO64
    ensures Unmix(Mix(h)) == h && Mix(Unmix(h)) == h
  {
    hide ShiftXor;
    ShiftXorInvolution(h);
    ShiftXorInvolution(ShiftXor(h) * MULTIPLIER % TWO64);
    ShiftXorInvolution(ShiftXor(h) * INVERSE % TWO64);
    assert MULTIPLIER * INVERSE == 1 + CARRY * TWO64;
    TimesInverse(ShiftXor(h), MULTIPLIER, INVERSE, CARRY);
    TimesInverse(ShiftXor(h), INVERSE, MULTIPLIER, CARRY);
  }

  // -------------------------------------------------------- the shard index

  /** `h & shard_mask_` after mixing, for `n` shards. */
  function ShardIndex(h: nat, n: nat): nat
    requires n >= 1
  {
    And(Mix(h), n - 1)
  }

  predicate Leaves(x: nat, n: nat, i: nat)
    requires n >= 1
  {
    x % n == i
  }

  /** Between two multiples of `n` exactly one number has the remainder `i`. */
  lemma OnePerBlock(n: nat, q: nat, base: nat, i: nat)
    requires i < n && base == n * q
    ensures forall x: nat :: base <= x < base + n ==> (Leaves(x, n, i) <==> x == base + i)
  {
    forall x: nat | base <= x < base + n ensures Leaves(x, n, i) <==> x == base + i {
      RemainderIs(x, n, q, x - base);
    }
  }

  lemma NextMultiple(n: nat, q: nat)
    requires q >= 1
    ensures n * q == n * (q - 1) + n
  {
  }

  lemma {:induction false} Residues(n: nat, q: nat, top: nat, i: nat)
    requires i < n && top == n * q
    ensures |set x: nat | x < top && Leaves(x, n, i)| == q
    decreases q
  {
    hide Leaves;
    var s := set x: nat | x < top && Leaves(x, n, i);
    if q == 0 {
      assert s == {};
    } else {
      var base := n * (q - 1);
      NextMultiple(n, q);
      Residues(n, q - 1, base, i);
      OnePerBlock(n, q - 1, base, i);
      var s' := set x: nat | x < base && Leaves(x, n, i);
      assert s == s' + {base + i} && base + i !in s';
    }
  }

  /** Sets in one-to-one correspondence have the same size. */
  lemma {:induction false} SameSize(a: set<nat>, b: set<nat>, f: nat -> nat, g: nat -> nat)
    requires forall x :: x in a ==> f(x) in b && g(f(x)) == x
    requires forall y :: y in b ==> g(y) in a && f(g(y)) == y
    ensures |a| == |b|
    decreases a
  {
    if a == {} {
      assert b == {} by { if y :| y in b { assert g(y) in a; } }
    } else {
      var x :| x in a;
      SameSize(a - {x}, b - {f(x)}, f, g);
    }
  }

  /** With 2^k shards each shard owns exactly 2^64 / 2^k of the hash values, and the index is in range. */
  lemma ShardShare(k: nat, i: nat)
    requires k <= 64 && i < Pow2(k)
    ensures forall h: nat :: ShardIndex(h, Pow2(k)) == Mix(h) % Pow2(k) < Pow2(k)
    ensures Pow2(k) * Pow2(64 - k) == TWO64
    ensures |set h: nat | h < TWO64 && ShardIndex(h, Pow2(k)) == i| == Pow2(64 - k)
  {
    hide Mix, Unmix, And, Pow2;
    var n := Pow2(k);
    Pow2Of64(k);
    forall h: nat ensures ShardIndex(h, n) == Mix(h) % n { MaskIsRemainder(Mix(h), k); }
    hide ShardIndex;
    var a := set h: nat | h < TWO64 && ShardIndex(h, n) == i;
    var b := set x: nat | x < TWO64 && Leaves(x, n, i);
    forall h: nat | h < TWO64
      ensures Mix(h) < TWO64 && Unmix(h) < TWO64 && Unmix(Mix(h)) == h && Mix(Unmix(h)) == h
    {
      MixBijective(h);
    }
    SameSize(a, b, Mix, Unmix);
    Residues(n, Pow2(64 - k), TWO64, i);
  }

  lemma {:induction false} Pow2Sum(a: nat, b: nat)
    ensures Pow2(a) * Pow2(b) == Pow2(a + b)
  {
    if a > 0 {
      Pow2Sum(a - 1, b);
      assert Pow2(a) * Pow2(b) == 2 * (Pow2(a - 1) * Pow2(b));
    }
  }

  lemma Pow2Of31()
    ensures Pow2(31) == TWO31
  {
    Pow2Of33();
    hide Pow2;
    Pow2Twice(33);
    Pow2Twice(32);
  }

  lemma Pow2Of64(k: nat)
    requires k <= 64
    ensures Pow2(k) * Pow2(64 - k) == TWO64
  {
    hide Pow2;
    Pow2Sum(k, 64 - k);
    Pow2Of33();
    Pow2Of31();
    Pow2Sum(33, 31);
  }

  lemma {:induction false} Pow2Monotone(a: nat, b: nat)
    requires a <= b
    ensures Pow2(a) <= Pow2(b)
  {
    if a < b { Pow2Monotone(a, b - 1); }
  }

  // ------------------------------------------------------------ round_up_pow2

  /** Is `p` the least power of two that is at least `n`? */
  ghost predicate LeastPow2(p: nat, n: nat) {
    (exists k: nat :: k <= 63 && p == Pow2(k)) && n <= p && forall j: nat :: n <= Pow2(j) ==> p <= Pow2(j)
  }

  lemma LeastFound(k: nat, n: nat)
    requires k <= 63 && n <= Pow2(k) && (k > 0 ==> Pow2(k - 1) < n)
    ensures LeastPow2(Pow2(k), n)
  {
    hide Pow2;
    forall j: nat | n <= Pow2(j) ensures Pow2(k) <= Pow2(j) {
      if j < k { Pow2Monotone(j, k - 1); } else { Pow2Monotone(k, j); }
    }
  }

  /** `p <<= 1` on a 64-bit word. */
  function ShiftLeft(p: nat): (r: nat)
    ensures 2 * p < TWO64 ==> r == 2 * p
    ensures p == 0 || 2 * p == TWO64 ==> r == 0
  {
    2 * p % TWO64
  }

  /** `round_up_pow2`, doubling a 64-bit word. */
  method RoundUpPow2(n: nat) returns (p: nat)
    requires n <= Pow2(63)
    ensures LeastPow2(p, n)
  {
    hide Pow2, LeastPow2, ShiftLeft;
    p := 1;
    ghost var k := 0;
    Pow2Twice(1);
    while p < n
      invariant k <= 63 && p == Pow2(k)
      invariant k > 0 ==> Pow2(k - 1) < n
      decreases 63 - k
    {
      assert k != 63;
      Pow2Below64(k + 1);
      Pow2Twice(k + 1);
      p := ShiftLeft(p);
      k := k + 1;
    }
    LeastFound(k, n);
  }

  lemma TopBit()
    ensures 2 * Pow2(63) == TWO64
  {
    hide Pow2;
    Pow2Of64(1);
    Pow2Twice(1);
  }

  lemma Pow2Below64(k: nat)
    requires k <= 63
    ensures Pow2(k) < TWO64
  {
    hide Pow2;
    TopBit();
    Pow2Monotone(k, 63);
  }

  /** The value of the loop variable after `k` doublings. */
  function Doubled(k: nat): nat { if k == 0 then 1 else ShiftLeft(Doubled(k - 1)) }

  lemma {:induction false} DoubledIs(k: nat)
    ensures Doubled(k) == if k <= 63 then Pow2(k) else 0
  {
    hide Pow2, ShiftLeft;
    if k == 0 {
      Pow2Twice(1);
    } else {
      DoubledIs(k - 1);
      Pow2Twice(k);
      if k <= 63 { Pow2Below64(k); } else { TopBit(); }
    }
  }

  /** The doubling loop ends exactly for requests up to 2^63; above, the word wraps to zero for good. */
  lemma RoundUpEndsIff(n: nat)
    ensures (exists k: nat :: Doubled(k) >= n) <==> n <= Pow2(63)
  {
    hide Pow2, Doubled;
    if n <= Pow2(63) {
      DoubledIs(63);
    } else {
      forall k: nat ensures Doubled(k) < n {
        DoubledIs(k);
        if k <= 63 { Pow2Monotone(k, 63); }
      }
    }
  }

  // ---------------------------------------------------------------- capacity

  /** `per_shard` of the sharded constructor. */
  function PerShard(total: nat, n: nat): (r: nat)
    requires n >= 1
    ensures r >= 1
  {
    if total / n == 0 then 1 else total / n
  }

  /** What is allotted is n * max(1, total / n): above total - n, and at most max(total, n). */
  lemma CapacityBounds(total: nat, n: nat)
    requires n >= 1
    ensures total as int - n as int < n * PerShard(total, n) <= if total >= n then total else n
  {
    var q, r := total / n, total % n;
    assert total == q * n + r;
    if total >= n {
      assert q == 0 ==> q * n == 0;
      assert q >= 1;
    } else {
      RemainderIs(total, n, 0, total);
    }
  }
}
