/** Bitwise conjunction of unsigned words, and the masks that the ring uses in place of a remainder. */
module Bits {
  function BitAnd(a: nat, b: nat): nat {
    if a == 0 || b == 0 then 0
    else 2 * BitAnd(a / 2, b / 2) + (if a % 2 == 1 && b % 2 == 1 then 1 else 0)
  }

  function Pow2(k: nat): (p: nat)
    ensures p >= 1
  {
    if k == 0 then 1 else 2 * Pow2(k - 1)
  }

  ghost predicate PowerOfTwo(n: nat) { exists k: nat :: n == Pow2(k) }

  /** The remainder of k by n, by subtraction: no product is needed to reason about it. */
  function Wrap(k: nat, n: nat): (w: nat)
    requires n > 0
    ensures w < n
  {
    if k < n then k else Wrap(k - n, n)
  }

  lemma {:induction false} WrapIsRemainder(k: nat, n: nat)
    requires n > 0
    ensures Wrap(k, n) == k % n
  {
    if k >= n {
      WrapIsRemainder(k - n, n);
      Remainder(k, n, (k - n) / n + 1, (k - n) % n);
    }
  }

  lemma {:induction false} Remainder(k: nat, n: nat, q: nat, r: nat)
    requires 0 <= r < n && k == q * n + r
    ensures k % n == r
  {
    var d := k / n - q;
    assert d * n == r - k % n;
  }

  lemma {:induction false} WrapNext(k: nat, n: nat)
    requires n > 0
    ensures Wrap(k + 1, n) == if Wrap(k, n) + 1 == n then 0 else Wrap(k, n) + 1
  {
    if k >= n { WrapNext(k - n, n); }
  }

  /** Two counts less than n apart wrap to different places. */
  lemma {:induction false} WrapApart(j: nat, k: nat, n: nat)
    requires n > 0 && j < k < j + n
    ensures Wrap(j, n) != Wrap(k, n)
  {
    if j >= n { WrapApart(j - n, k - n, n); }
  }

  lemma {:induction false} WrapFull(j: nat, n: nat)
    requires n > 0
    ensures Wrap(j + n, n) == Wrap(j, n)
  {
  }

  lemma {:induction false} WrapHalves(x: nat, c: nat)
    requires c > 0
    ensures Wrap(x, 2 * c) == 2 * Wrap(x / 2, c) + x % 2
    decreases x
  {
    if x >= 2 * c {
      WrapHalves(x - 2 * c, c);
      assert (x - 2 * c) / 2 == x / 2 - c;
    }
  }

  /** Masking with a power of two less one is the remainder. */
  lemma {:induction false} MaskIsWrap(x: nat, k: nat)
    ensures BitAnd(x, Pow2(k) - 1) == Wrap(x, Pow2(k))
    decreases k
  {
    if k == 0 {
      WrapOne(x);
    } else {
      MaskIsWrap(x / 2, k - 1);
      WrapHalves(x, Pow2(k - 1));
      assert (Pow2(k) - 1) / 2 == Pow2(k - 1) - 1;
      assert (Pow2(k) - 1) % 2 == 1;
      if x == 0 { assert Wrap(x, Pow2(k)) == 0; }
    }
  }

  lemma {:induction false} WrapOne(x: nat)
    ensures Wrap(x, 1) == 0
  {
    if x > 0 { WrapOne(x - 1); }
  }

  lemma {:induction false} Mask(x: nat, n: nat)
    requires PowerOfTwo(n)
    ensures n > 0 && BitAnd(x, n - 1) == Wrap(x, n)
  {
    var k: nat :| n == Pow2(k);
    MaskIsWrap(x, k);
  }

  lemma {:induction false} AndSelf(n: nat)
    ensures BitAnd(n, n) == n
  {
    if n > 0 { AndSelf(n / 2); }
  }

  /** The test the buffer uses accepts exactly the powers of two. */
  lemma {:induction false} PowerOfTwoTest(n: nat)
    requires n >= 1
    ensures BitAnd(n, n - 1) == 0 <==> PowerOfTwo(n)
  {
    if n == 1 {
      assert n == Pow2(0);
    } else if n % 2 == 1 {
      AndSelf(n / 2);
      assert (n - 1) / 2 == n / 2;
      forall k: nat ensures n != Pow2(k) { }
    } else {
      var m := n / 2;
      PowerOfTwoTest(m);
      assert (n - 1) / 2 == m - 1;
      if PowerOfTwo(m) {
        var k: nat :| m == Pow2(k);
        assert n == Pow2(k + 1);
      }
      if PowerOfTwo(n) {
        var k: nat :| n == Pow2(k);
        assert m == Pow2(k - 1);
      }
    }
  }

  lemma {:induction false} Pow2Sum(j: nat, k: nat)
    ensures Pow2(j + k) == Pow2(j) * Pow2(k)
  {
    if j > 0 { Pow2Sum(j - 1, k); }
  }

  lemma {:induction false} Pow2Grows(j: nat, k: nat)
    requires Pow2(j) < Pow2(k)
    ensures j < k
  {
    if k > 0 && j > 0 { Pow2Grows(j - 1, k - 1); }
  }

  /** A greater power of two wraps to nothing. */
  lemma {:induction false} WrapWord(x: nat, k: nat, m: nat)
    ensures Wrap(x + Pow2(k + m), Pow2(k)) == Wrap(x, Pow2(k))
    decreases m
  {
    if m == 0 {
      WrapFull(x, Pow2(k));
    } else {
      WrapWord(x, k, m - 1);
      WrapWord(x + Pow2(k + m - 1), k, m - 1);
    }
  }
}
