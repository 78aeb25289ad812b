/** How melange_head shares the heads 1 .. H among N cards: class h < H gets N * (H - h + 1) / W
    cards, where W = 1 + 2 + ... + H, and class H gets the rest. */
module HeadShares {

  /** 1 + 2 + ... + k */
  function Triangle(k: nat): nat {
    if k == 0 then 0 else Triangle(k - 1) + k
  }

  /** The total weight is computed as a product in the source. */
  lemma {:induction false} TriangleIsProduct(k: nat)
    ensures 2 * Triangle(k) == k * (k + 1)
    ensures Triangle(k) == k * (k + 1) / 2
  {
    if k > 0 {
      TriangleIsProduct(k - 1);
      assert k * (k + 1) == (k - 1) * k + 2 * k;
    }
  }

  function Quotient(a: nat, d: nat): nat
    requires d >= 1
  {
    a / d
  }

  /** The number of cards of a class before the last one. */
  function Share(N: nat, H: nat, h: nat): nat
    requires 1 <= h <= H
  {
    Quotient(N * (H - h + 1), Triangle(H))
  }

  /** The cards of the classes 1 .. m. */
  function Shares(N: nat, H: nat, m: nat): nat
    requires m <= H
  {
    if m == 0 then 0 else Shares(N, H, m - 1) + Share(N, H, m)
  }

  lemma {:induction false} Distribute(a: int, b: int, c: int)
    ensures (a + b) * c == a * c + b * c && c * (a + b) == c * a + c * b
  {
  }

  lemma {:induction false} MulMonotone(a: int, b: int, c: nat)
    ensures a <= b ==> a * c <= b * c && c * a <= c * b
    ensures a < b && c > 0 ==> a * c < b * c
  {
    if a <= b && c > 0 {
      assert (b - a) * c >= 0;
      if a < b { assert (b - a) * c >= 1; }
      Distribute(b - a, a, c);
    }
  }

  lemma {:induction false} DivBounds(a: nat, d: nat)
    requires d >= 1
    ensures Quotient(a, d) * d <= a < Quotient(a, d) * d + d
  {
  }

  lemma {:induction false} AddBounds(a: int, b: int, w: int, n: int, t: int, u: int)
    requires a * w <= n * t && b * w <= n * u
    ensures (a + b) * w <= n * (t + u)
  {
    Distribute(a, b, w);
    Distribute(t, u, n);
  }

  lemma {:induction false} ShareBound(N: nat, H: nat, h: nat)
    requires 1 <= h <= H
    ensures Share(N, H, h) * Triangle(H) <= N * (H - h + 1)
  {
    DivBounds(N * (H - h + 1), Triangle(H));
  }

  /** The weight of the classes 1 .. m is t = Triangle(H) - Triangle(H - m). */
  lemma {:induction false} SharesBound(N: nat, H: nat, m: nat, t: int)
    requires 1 <= H && m <= H && t == Triangle(H) - Triangle(H - m)
    ensures Shares(N, H, m) * Triangle(H) <= N * t
  {
    if m > 0 {
      SharesBound(N, H, m - 1, t - (H - m + 1));
      ShareBound(N, H, m);
      AddBounds(Shares(N, H, m - 1), Share(N, H, m), Triangle(H), N, t - (H - m + 1), H - m + 1);
    }
  }

  lemma {:induction false} SmallerFactor(a: int, w: nat, n: nat, t: int)
    requires a * w <= n * t && t < w && n >= 1
    ensures a < n
  {
    MulMonotone(t, w, n);
    if n <= a { MulMonotone(n, a, w); }
  }

  /** Before the last class something is always left, so neither the clamp on the share nor the
      early end of the loop can be reached there. */
  lemma {:induction false} SomethingIsLeft(N: nat, H: nat, m: nat)
    requires N >= 1 && m < H
    ensures Shares(N, H, m) < N
  {
    SharesBound(N, H, m, Triangle(H) - Triangle(H - m));
    SmallerFactor(Shares(N, H, m), Triangle(H), N, Triangle(H) - Triangle(H - m));
  }

  // ---------------------------------------------------------------- the heads of the deck

  /** The cards of class m; the last class gets what is left. */
  function ClassSize(N: nat, H: nat, m: nat): nat
    requires 1 <= m <= H && N >= 1
  {
    if m < H then Share(N, H, m)
    else
      SomethingIsLeft(N, H, H - 1);
      N - Shares(N, H, H - 1)
  }

  function Repeat(n: nat, x: nat): seq<nat> { seq(n, _ => x) }

  /** The heads in the order in which they are given out, for the classes 1 .. m. */
  function HeadList(N: nat, H: nat, m: nat): (l: seq<nat>)
    requires m <= H && N >= 1
    ensures forall k | 0 <= k < |l| :: 1 <= l[k] <= m
  {
    if m == 0 then [] else HeadList(N, H, m - 1) + Repeat(ClassSize(N, H, m), m)
  }

  function Total(l: seq<nat>): nat {
    if l == [] then 0 else Total(l[..|l| - 1]) + l[|l| - 1]
  }

  lemma {:induction false} TotalAppend(a: seq<nat>, b: seq<nat>)
    ensures Total(a + b) == Total(a) + Total(b)
  {
    if b == [] {
      assert a + b == a;
    } else {
      assert (a + b)[..|a + b| - 1] == a + b[..|b| - 1];
      TotalAppend(a, b[..|b| - 1]);
    }
  }

  lemma {:induction false} TotalRepeat(n: nat, x: nat)
    ensures Total(Repeat(n, x)) == n * x
  {
    if n > 0 {
      assert Repeat(n, x)[..n - 1] == Repeat(n - 1, x);
      TotalRepeat(n - 1, x);
      Distribute(n - 1, 1, x);
    }
  }

  lemma {:induction false} HeadListSize(N: nat, H: nat, m: nat)
    requires m <= H && N >= 1
    ensures |HeadList(N, H, m)| == (if 0 < m == H then N else Shares(N, H, m))
  {
    if m > 0 { HeadListSize(N, H, m - 1); }
  }

  /** Where the class h stands in the list: behind the shares of the classes before it, as long as its
      own share, or up to the end. */
  lemma {:induction false} HeadAt(N: nat, H: nat, m: nat, h: nat, k: nat)
    requires 1 <= h <= m <= H && N >= 1 && k < |HeadList(N, H, m)|
    ensures HeadList(N, H, m)[k] == h <==> Shares(N, H, h - 1) <= k && (h == H || k < Shares(N, H, h))
    decreases m
  {
    HeadListSize(N, H, m - 1);
    HeadListSize(N, H, m);
    var before := HeadList(N, H, m - 1);
    if k < |before| {
      assert HeadList(N, H, m)[k] == before[k];
      if h < m { HeadAt(N, H, m - 1, h, k); }
    } else {
      assert HeadList(N, H, m)[k] == m;
      SharesGrow(N, H, h, m - 1);
    }
  }

  lemma {:induction false} SharesGrow(N: nat, H: nat, a: nat, b: nat)
    requires a <= b + 1 && b + 1 <= H
    ensures a <= b ==> Shares(N, H, a) <= Shares(N, H, b)
  {
    if a < b { SharesGrow(N, H, a, b - 1); }
  }

  /** sum over j = 1 .. k of j * (share of class H - j): what is missing from H heads per card. */
  function Missing(N: nat, H: nat, k: nat): nat
    requires k < H
  {
    if k == 0 then 0 else Missing(N, H, k - 1) + k * Share(N, H, H - k)
  }

  lemma {:induction false} MissingStep(N: nat, H: nat, k: nat)
    requires 1 <= k < H
    ensures var w := Triangle(H);
            var x := Share(N, H, H - k);
            x * w <= N * (k + 1) < x * w + w && w >= 1
  {
    DivBounds(N * (k + 1), Triangle(H));
  }

  /** Three sums of products: 3 * sum j (j + 1) == k (k + 1) (k + 2). */
  function Pyramid(k: nat): nat {
    if k == 0 then 0 else Pyramid(k - 1) + k * (k + 1)
  }

  lemma {:induction false} PyramidStep(k: int, t: int, p: int)
    requires 2 * t == p && p == k * (k + 1)
    ensures 2 * (k - 1) * t + 3 * p == 2 * k * (t + (k + 1))
  {
    Distribute(2 * k, -2, t);
    Distribute(t, k + 1, 2 * k);
    Associate(2, k, k + 1);
  }

  lemma {:induction false} PyramidIs(k: nat)
    ensures 3 * Pyramid(k) == 2 * k * Triangle(k + 1)
  {
    if k > 0 {
      PyramidIs(k - 1);
      TriangleIsProduct(k);
      PyramidStep(k, Triangle(k), k * (k + 1));
    }
  }

  lemma {:induction false} MissingBounds(N: nat, H: nat, k: nat)
    requires k < H
    ensures Missing(N, H, k) * Triangle(H) <= N * Pyramid(k)
    ensures N * Pyramid(k) <= Missing(N, H, k) * Triangle(H) + Triangle(k) * Triangle(H)
  {
    var w := Triangle(H);
    if k == 0 {
      assert Missing(N, H, k) == 0 && Pyramid(k) == 0 && Triangle(k) == 0;
      assert 0 * w == 0 && N * 0 == 0;
    } else {
      MissingBounds(N, H, k - 1);
      MissingStep(N, H, k);
      var a, x := Missing(N, H, k - 1), Share(N, H, H - k);
      var y := N * (k + 1);
      MulMonotone(x * w, y, k);
      MulMonotone(y, x * w + w, k);
      Distribute(a, k * x, w);
      Distribute(x * w, w, k);
      Distribute(Triangle(k - 1), k, w);
      Distribute(Pyramid(k - 1), k * (k + 1), N);
      Associate(k, x, w);
      Swap(k, N, k + 1);
    }
  }

  lemma {:induction false} Associate(a: int, b: int, c: int)
    ensures a * b * c == a * (b * c)
  {
  }

  lemma {:induction false} Swap(a: int, b: int, c: int)
    ensures a * (b * c) == b * (a * c)
  {
  }

  lemma {:induction false} ForwardStep(H: int, m: int, c: int, total: int, total': int, missing: int, shares: int,
                                       shares': int, before: int, after: int)
    requires total + missing == H * shares + before && before == after + (H - m) * c
    requires total' == total + c * m && shares' == shares + c
    ensures total' + missing == H * shares' + after
  {
    Distribute(H, -m, c);
    Distribute(shares, c, H);
  }

  lemma {:induction false} HeadListStep(N: nat, H: nat, m: nat)
    requires 1 <= m < H && N >= 1
    ensures HeadList(N, H, m) == HeadList(N, H, m - 1) + Repeat(Share(N, H, m), m)
    ensures Shares(N, H, m) == Shares(N, H, m - 1) + Share(N, H, m)
    ensures Missing(N, H, H - m) == Missing(N, H, H - m - 1) + (H - m) * Share(N, H, m)
  {
  }

  lemma {:induction false} TotalStep(N: nat, H: nat, m: nat)
    requires 1 <= m < H && N >= 1
    ensures Total(HeadList(N, H, m)) == Total(HeadList(N, H, m - 1)) + Share(N, H, m) * m
  {
    HeadListStep(N, H, m);
    TotalAppend(HeadList(N, H, m - 1), Repeat(Share(N, H, m), m));
    TotalRepeat(Share(N, H, m), m);
  }

  /** H heads for every card of the classes before m, minus what was given out. */
  lemma {:induction false} TotalForward(N: nat, H: nat, m: nat, shares: nat)
    requires m < H && N >= 1 && shares == Shares(N, H, m)
    ensures Total(HeadList(N, H, m)) + Missing(N, H, H - 1) == H * shares + Missing(N, H, H - 1 - m)
  {
    if m == 0 {
      assert H * 0 == 0;
    } else {
      HeadListStep(N, H, m);
      TotalForward(N, H, m - 1, Shares(N, H, m - 1));
      TotalStep(N, H, m);
      ForwardStep(H, m, Share(N, H, m), Total(HeadList(N, H, m - 1)), Total(HeadList(N, H, m)), Missing(N, H, H - 1),
                  Shares(N, H, m - 1), shares, Missing(N, H, H - m), Missing(N, H, H - m - 1));
    }
  }

  lemma {:induction false} LastStep(H: int, N: int, c: int, total: int, total': int, missing: int, shares: int)
    requires total + missing == H * shares && total' == total + c * H && N == shares + c
    ensures total' + missing == H * N
  {
    Distribute(shares, c, H);
  }

  lemma {:induction false} TotalLast(N: nat, H: nat)
    requires N >= 1 && H >= 1
    ensures Total(HeadList(N, H, H)) == Total(HeadList(N, H, H - 1)) + ClassSize(N, H, H) * H
  {
    TotalAppend(HeadList(N, H, H - 1), Repeat(ClassSize(N, H, H), H));
    TotalRepeat(ClassSize(N, H, H), H);
  }

  lemma {:induction false} TotalIs(N: nat, H: nat)
    requires N >= 1 && H >= 1
    ensures Total(HeadList(N, H, H)) + Missing(N, H, H - 1) == H * N
  {
    TotalForward(N, H, H - 1, Shares(N, H, H - 1));
    TotalLast(N, H);
    LastStep(H, N, ClassSize(N, H, H), Total(HeadList(N, H, H - 1)), Total(HeadList(N, H, H)), Missing(N, H, H - 1),
             Shares(N, H, H - 1));
  }

  /** The total number of heads lies between N (H + 2) / 3 and that plus H (H - 1) / 2. */
  lemma {:induction false} TotalBounds(N: nat, H: nat)
    requires N >= 1 && H >= 1
    ensures N * (H + 2) <= 3 * Total(HeadList(N, H, H))
    ensures 2 * (3 * Total(HeadList(N, H, H))) <= 2 * (N * (H + 2)) + 3 * (H * (H - 1))
  {
    TotalIs(N, H);
    MissingBounds(N, H, H - 1);
    PyramidIs(H - 1);
    TriangleIsProduct(H);
    TriangleIsProduct(H - 1);
    var w, d, g := Triangle(H), Triangle(H - 1), Missing(N, H, H - 1);
    // 3 * Pyramid(H - 1) == 2 (H - 1) w, so that w can be divided out of both bounds
    var p := Pyramid(H - 1);
    Associate(N, 2 * (H - 1), w);
    Swap(3, N, p);
    assert 3 * (N * p) == N * (2 * (H - 1)) * w;
    Cancel(3 * g, N * (2 * (H - 1)), w);
    Cancel(N * (2 * (H - 1)), 3 * g + 3 * d, w);
    Associate(3, g, w);
    Associate(3, d, w);
    Distribute(3 * g, 3 * d, w);
    assert N * (2 * (H - 1)) + N * (H + 2) == 3 * (H * N) by {
      Distribute(2 * (H - 1), H + 2, N);
      Swap(N, 3, H);
    }
  }

  lemma {:induction false} Cancel(a: int, b: int, w: nat)
    requires w >= 1
    ensures a * w <= b * w ==> a <= b
  {
    if a > b { MulMonotone(b, a, w); }
  }

  /** The deck of the default rules: 104 cards, 5 heads. */
  lemma {:induction false} DefaultTotal()
    ensures Total(HeadList(104, 5, 5)) == 250
  {
    TotalIs(104, 5);
    assert Triangle(5) == 15;
    assert Share(104, 5, 1) == 34 && Share(104, 5, 2) == 27 && Share(104, 5, 3) == 20 && Share(104, 5, 4) == 13;
    assert Missing(104, 5, 1) == 13;
    assert Missing(104, 5, 2) == 53;
    assert Missing(104, 5, 3) == 134;
    assert Missing(104, 5, 4) == 270;
  }
}
