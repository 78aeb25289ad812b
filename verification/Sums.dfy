/** Weighted sums over sequences of card slots. An empty slot holds -1 and weighs nothing.
    Choosing the weight afterwards turns one conservation argument into several: the indicator
    of one card counts where that card is, the heads of the deck add up penalty points. */
module Sums {

  function Weigh(x: int, w: int -> nat): nat {
    if x == -1 then 0 else w(x)
  }

  function Sum(s: seq<int>, w: int -> nat): nat {
    if s == [] then 0 else Sum(s[..|s| - 1], w) + Weigh(s[|s| - 1], w)
  }

  function SumAll(ss: seq<seq<int>>, w: int -> nat): nat {
    if ss == [] then 0 else SumAll(ss[..|ss| - 1], w) + Sum(ss[|ss| - 1], w)
  }

  /** Every card counts once. */
  function One(x: int): nat { 1 }

  /** Only the given card counts. */
  function Only(card: int): int -> nat {
    x => if x == card then 1 else 0
  }

  /** Each card counts the heads printed on it. */
  function HeadsOn(deck: seq<nat>): int -> nat {
    x => if 0 <= x < |deck| then deck[x] else 0
  }

  lemma {:induction false} SumUpdate(s: seq<int>, i: nat, v: int, w: int -> nat)
    requires i < |s|
    ensures Sum(s[i := v], w) + Weigh(s[i], w) == Sum(s, w) + Weigh(v, w)
  {
    var n := |s| - 1;
    if i == n {
      assert s[i := v][..n] == s[..n];
    } else {
      assert s[i := v][..n] == s[..n][i := v];
      SumUpdate(s[..n], i, v, w);
    }
  }

  lemma {:induction false} SumAppend(a: seq<int>, b: seq<int>, w: int -> nat)
    ensures Sum(a + b, w) == Sum(a, w) + Sum(b, w)
  {
    if b == [] {
      assert a + b == a;
    } else {
      var n := |b| - 1;
      assert (a + b)[..|a + b| - 1] == a + b[..n];
      SumAppend(a, b[..n], w);
    }
  }

  lemma {:induction false} SumAllUpdate(ss: seq<seq<int>>, i: nat, s: seq<int>, w: int -> nat)
    requires i < |ss|
    ensures SumAll(ss[i := s], w) + Sum(ss[i], w) == SumAll(ss, w) + Sum(s, w)
  {
    var n := |ss| - 1;
    if i == n {
      assert ss[i := s][..n] == ss[..n];
    } else {
      assert ss[i := s][..n] == ss[..n][i := s];
      SumAllUpdate(ss[..n], i, s, w);
    }
  }

  lemma {:induction false} SumAtLeast(s: seq<int>, i: nat, w: int -> nat)
    requires i < |s|
    ensures Weigh(s[i], w) <= Sum(s, w)
  {
    SumUpdate(s, i, -1, w);
  }

  lemma {:induction false} SumAllAtLeast(ss: seq<seq<int>>, i: nat, w: int -> nat)
    requires i < |ss|
    ensures Sum(ss[i], w) <= SumAll(ss, w)
  {
    SumAllUpdate(ss, i, [], w);
  }

  /** Two different positions are counted separately. */
  lemma {:induction false} SumTwo(s: seq<int>, i: nat, j: nat, w: int -> nat)
    requires i < |s| && j < |s| && i != j
    ensures Weigh(s[i], w) + Weigh(s[j], w) <= Sum(s, w)
  {
    SumUpdate(s, i, -1, w);
    SumAtLeast(s[i := -1], j, w);
  }

  lemma {:induction false} SumAllTwo(ss: seq<seq<int>>, i: nat, j: nat, w: int -> nat)
    requires i < |ss| && j < |ss| && i != j
    ensures Sum(ss[i], w) + Sum(ss[j], w) <= SumAll(ss, w)
  {
    SumAllUpdate(ss, i, [], w);
    SumAllAtLeast(ss[i := []], j, w);
  }

  /** No weight at all means that every slot is empty, provided each card has some weight. */
  lemma {:induction false} SumOneZero(s: seq<int>)
    ensures Sum(s, One) == 0 <==> forall i | 0 <= i < |s| :: s[i] == -1
  {
    if s != [] {
      SumOneZero(s[..|s| - 1]);
      assert forall i | 0 <= i < |s| - 1 :: s[i] == s[..|s| - 1][i];
    }
  }

  lemma {:induction false} SumOneBound(s: seq<int>)
    ensures Sum(s, One) <= |s|
  {
    if s != [] { SumOneBound(s[..|s| - 1]); }
  }
}
