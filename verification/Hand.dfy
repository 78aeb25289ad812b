/** The hand as the client sees it. Played cards leave a -1 behind; the client is shown the other
    cards only and answers with a position in what it was shown. */
module Hand {

  /** The cards shown to the client: those of the first n places that are not -1, in order. */
  function Visible(cards: seq<int>, n: nat): seq<int>
    requires n <= |cards|
  {
    if n == 0 then []
    else Visible(cards, n - 1) + (if cards[n - 1] == -1 then [] else [cards[n - 1]])
  }

  /** The place of the v-th visible card, -1 when there is no such card. */
  function RealIndex(cards: seq<int>, n: nat, v: int): (i: int)
    requires n <= |cards|
    ensures -1 <= i < n
    ensures i == -1 <==> !(0 <= v < |Visible(cards, n)|)
    ensures i != -1 ==> cards[i] != -1 && |Visible(cards, i)| == v && cards[i] == Visible(cards, n)[v]
  {
    if n == 0 then -1
    else
      var i := RealIndex(cards, n - 1, v);
      if i != -1 then i
      else if cards[n - 1] != -1 && v == |Visible(cards, n - 1)| then n - 1
      else -1
  }

  lemma {:induction false} VisiblePrefix(cards: seq<int>, m: nat, n: nat)
    requires m <= n <= |cards|
    ensures Visible(cards, m) <= Visible(cards, n)
    ensures |Visible(cards, n)| <= |Visible(cards, m)| + n - m
    ensures (exists k :: m <= k < n && cards[k] != -1) ==> |Visible(cards, m)| < |Visible(cards, n)|
  {
    if m < n { VisiblePrefix(cards, m, n - 1); }
  }

  /** Only one place can be meant by an answer. */
  lemma {:induction false} PlaceIsUnique(cards: seq<int>, i: nat, j: nat)
    requires i < |cards| && j < |cards| && cards[i] != -1 && cards[j] != -1
    requires |Visible(cards, i)| == |Visible(cards, j)|
    ensures i == j
  {
    if i < j { VisiblePrefix(cards, i, j); } else if j < i { VisiblePrefix(cards, j, i); }
  }

  /** Two hands that agree on the first n places show the same cards. */
  lemma {:induction false} VisibleSame(a: seq<int>, b: seq<int>, n: nat)
    requires n <= |a| && n <= |b| && a[..n] == b[..n]
    ensures Visible(a, n) == Visible(b, n)
  {
    if n > 0 {
      assert a[n - 1] == a[..n][n - 1] == b[..n][n - 1];
      assert a[..n - 1] == a[..n][..n - 1] == b[..n][..n - 1];
      VisibleSame(a, b, n - 1);
    }
  }

  /** What was shown at position v is what is played, and the next display is the same list
      without that card. */
  lemma {:induction false} PlayingRemovesShown(cards: seq<int>, n: nat, v: nat)
    requires n <= |cards| && v < |Visible(cards, n)|
    ensures var i := RealIndex(cards, n, v);
            && cards[i] == Visible(cards, n)[v]
            && Visible(cards[i := -1], n) == Visible(cards, n)[..v] + Visible(cards, n)[v + 1..]
  {
    var i := RealIndex(cards, n, v);
    var cards' := cards[i := -1];
    VisiblePrefix(cards, n - 1, n);
    if i == n - 1 {
      VisibleSame(cards, cards', n - 1);
    } else {
      assert RealIndex(cards, n - 1, v) == i;
      PlayingRemovesShown(cards, n - 1, v);
      var shown := Visible(cards, n - 1);
      var last := if cards[n - 1] == -1 then [] else [cards[n - 1]];
      assert (shown + last)[..v] == shown[..v];
      assert (shown + last)[v + 1..] == shown[v + 1..] + last;
      assert shown[..v] + shown[v + 1..] + last == shown[..v] + (shown[v + 1..] + last);
    }
  }

  /** get_real_index_from_visible */
  method GetRealIndexFromVisible(cards: seq<int>, len: nat, visible: int) returns (index: int)
    requires len <= |cards|
    ensures index == RealIndex(cards, len, visible)
  {
    var v := 0;
    for i := 0 to len
      invariant v == |Visible(cards, i)|
      invariant RealIndex(cards, i, visible) == -1
    {
      if cards[i] != -1 {
        if v == visible {
          FoundStays(cards, i + 1, len, visible);
          return i;
        }
        v := v + 1;
      }
    }
    return -1;
  }

  lemma {:induction false} FoundStays(cards: seq<int>, m: nat, n: nat, v: int)
    requires m <= n <= |cards| && RealIndex(cards, m, v) != -1
    ensures RealIndex(cards, n, v) == RealIndex(cards, m, v)
  {
    if m < n { FoundStays(cards, m, n - 1, v); }
  }

  /** calc_hand_count: as many cards as are shown. */
  method CalcHandCount(cards: seq<int>, maxCard: nat) returns (count: nat)
    requires maxCard <= |cards|
    ensures count == |Visible(cards, maxCard)|
  {
    count := 0;
    for i := 0 to maxCard
      invariant count == |Visible(cards, i)|
    {
      if cards[i] != -1 { count := count + 1; }
    }
  }

  /** The loop of session_send_info that writes the hand after the board of the payload. The room
      reserved for it by CalcHandCount is exactly filled. */
  method WriteHand(cards: seq<int>, size: nat, out: array<int>, at: nat)
    requires size <= |cards| && at + |Visible(cards, size)| == out.Length
    modifies out
    ensures out[..at] == old(out[..at])
    ensures out[at..] == Visible(cards, size)
  {
    var idx := 0;
    for i := 0 to size
      invariant idx == |Visible(cards, i)| <= |Visible(cards, size)|
      invariant out[..at] == old(out[..at])
      invariant out[at..at + idx] == Visible(cards, i)
    {
      VisiblePrefix(cards, i + 1, size);
      if cards[i] != -1 {
        out[at + idx] := cards[i];
        assert out[at..at + idx + 1] == out[at..at + idx] + [cards[i]];
        idx := idx + 1;
      }
    }
  }
}
