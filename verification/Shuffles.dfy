/** The shuffle that the server and the bot share, as a function of the values drawn: every order of
    the cards can come out, each one for exactly one choice of places. */
module Shuffles {
  import opened Sums
  import opened DealSpec

  /** The cards still to be placed when the one at r has gone to the end: the last one fills its place. */
  function Others(s: seq<int>, r: nat): (t: seq<int>)
    requires r < |s|
    ensures |t| == |s| - 1
  {
    var i := |s| - 1;
    if r < i then s[..i][r := s[i]] else s[..i]
  }

  /** The first value chooses the card that comes last, the next one the card before it among the
      others, and so on as long as there are values. */
  function Shuffle(s: seq<int>, draws: seq<nat>): (t: seq<int>)
    ensures |t| == |s|
    decreases |draws|
  {
    if |s| <= 1 || draws == [] then s
    else
      var r := draws[0] % |s|;
      Shuffle(Others(s, r), draws[1..]) + [s[r]]
  }

  function Swapped(s: seq<int>, i: nat, r: nat): seq<int>
    requires i < |s| && r < |s|
  {
    s[i := s[r]][r := s[i]]
  }

  /** One more value swaps once more: the last place not yet fixed gets the card that it chooses. */
  lemma {:induction false} OneMoreDraw(s: seq<int>, draws: seq<nat>, d: nat)
    requires |draws| + 1 < |s|
    ensures var i := |s| - 1 - |draws|;
            Shuffle(s, draws + [d]) == Swapped(Shuffle(s, draws), i, d % (i + 1))
    decreases |draws|
  {
    if draws == [] {
      assert (draws + [d])[1..] == [];
    } else {
      var r := draws[0] % |s|;
      assert (draws + [d])[1..] == draws[1..] + [d];
      OneMoreDraw(Others(s, r), draws[1..], d);
    }
  }

  /** A swap in place takes the shuffle of the values drawn so far one value further. */
  lemma {:induction false} NextSwap(s: seq<int>, draws: seq<nat>, k: nat, before: seq<int>, i: nat, r: nat)
    requires 0 < i && i + k + 1 == |s| && k < |draws| && before == Shuffle(s, draws[..k])
    requires r == draws[k] % (i + 1)
    ensures r <= i && before[i := before[r]][r := before[i]] == Shuffle(s, draws[..k + 1])
  {
    OneMoreDraw(s, draws[..k], draws[k]);
    assert draws[..k + 1] == draws[..k] + [draws[k]];
  }

  /** It is complete when there are no more values, or only one place is left; values that are not
      needed change nothing. */
  lemma {:induction false} AllDrawn(s: seq<int>, draws: seq<nat>, k: nat)
    requires k <= |draws| && (k == |draws| || |s| <= k + 1)
    ensures Shuffle(s, draws[..k]) == Shuffle(s, draws)
    decreases |draws|
  {
    if k == |draws| {
      assert draws[..k] == draws;
    } else if |s| > 1 {
      var r := draws[0] % |s|;
      assert draws[..k][1..] == draws[1..][..k - 1];
      AllDrawn(Others(s, r), draws[1..], k - 1);
    }
  }

  /** Value j decides which card is j places before the last one: the one at the place it gives, cut to
      the places not yet fixed, after the values before it. */
  lemma {:induction false} PlaceDrawn(s: seq<int>, draws: seq<nat>, j: nat)
    requires j < |draws| && j + 1 < |s|
    ensures Shuffle(s, draws)[|s| - 1 - j] == Shuffle(s, draws[..j])[draws[j] % (|s| - j)]
  {
    PlaceChosen(s, draws, j, |s| - j, draws[j] % (|s| - j));
  }

  lemma {:induction false} PlaceChosen(s: seq<int>, draws: seq<nat>, j: nat, open: nat, r: nat)
    requires j < |draws| && open + j == |s| && open > 1 && r < open && r == draws[j] % open
    ensures Shuffle(s, draws)[open - 1] == Shuffle(s, draws[..j])[r]
    decreases j
  {
    if j == 0 {
      assert draws[..0] == [];
    } else {
      var first := draws[0] % |s|;
      var others, later := Others(s, first), draws[1..];
      assert draws[..j][1..] == later[..j - 1];
      PlaceChosen(others, later, j - 1, open, r);
    }
  }

  lemma {:induction false} OthersSum(s: seq<int>, r: nat, w: int -> nat)
    requires r < |s|
    ensures Sum(Others(s, r), w) + Weigh(s[r], w) == Sum(s, w)
  {
    var i := |s| - 1;
    if r < i { SumUpdate(s[..i], r, s[i], w); }
  }

  lemma {:induction false} SumSnoc(s: seq<int>, x: int, w: int -> nat)
    ensures Sum(s + [x], w) == Sum(s, w) + Weigh(x, w)
  {
    assert (s + [x])[..|s|] == s;
  }

  /** Whatever is drawn, the cards stay the same ones. */
  lemma {:induction false} ShuffleKeepsSum(s: seq<int>, draws: seq<nat>, w: int -> nat)
    ensures Sum(Shuffle(s, draws), w) == Sum(s, w)
    decreases |draws|
  {
    if |s| > 1 && draws != [] {
      var r := draws[0] % |s|;
      ShuffleKeepsSum(Others(s, r), draws[1..], w);
      OthersSum(s, r, w);
      SumSnoc(Shuffle(Others(s, r), draws[1..]), s[r], w);
    }
  }

  lemma {:induction false} ShuffleKeepsMembers(s: seq<int>, draws: seq<nat>, k: nat)
    requires k < |s|
    ensures Shuffle(s, draws)[k] in s
    decreases |draws|
  {
    if |s| > 1 && draws != [] {
      var r := draws[0] % |s|;
      if k < |s| - 1 { ShuffleKeepsMembers(Others(s, r), draws[1..], k); }
    }
  }

  // ---------------------------------------------------------------- every order, once

  /** Each value is one of the places it chooses from, and there is one for every choice. */
  ghost predicate Choices(draws: seq<nat>, n: nat) {
    |draws| == (if n == 0 then 0 else n - 1) && forall j | 0 <= j < |draws| :: draws[j] < n - j
  }

  /** Each card occurs equally often in both. */
  ghost predicate SameCards(s: seq<int>, t: seq<int>) {
    |s| == |t| && (forall k | 0 <= k < |t| :: t[k] != -1) && forall c :: Sum(s, Only(c)) == Sum(t, Only(c))
  }

  lemma {:induction false} FindCard(s: seq<int>, t: seq<int>) returns (r: nat)
    requires SameCards(s, t) && t != []
    ensures r < |s| && s[r] == t[|t| - 1]
  {
    var c := t[|t| - 1];
    SumAtLeast(t, |t| - 1, Only(c));
    assert Sum(s, Only(c)) == Sum(t, Only(c));
    if forall j | 0 <= j < |s| :: s[j] != c { OnlyZero(s, c); }
    r :| 0 <= r < |s| && s[r] == c;
  }

  lemma {:induction false} OnlyZero(s: seq<int>, c: int)
    requires forall j | 0 <= j < |s| :: s[j] != c
    ensures Sum(s, Only(c)) == 0
  {
    if s != [] { OnlyZero(s[..|s| - 1], c); }
  }

  lemma {:induction false} OthersSameCards(s: seq<int>, t: seq<int>, r: nat)
    requires SameCards(s, t) && r < |s| && s[r] == t[|t| - 1]
    ensures SameCards(Others(s, r), t[..|t| - 1])
  {
    forall c ensures Sum(Others(s, r), Only(c)) == Sum(t[..|t| - 1], Only(c)) {
      OthersSum(s, r, Only(c));
      assert Sum(s, Only(c)) == Sum(t, Only(c));
    }
  }

  lemma {:induction false} FirstChoice(r: nat, later: seq<nat>, n: nat)
    requires r <= n && n > 0
    ensures Choices(later, n) <==> Choices([r] + later, n + 1)
  {
    var draws := [r] + later;
    if Choices(later, n) {
      forall j | 0 <= j < |draws| ensures draws[j] < n + 1 - j {
        if j > 0 { assert draws[j] == later[j - 1]; }
      }
    }
    if Choices(draws, n + 1) {
      forall j | 0 <= j < |later| ensures later[j] < n - j { assert later[j] == draws[j + 1]; }
    }
  }

  lemma {:induction false} FirstDraw(s: seq<int>, r: nat, later: seq<nat>)
    requires |s| > 1 && r < |s|
    ensures Shuffle(s, [r] + later) == Shuffle(Others(s, r), later) + [s[r]]
  {
    var draws := [r] + later;
    Remains(r, |s|);
    assert draws[0] % |s| == r;
    assert draws[1..] == later;
  }

  lemma {:induction false} Remains(r: nat, n: nat)
    requires r < n
    ensures r % n == r
  {
  }

  /** The choices that lead from one order of the cards to another. */
  lemma {:induction false} ChoicesFor(s: seq<int>, t: seq<int>) returns (draws: seq<nat>)
    requires SameCards(s, t)
    ensures Choices(draws, |s|) && Shuffle(s, draws) == t
    decreases |s|
  {
    if s == [] { return []; }
    var r := FindCard(s, t);
    if |s| == 1 { return []; }
    OthersSameCards(s, t, r);
    var later := ChoicesFor(Others(s, r), t[..|t| - 1]);
    FirstChoice(r, later, |s| - 1);
    FirstDraw(s, r, later);
    return [r] + later;
  }

  ghost predicate Different(s: seq<int>) {
    forall i, j | 0 <= i < |s| && 0 <= j < |s| && s[i] == s[j] :: i == j
  }

  lemma {:induction false} OthersDifferent(s: seq<int>, r: nat)
    requires Different(s) && r < |s|
    ensures Different(Others(s, r))
  {
  }

  /** Other choices lead to another order. */
  lemma {:induction false} ChoicesTold(s: seq<int>, a: seq<nat>, b: seq<nat>)
    requires Different(s) && Choices(a, |s|) && Choices(b, |s|) && Shuffle(s, a) == Shuffle(s, b)
    ensures a == b
    decreases |s|
  {
    if |s| > 1 {
      assert a == [a[0]] + a[1..] && b == [b[0]] + b[1..];
      FirstChoice(a[0], a[1..], |s| - 1);
      FirstDraw(s, a[0], a[1..]);
      FirstChoice(b[0], b[1..], |s| - 1);
      FirstDraw(s, b[0], b[1..]);
      SameEnd(Shuffle(Others(s, a[0]), a[1..]), s[a[0]], Shuffle(Others(s, b[0]), b[1..]), s[b[0]]);
      OthersDifferent(s, a[0]);
      ChoicesTold(Others(s, a[0]), a[1..], b[1..]);
    }
  }

  lemma {:induction false} SameEnd(s: seq<int>, x: int, t: seq<int>, y: int)
    requires s + [x] == t + [y]
    ensures s == t && x == y
  {
    assert s == (s + [x])[..|s|] && t == (t + [y])[..|t|] && |s + [x]| == |t + [y]|;
    assert (s + [x])[|s|] == x && (t + [y])[|t|] == y;
  }

  /** The ids 0 .. n-1 in their own order. */
  function Identity(n: nat): seq<int> { seq(n, i => i) }

  lemma {:induction false} IdentityOrder(n: nat)
    ensures DeckOrder(Identity(n), n) && Different(Identity(n))
  {
    forall c ensures Sum(Identity(n), Only(c)) == if 0 <= c < n then 1 else 0 { IdentityCounts(Identity(n), c); }
  }

  lemma {:induction false} OrderCounts(ids: seq<int>, n: nat, c: int)
    requires DeckOrder(ids, n)
    ensures Sum(ids, Only(c)) == if 0 <= c < n then 1 else 0
  {
    if !(0 <= c < n) { OnlyZero(ids, c); }
  }

  /** Every shuffle of the ids is an order of the deck, and every order of the deck is the shuffle of
      exactly one sequence of choices. */
  lemma {:induction false} EveryOrder(order: seq<int>, n: nat)
    ensures forall draws :: DeckOrder(Shuffle(Identity(n), draws), n)
    ensures DeckOrder(order, n) ==> exists draws :: Choices(draws, n) && Shuffle(Identity(n), draws) == order
    ensures forall a, b | Choices(a, n) && Choices(b, n) && Shuffle(Identity(n), a) == Shuffle(Identity(n), b) :: a == b
  {
    IdentityOrder(n);
    forall draws ensures DeckOrder(Shuffle(Identity(n), draws), n) { ShuffledOrder(Identity(n), draws, n); }
    forall a, b | Choices(a, n) && Choices(b, n) && Shuffle(Identity(n), a) == Shuffle(Identity(n), b) ensures a == b {
      ChoicesTold(Identity(n), a, b);
    }
    if DeckOrder(order, n) {
      forall c ensures Sum(Identity(n), Only(c)) == Sum(order, Only(c)) {
        OrderCounts(Identity(n), n, c);
        OrderCounts(order, n, c);
      }
      var draws := ChoicesFor(Identity(n), order);
    }
  }

  lemma {:induction false} ShuffledOrder(ids: seq<int>, draws: seq<nat>, n: nat)
    requires DeckOrder(ids, n)
    ensures DeckOrder(Shuffle(ids, draws), n)
  {
    var t := Shuffle(ids, draws);
    forall k | 0 <= k < n ensures 0 <= t[k] < n { ShuffleKeepsMembers(ids, draws, k); }
    forall c | 0 <= c < n ensures Sum(t, Only(c)) == 1 { ShuffleKeepsSum(ids, draws, Only(c)); }
  }
}
