/** The deal, in place: two shuffles of the ids, the heads given out between them, the first column
    of the board and the hands. The values of the random source are a parameter; it may run dry. */
module Dealing {
  import opened Options
  import opened Sums
  import opened Turn
  import opened Board
  import opened Game
  import opened HeadShares
  import opened SeatInvariant
  import opened DealSpec
  import opened Shuffles
  import Spec = SessionSpec
  import opened Session

  /** melange_ids. Each value is cut to the places not yet fixed; without a value the shuffle stops
      there. */
  method MelangeIds(ids: array<int>, random: seq<nat>) returns (code: int)
    modifies ids
    ensures ids[..] == Shuffle(old(ids[..]), random)
    ensures code == if ids.Length <= |random| + 1 then 0 else -1
  {
    ghost var start, drawn: nat := ids[..], 0;
    var i := ids.Length - 1;
    while i > 0
      invariant i + drawn + 1 == ids.Length && drawn <= |random|
      invariant i >= 0 || ids.Length == 0
      invariant ids[..] == Shuffle(start, random[..drawn])
    {
      if ids.Length - 1 - i >= |random| {
        AllDrawn(start, random, drawn);
        return -1;
      }
      var r := random[ids.Length - 1 - i] % (i + 1);
      ghost var before := ids[..];
      var temp := ids[i];
      ids[i] := ids[r];
      ids[r] := temp;
      assert ids[..] == before[i := before[r]][r := before[i]];
      NextSwap(start, random, drawn, before, i, r);
      i, drawn := i - 1, drawn + 1;
    }
    AllDrawn(start, random, drawn);
    return 0;
  }

  lemma {:induction false} OrderDistinct(ids: seq<int>, n: nat, i: nat, j: nat)
    requires DeckOrder(ids, n) && i < n && j < n && ids[i] == ids[j]
    ensures i == j
  {
    if i != j { SumTwo(ids, i, j, Only(ids[i])); }
  }

  /** melange_head: the card in position k of the order gets the k-th of the heads given out. */
  method MelangeHead(ids: array<int>, deck: array<Card>, maxHead: nat) returns (code: int)
    requires DeckOrder(ids[..], deck.Length)
    modifies deck
    ensures maxHead == 0 || deck.Length == 0 ==> deck[..] == old(deck[..])
    ensures maxHead > 0 && deck.Length > 0 ==>
              |HeadList(deck.Length, maxHead, maxHead)| == deck.Length
              && forall k | 0 <= k < deck.Length ::
                   deck[ids[k]] == old(deck[ids[k]]).(heads := HeadList(deck.Length, maxHead, maxHead)[k])
  {
    if maxHead == 0 || deck.Length == 0 { return -1; }
    var total := maxHead * (maxHead + 1) / 2;
    TriangleIsProduct(maxHead);
    var n := deck.Length;
    var current := 0;
    var remaining := n;
    var h := 1;
    while h <= maxHead
      invariant 1 <= h <= maxHead + 1
      invariant current == |HeadList(n, maxHead, h - 1)| <= n
      invariant remaining == n - current
      invariant forall k | 0 <= k < current ::
                  deck[ids[k]] == old(deck[ids[k]]).(heads := HeadList(n, maxHead, h - 1)[k])
      invariant forall k | current <= k < n :: deck[ids[k]] == old(deck[ids[k]])
      decreases maxHead - h
    {
      HeadListSize(n, maxHead, h - 1);
      HeadListSize(n, maxHead, h);
      if h < maxHead { SomethingIsLeft(n, maxHead, h); }
      var share := NextShare(n, maxHead, total, h, remaining);
      GiveHeads(ids, deck, current, share, h);
      current := current + share;
      remaining := remaining - share;
      h := h + 1;
      if remaining <= 0 { break; }
    }
    HeadListSize(n, maxHead, maxHead);
    return 0;
  }

  /** How many cards class h gets: its share, cut to what is left; all of that in the last class. */
  method NextShare(n: nat, maxHead: nat, total: nat, h: nat, remaining: nat) returns (share: nat)
    requires 1 <= h <= maxHead && n >= 1 && total == Triangle(maxHead) && remaining == n - Shares(n, maxHead, h - 1)
    ensures share == ClassSize(n, maxHead, h)
  {
    var weight := maxHead - h + 1;
    if h == maxHead {
      share := remaining;
    } else {
      SomethingIsLeft(n, maxHead, h);
      share := n * weight / total;
      assert share == Share(n, maxHead, h);
      if share > remaining { share := remaining; }
    }
  }

  /** The inner loop of melange_head. */
  method GiveHeads(ids: array<int>, deck: array<Card>, first: nat, share: nat, h: nat)
    requires DeckOrder(ids[..], deck.Length) && first + share <= deck.Length
    modifies deck
    ensures forall k | 0 <= k < deck.Length ::
              deck[ids[k]] == if first <= k < first + share then old(deck[ids[k]]).(heads := h) else old(deck[ids[k]])
  {
    var current := first;
    for k := 0 to share
      invariant current == first + k
      invariant forall k | 0 <= k < deck.Length ::
                  deck[ids[k]] == if first <= k < current then old(deck[ids[k]]).(heads := h) else old(deck[ids[k]])
    {
      if current < deck.Length {
        ghost var before := deck[..];
        deck[ids[current]] := deck[ids[current]].(heads := h);
        forall j | 0 <= j < deck.Length && j != current ensures deck[ids[j]] == before[ids[j]] {
          if ids[j] == ids[current] { OrderDistinct(ids[..], deck.Length, j, current); }
        }
        current := current + 1;
      }
    }
  }

  lemma {:induction false} RemainderOfCell(i: nat, r: nat, c: nat, len: nat)
    requires len > 0 && c < len && i == Start(r, len) + c
    ensures i % len == c && i / len == r
  {
    StartIsProduct(r, len);
    UniqueQuotient(i, len, r, c);
  }

  lemma {:induction false} UniqueQuotient(a: int, d: nat, q: int, r: int)
    requires d > 0 && a == q * d + r && 0 <= r < d
    ensures a / d == q && a % d == r
  {
    var q', r' := a / d, a % d;
    assert a == q' * d + r';
    assert (q - q') * d == r' - r by { HeadShares.Distribute(q, -q', d); }
    if q > q' { HeadShares.MulMonotone(1, q - q', d); }
    if q < q' { HeadShares.MulMonotone(q - q', -1, d); }
  }

  /** Cell k of the board after a deal. */
  function DealtCell(ids: seq<int>, len: nat, k: nat): int
    requires len > 0
  {
    if k % len == 0 && k / len < |ids| then ids[k / len] else -1
  }

  lemma {:induction false} DealtLays(board: seq<int>, ids: seq<int>, lines: nat, len: nat)
    requires len > 0 && |board| == Start(lines, len)
    requires forall k | 0 <= k < |board| :: board[k] == DealtCell(ids, len, k)
    ensures Lays(board, FirstCards(ids, lines), len)
  {
    forall q | 0 <= q < lines ensures RowAt(board, Start(q, len), FirstCards(ids, lines)[q], len) {
      var row := FirstCards(ids, lines)[q];
      RowsApart(q, lines, len);
      forall k | Start(q, len) <= k < Start(q, len) + len
        ensures board[k] == if k - Start(q, len) < |row| then row[k - Start(q, len)] else -1
      {
        RemainderOfCell(k, q, k - Start(q, len), len);
      }
    }
  }

  /** The rows whose first cell is among the first i cells. */
  function Started(i: nat, len: nat): nat
    requires len > 0
  {
    if i == 0 then 0 else (i - 1) / len + 1
  }

  lemma {:induction false} StartedStep(i: nat, lines: nat, len: nat)
    requires len > 0 && i < Start(lines, len)
    ensures i / len < lines
    ensures Started(i + 1, len) == i / len + 1
    ensures i % len == 0 ==> Started(i, len) == i / len
    ensures i % len != 0 ==> Started(i, len) == i / len + 1
  {
    var q, r := i / len, i % len;
    assert i == q * len + r;
    StartIsProduct(lines, len);
    if lines <= q { HeadShares.MulMonotone(lines, q, len); }
    if r == 0 {
      if i > 0 {
        HeadShares.Distribute(q, -1, len);
        UniqueQuotient(i - 1, len, q - 1, len - 1);
      }
    } else {
      UniqueQuotient(i - 1, len, q, r - 1);
    }
  }

  lemma {:induction false} StartedAll(lines: nat, len: nat)
    requires len > 0
    ensures Started(Start(lines, len), len) == lines
  {
    if lines > 0 {
      StartIsProduct(lines - 1, len);
      UniqueQuotient(Start(lines, len) - 1, len, lines - 1, len - 1);
    }
  }

  /** The loop that fills the board: an id in the first cell of each row, as long as there are ids. */
  method FillBoard(board: array<int>, ids: array<int>, lines: nat, len: nat) returns (next: nat)
    requires board != ids && len > 0 && board.Length == Start(lines, len)
    modifies board
    ensures next == if lines <= ids.Length then lines else ids.Length
    ensures Lays(board[..], FirstCards(ids[..], lines), len)
  {
    StartIsProduct(lines, len);
    var cells := len * lines;
    next := 0;
    for i := 0 to cells
      invariant board.Length == cells
      invariant next == if Started(i, len) <= ids.Length then Started(i, len) else ids.Length
      invariant forall k | 0 <= k < i :: board[k] == DealtCell(ids[..], len, k)
    {
      StartedStep(i, lines, len);
      if i % len == 0 {
        if next < ids.Length {
          board[i] := ids[next];
          next := next + 1;
        } else {
          board[i] := -1;
        }
      } else {
        board[i] := -1;
      }
    }
    StartedAll(lines, len);
    DealtLays(board[..], ids[..], lines, len);
  }

  /** The loop that copies ids to the hands of the players, in the order of the seats. */
  method FillHands(players: array<Player>, ids: array<int>, first: nat, size: nat) returns (next: nat)
    requires first <= ids.Length
    modifies players
    ensures Dealing(players[..], next) == DealHands(old(players[..]), ids[..], first, size, players.Length)
  {
    next := first;
    for i := 0 to players.Length
      invariant next <= ids.Length
      invariant Dealing(players[..], next) == DealHands(old(players[..]), ids[..], first, size, i)
    {
      if players[i].id == 0 || players[i].role != PlayerRole { continue; }
      if next + size <= ids.Length {
        if players[i].hand.Some? {
          ghost var before := players[..];
          players[i] := players[i].(hand := Some(ids[next..next + size]));
          assert players[..] == before[i := players[i]];
          assert ids[..][next..next + size] == ids[next..next + size];
          next := next + size;
        }
      }
    }
  }

  lemma {:induction false} SumIsTotal(ids: seq<int>, list: seq<nat>, w: int -> nat)
    requires |ids| == |list| && forall k | 0 <= k < |ids| :: ids[k] != -1 && w(ids[k]) == list[k]
    ensures Sum(ids, w) == Total(list)
  {
    if ids != [] {
      var n := |ids| - 1;
      assert forall k | 0 <= k < n :: ids[..n][k] == ids[k] && list[..n][k] == list[k];
      SumIsTotal(ids[..n], list[..n], w);
    }
  }

  /** The deck after its heads are given out along an order of the ids. */
  ghost predicate DeckMade(deck: seq<Card>, maxHead: nat, order: seq<int>)
    requires DeckOrder(order, |deck|)
  {
    && (forall i | 0 <= i < |deck| :: deck[i].num == i + 1)
    && (maxHead > 0 && |deck| > 0 ==>
          && |HeadList(|deck|, maxHead, maxHead)| == |deck|
          && forall k | 0 <= k < |deck| :: deck[order[k]].heads == HeadList(|deck|, maxHead, maxHead)[k])
  }

  /** All cards have heads, and together as many as the shares promise. */
  lemma {:induction false} DeckTotal(deck: seq<Card>, maxHead: nat, order: seq<int>)
    requires DeckOrder(order, |deck|) && DeckMade(deck, maxHead, order) && maxHead > 0 && |deck| > 0
    ensures forall i | 0 <= i < |deck| :: 1 <= deck[i].heads <= maxHead
    ensures Sum(order, HeadsOn(HeadsIn(deck))) == Total(HeadList(|deck|, maxHead, maxHead))
  {
    var list := HeadList(|deck|, maxHead, maxHead);
    forall i | 0 <= i < |deck| ensures 1 <= deck[i].heads <= maxHead {
      var k := PlaceOf(order, |deck|, i);
      assert order[k] == i;
    }
    SumIsTotal(order, list, HeadsOn(HeadsIn(deck)));
  }

  /** Every card has heads, and the cards of the order have the promised number of heads. */
  ghost predicate HeadsPromised(deck: seq<Card>, maxHead: nat, order: seq<int>) {
    maxHead > 0 && |deck| > 0 ==>
      && (forall i | 0 <= i < |deck| :: 1 <= deck[i].heads <= maxHead)
      && Sum(order, HeadsOn(HeadsIn(deck))) == Total(HeadList(|deck|, maxHead, maxHead))
  }

  /** The same holds for the order after the second shuffle. */
  lemma {:induction false} OrderTotal(deck: seq<Card>, maxHead: nat, first: seq<int>, draws: seq<nat>)
    requires DeckOrder(first, |deck|) && DeckMade(deck, maxHead, first)
    ensures DeckOrder(Shuffle(first, draws), |deck|) && HeadsPromised(deck, maxHead, Shuffle(first, draws))
  {
    ShuffledOrder(first, draws, |deck|);
    if maxHead > 0 && |deck| > 0 {
      DeckTotal(deck, maxHead, first);
      ShuffleKeepsSum(first, draws, HeadsOn(HeadsIn(deck)));
    }
  }

  /** The ids in a first order, and a deck with its heads given out in that order. */
  method MakeDeck(deck: array<Card>, maxHead: nat, random: seq<nat>) returns (ids: array<int>)
    modifies deck
    ensures fresh(ids) && ids[..] == Shuffle(Identity(deck.Length), random)
    ensures DeckOrder(ids[..], deck.Length) && DeckMade(deck[..], maxHead, ids[..])
  {
    for i := 0 to deck.Length
      invariant forall j | 0 <= j < i :: deck[j] == Card(j + 1, 0)
    {
      deck[i] := Card(i + 1, 0);
    }
    ids := new int[deck.Length];
    for i := 0 to deck.Length
      invariant forall j | 0 <= j < i :: ids[j] == j
      invariant forall j | 0 <= j < deck.Length :: deck[j] == Card(j + 1, 0)
    {
      ids[i] := i;
    }
    assert ids[..] == Identity(deck.Length);
    var _ := MelangeIds(ids, random);
    IdentityOrder(deck.Length);
    ShuffledOrder(Identity(deck.Length), random, deck.Length);
    var _ := MelangeHead(ids, deck, maxHead);
    forall i | 0 <= i < deck.Length ensures deck[i].num == i + 1 {
      var k := PlaceOf(ids[..], deck.Length, i);
      assert ids[k] == i;
    }
  }

  /** Every id has a place in the order. */
  lemma {:induction false} PlaceOf(ids: seq<int>, n: nat, c: nat) returns (k: nat)
    requires DeckOrder(ids, n) && c < n
    ensures k < n && ids[k] == c
  {
    if forall j | 0 <= j < n :: ids[j] != c { OnlyZero(ids, c); }
    k :| 0 <= k < n && ids[k] == c;
  }

  /** The board filled from an order of the ids: one card in every row. */
  method LayBoard(g: Game, ids: array<int>)
    requires g.Valid() && ids != g.board && ids != g.ready && DeckOrder(ids[..], g.deck.Length) && g.lines <= ids.Length
    modifies g`nextCard, g`rows, g.board
    ensures g.Valid() && NonEmptyRows(g.rows) && g.rows == FirstCards(ids[..], g.lines) && g.nextCard == g.lines
  {
    ghost var order := ids[..];
    g.nextCard := FillBoard(g.board, ids, g.lines, g.lineLen);
    g.rows := FirstCards(order, g.lines);
  }

  /** The hands filled from what the board has left. */
  method ServeHands(s: Session, ids: array<int>, ghost before: Spec.State)
    requires SeatsOk(before, s.Rules()) && before.table.seats == s.players[..]
    requires DeckOrder(ids[..], s.game.deck.Length) && s.game.nextCard == s.game.lines
    requires s.game.lines + Needed(s.players[..], s.game.handSize, s.players.Length) <= s.game.deck.Length
    modifies s.game`nextCard, s.players
    ensures s.players[..]
            == DealHands(before.table.seats, ids[..], s.game.lines, s.game.handSize, s.players.Length).seats
    ensures forall i | 0 <= i < s.players.Length :: s.HandInDeck(s.players[i])
  {
    HandsInDeck(before, s.Rules(), s.game.lines, ids[..], s.game.deck.Length);
    s.game.nextCard := FillHands(s.players, ids, s.game.nextCard, s.game.handSize);
    assert forall i | 0 <= i < s.players.Length :: s.players[i] == s.players[..][i];
  }

  /** The board and the hands filled from an order of the ids. */
  method DealOrder(s: Session, ids: array<int>)
    requires s.Valid() && SeatsOk(s.State(), s.Rules()) && s.game.phase == Inactive
    requires ids != s.game.board && ids != s.game.ready && DeckOrder(ids[..], s.game.deck.Length)
    requires s.game.lines + Needed(s.players[..], s.game.handSize, s.players.Length) <= s.game.deck.Length
    modifies s.game, s.game.board, s.players
    ensures s.Valid() && NonEmptyRows(s.game.rows)
    ensures s.State() == Deal(old(s.State()), s.Rules(), s.game.lines, ids[..], s.game.Heads())
  {
    var g := s.game;
    ghost var before := s.State();
    LayBoard(g, ids);
    ServeHands(s, ids, before);
    g.won := NothingWon(g.ready.Length);
    g.phase := Waiting;
  }

  lemma {:induction false} HandsInDeck(before: Spec.State, rules: Spec.Rules, lines: nat, order: seq<int>, n: nat)
    requires SeatsOk(before, rules) && DeckOrder(order, n)
    requires lines + Needed(before.table.seats, rules.handSize, |before.table.seats|) <= n
    ensures var seats := DealHands(before.table.seats, order, lines, rules.handSize, |before.table.seats|).seats;
            forall i | 0 <= i < |seats| :: HandWithin(seats[i], n)
  {
    DealHandsSeats(before.table.seats, order, lines, rules, |before.table.seats|);
    var seats := DealHands(before.table.seats, order, lines, rules.handSize, |before.table.seats|).seats;
    forall i | 0 <= i < |seats| ensures HandWithin(seats[i], n) {
      if seats[i].hand.Some? {
        assert SeatOk(seats[i], rules) && IsPlayer(before.table.seats[i]);
        assert HandFrom(seats[i], order);
        forall j | 0 <= j < |seats[i].hand.value| ensures -1 <= seats[i].hand.value[j] < n {
          assert HandOf(seats[i])[j] in order;
        }
      }
    }
  }

  /** distrib_cards: the deal of the specification for the ids shuffled twice, with the heads given
      out along the first shuffle. */
  method DistribCards(s: Session, random1: seq<nat>, random2: seq<nat>) returns (ghost order: seq<int>)
    requires s.Valid() && SeatsOk(s.State(), s.Rules()) && s.game.phase == Inactive
    requires s.game.lines + Needed(s.players[..], s.game.handSize, s.players.Length) <= s.game.deck.Length
    modifies s.game, s.game.deck, s.game.board, s.players
    ensures s.Valid() && NonEmptyRows(s.game.rows)
    ensures order == Shuffle(Shuffle(Identity(s.game.deck.Length), random1), random2)
    ensures DeckOrder(order, s.game.deck.Length)
    ensures s.State() == Deal(old(s.State()), s.Rules(), s.game.lines, order, s.game.Heads())
    ensures var first := Shuffle(Identity(s.game.deck.Length), random1);
            DeckOrder(first, s.game.deck.Length) && DeckMade(s.game.deck[..], s.game.maxHead, first)
    ensures HeadsPromised(s.game.deck[..], s.game.maxHead, order)
  {
    var ids := MakeOrder(s.game.deck, s.game.maxHead, random1, random2);
    order := ids[..];
    DealOrder(s, ids);
  }

  /** The deck, and the order in which it is dealt. */
  method MakeOrder(deck: array<Card>, maxHead: nat, random1: seq<nat>, random2: seq<nat>) returns (ids: array<int>)
    modifies deck
    ensures fresh(ids) && ids[..] == Shuffle(Shuffle(Identity(deck.Length), random1), random2)
    ensures DeckOrder(ids[..], deck.Length)
    ensures var first := Shuffle(Identity(deck.Length), random1);
            DeckOrder(first, deck.Length) && DeckMade(deck[..], maxHead, first)
    ensures HeadsPromised(deck[..], maxHead, ids[..])
  {
    ids := MakeDeck(deck, maxHead, random1);
    ghost var first := ids[..];
    var _ := MelangeIds(ids, random2);
    OrderTotal(deck[..], maxHead, first, random2);
  }
}
