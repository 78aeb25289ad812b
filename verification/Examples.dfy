/** Concrete games in which a departure disturbs the others. */
module Examples {
  import opened Options
  import opened Sums
  import opened Turn
  import opened Game
  import opened Hand
  import opened SessionSpec
  import opened SeatInvariant
  import opened DealSpec
  import opened Runs

  function Someone(id: nat, hand: seq<int>): Player { Player(id, PlayerRole, Some(hand), 0, true) }

  function Nobody(): Player { Player(0, NoRole, None, 0, false) }

  // ---------------------------------------------------------------- three players, one card each

  const THREE := Rules(5, 1, 3)
  const FOUR_CARDS: seq<int> := [0, 1, 2, 3]

  function Three(rows: seq<seq<int>>, ready: seq<int>, a: seq<int>, b: seq<int>, c: seq<int>, phase: Phase,
                 count: int): State
  {
    State(Table(rows, ready, [Someone(1, a), Someone(2, b), Someone(3, c)], [[], [], []]),
          if rows == [] then [] else [1, 1, 1, 1], phase, count, 0, 3, 3)
  }

  const THREE_SEATED := Three([], [-1, -1, -1], [0], [0], [0], Inactive, 0)
  const THREE_DEALT := Three([[0]], [-1, -1, -1], [1], [2], [3], Waiting, 0)
  const FIRST_OF_THREE_ANSWERED := Three([[0]], [1, -1, -1], [-1], [2], [3], Waiting, 1)

  lemma {:induction false} ThreeFit()
    ensures DealFits(THREE_SEATED, THREE, 1, FOUR_CARDS, [1, 1, 1, 1])
  {
    var seats := THREE_SEATED.table.seats;
    forall c | 0 <= c < 4 ensures Sum(FOUR_CARDS, Only(c)) == 1 { IdentityCounts(FOUR_CARDS, c); }
    CountThree(seats, IsOccupied);
    CountThree(seats, IsPlayer);
    assert Needed(seats, 1, 1) == 1 && Needed(seats, 1, 2) == 2 && Needed(seats, 1, 3) == 3;
  }

  lemma {:induction false} ThreeDealt()
    ensures Deal(THREE_SEATED, THREE, 1, FOUR_CARDS, [1, 1, 1, 1]) == THREE_DEALT
  {
    var seats := THREE_SEATED.table.seats;
    assert FOUR_CARDS[1..2] == [1] && FOUR_CARDS[2..3] == [2] && FOUR_CARDS[3..4] == [3];
    var d1, d2 := DealHands(seats, FOUR_CARDS, 1, 1, 1), DealHands(seats, FOUR_CARDS, 1, 1, 2);
    assert d1.next == 2 && d1.seats == [Someone(1, [1]), seats[1], seats[2]];
    assert d2.next == 3 && d2.seats == [Someone(1, [1]), Someone(2, [2]), seats[2]];
    assert FirstCards(FOUR_CARDS, 1) == [[0]];
    assert NothingWon(3) == [[], [], []];
  }

  lemma {:induction false} FirstAnswers()
    ensures Submit(THREE_DEALT, THREE, 1, 0, true) == FIRST_OF_THREE_ANSWERED
  {
    var s := THREE_DEALT;
    assert FindSeat(s.table.seats, 1, 1) == 0 && FindSeat(s.table.seats, 1, 2) == 0;
    assert SeatOf(s.table.seats, 1) == 0;
    assert Visible([1], 0) == [] && RealIndex([1], 0, 0) == -1 && RealIndex([1], 1, 0) == 0;
    assert ChosenPlace(s, THREE, 1, 0) == 0 && [1][0 := -1] == [-1];
    var s1 := InfoReturn(s, THREE, 1, 0);
    assert s1.table.seats == [Someone(1, [-1]), s.table.seats[1], s.table.seats[2]];
    assert s1 == FIRST_OF_THREE_ANSWERED;
  }

  lemma {:induction false} AfterTwo(s: State, rules: Rules, e: Event, f: Event)
    requires Shaped(s.table) && Allowed(s, rules, e) && Allowed(Next(s, rules, e), rules, f)
    ensures AllAllowed(s, rules, [e, f]) && After(s, rules, [e, f]) == Next(Next(s, rules, e), rules, f)
  {
    assert [e, f][1..] == [f] && [f][1..] == [];
    var s1 := Next(s, rules, e);
    assert AllAllowed(Next(s1, rules, f), rules, []);
    assert AllAllowed(s1, rules, [f]) && After(s1, rules, [f]) == Next(s1, rules, f);
  }

  const FIRST_OF_THREE_LEFT :=
    State(Table([[0]], [-1, -1, -1], [Nobody(), Someone(2, [2]), Someone(3, [3])], [[], [], []]),
          [1, 1, 1, 1], Waiting, 1, 0, 2, 2)

  lemma {:induction false} FirstLeaves()
    ensures Remove(FIRST_OF_THREE_ANSWERED, THREE, 1, true) == FIRST_OF_THREE_LEFT
  {
    var s := FIRST_OF_THREE_ANSWERED;
    assert FindSeat(s.table.seats, 1, 1) == 0 && FindSeat(s.table.seats, 1, 2) == 0 && SeatOf(s.table.seats, 1) == 0;
    assert s.table.ready[0 := -1] == [-1, -1, -1];
    var s1 := Withdraw(s, THREE, 0, true);
    assert s1.table.ready == [-1, -1, -1];
    assert Remove(s, THREE, 1, true).table.seats == FIRST_OF_THREE_LEFT.table.seats;
  }

  /** Three players; the first one answers and leaves. Cards are still awaited, no slot is occupied,
      and the counter says 1: the next card will be taken for the last one. */
  lemma {:induction false} StaleCount()
    ensures DealFits(THREE_SEATED, THREE, 1, FOUR_CARDS, [1, 1, 1, 1])
    ensures var d := Deal(THREE_SEATED, THREE, 1, FOUR_CARDS, [1, 1, 1, 1]);
            var es := [Answers(1, 0), Leaves(1)];
            AllAllowed(d, THREE, es) && After(d, THREE, es) == FIRST_OF_THREE_LEFT
    ensures FIRST_OF_THREE_LEFT.phase == Waiting
    ensures FIRST_OF_THREE_LEFT.readyCount == 1 && Pending(FIRST_OF_THREE_LEFT.table) == 0
  {
    ThreeFit();
    ThreeDealt();
    FirstAnswers();
    FirstLeaves();
    assert FindSeat(THREE_DEALT.table.seats, 1, 1) == 0 && FindSeat(THREE_DEALT.table.seats, 1, 2) == 0;
    AfterTwo(THREE_DEALT, THREE, Answers(1, 0), Leaves(1));
    SumOneZero(FIRST_OF_THREE_LEFT.table.ready);
  }

  lemma {:induction false} CountThree(seats: seq<Player>, f: Player -> bool)
    requires |seats| == 3 && f(seats[0]) && f(seats[1]) && f(seats[2])
    ensures Count(seats, f) == 3
  {
    assert seats[..2][..1] == seats[..1] && seats[..1][..0] == [];
    assert Count(seats[..1], f) == 1 && Count(seats[..2], f) == 2;
  }

  // ---------------------------------------------------------------- two players, two cards each

  const TWO := Rules(5, 2, 2)
  const FIVE_CARDS: seq<int> := [0, 1, 2, 3, 4]

  function Two(rows: seq<seq<int>>, ready: seq<int>, a: Player, b: Player, phase: Phase, count: int,
               active: int): State
  {
    State(Table(rows, ready, [a, b], [[], []]), if rows == [] then [] else [1, 1, 1, 1, 1], phase, count, 0, 2, active)
  }

  const TWO_SEATED := Two([], [-1, -1], Someone(1, [0, 0]), Someone(2, [0, 0]), Inactive, 0, 2)
  const TWO_DEALT := Two([[0]], [-1, -1], Someone(1, [1, 2]), Someone(2, [3, 4]), Waiting, 0, 2)
  const FIRST_OF_TWO_ANSWERED := Two([[0]], [1, -1], Someone(1, [-1, 2]), Someone(2, [3, 4]), Waiting, 1, 2)
  const SECOND_LOST :=
    Two([[0, 1]], [-1, -1], Someone(1, [-1, 2]), Player(2, ObserverRole, None, 0, false), Inactive, 0, 1)

  lemma {:induction false} CountTwo(seats: seq<Player>, f: Player -> bool)
    requires |seats| == 2 && f(seats[0]) && f(seats[1])
    ensures Count(seats, f) == 2
  {
    assert seats[..1][..0] == [];
    assert Count(seats[..1], f) == 1;
  }

  lemma {:induction false} TwoFit()
    ensures DealFits(TWO_SEATED, TWO, 1, FIVE_CARDS, [1, 1, 1, 1, 1])
  {
    var seats := TWO_SEATED.table.seats;
    forall c | 0 <= c < 5 ensures Sum(FIVE_CARDS, Only(c)) == 1 { IdentityCounts(FIVE_CARDS, c); }
    CountTwo(seats, IsOccupied);
    CountTwo(seats, IsPlayer);
    assert Needed(seats, 2, 1) == 2 && Needed(seats, 2, 2) == 4;
  }

  lemma {:induction false} TwoDealt()
    ensures Deal(TWO_SEATED, TWO, 1, FIVE_CARDS, [1, 1, 1, 1, 1]) == TWO_DEALT
  {
    var seats := TWO_SEATED.table.seats;
    assert FIVE_CARDS[1..3] == [1, 2] && FIVE_CARDS[3..5] == [3, 4];
    var d1 := DealHands(seats, FIVE_CARDS, 1, 2, 1);
    assert d1.next == 3 && d1.seats == [Someone(1, [1, 2]), seats[1]];
    assert FirstCards(FIVE_CARDS, 1) == [[0]];
    assert NothingWon(2) == [[], []];
  }

  lemma {:induction false} FirstOfTwoAnswers()
    ensures Submit(TWO_DEALT, TWO, 1, 0, true) == FIRST_OF_TWO_ANSWERED
  {
    var s := TWO_DEALT;
    assert FindSeat(s.table.seats, 1, 1) == 0;
    assert FindSeat(s.table.seats, 1, 2) == 0 && SeatOf(s.table.seats, 1) == 0;
    assert Visible([1, 2], 0) == [] && RealIndex([1, 2], 0, 0) == -1;
    assert RealIndex([1, 2], 1, 0) == 0 && RealIndex([1, 2], 2, 0) == 0;
    assert ChosenPlace(s, TWO, 1, 0) == 0 && [1, 2][0 := -1] == [-1, 2];
    var s1 := InfoReturn(s, TWO, 1, 0);
    assert s1.table.seats == [Someone(1, [-1, 2]), s.table.seats[1]];
    assert s1 == FIRST_OF_TWO_ANSWERED;
  }

  /** The second player has lost his hand, but is still taken for a player. */
  const SECOND := Someone(2, [3, 4]).(hand := None)

  lemma {:induction false} TurnWithoutSecond()
    ensures var s := Two([[0]], [1, -1], Someone(1, [-1, 2]), SECOND, Waiting, 1, 1);
            Resolve(s, TWO, true) == Two([[0, 1]], [-1, -1], Someone(1, [-1, 2]), SECOND, Inactive, 0, 1)
  {
    var s := Two([[0]], [1, -1], Someone(1, [-1, 2]), SECOND, Waiting, 1, 1);
    assert ClearVacant(s.table).ready == [1, -1];
    assert SmallestSlot([1, -1], 1) == 0 && NextSlot(s.table) == 0;
    assert NearestRow([[0]], 1, 1) == 0;
    var t := PlayCard(s.table, 5, s.deck, 0, 0);
    assert [0] + [1] == [0, 1] && [1, -1][0 := -1] == [-1, -1];
    assert t == Table([[0, 1]], [-1, -1], s.table.seats, [[], []]);
    assert NextSlot(t) == -1;
    assert Settle(t, 5, s.deck) == t && Settle(s.table, 5, s.deck) == t;
    assert HandEmpty(t.seats[1], 2);
  }

  lemma {:induction false} SecondIsLost()
    ensures Left(FIRST_OF_TWO_ANSWERED, TWO, 2, true) == SECOND_LOST
  {
    var s := FIRST_OF_TWO_ANSWERED;
    assert FindSeat(s.table.seats, 2, 1) == -1 && FindSeat(s.table.seats, 2, 2) == 1 && SeatOf(s.table.seats, 2) == 1;
    TurnWithoutSecond();
    var s1 := s.(table := s.table.(seats := [Someone(1, [-1, 2]), SECOND]));
    assert s.table.seats[1 := SECOND] == s1.table.seats;
    assert s1.table.ready[1 := -1] == [1, -1];
    assert Withdraw(s1, TWO, 1, true) == Two([[0, 1]], [-1, -1], Someone(1, [-1, 2]), SECOND, Inactive, 0, 1);
    assert BecomeObserver(s, TWO, 2, true).table.seats == [Someone(1, [-1, 2]), SECOND.(role := ObserverRole)];
    assert SECOND_LOST.table.seats[0].connected;
    assert Unplugged(s, TWO, 2).table.seats == SECOND_LOST.table.seats;
    LeftIs(s, TWO, 2);
  }

  /** Two players; the first one answers, the second one loses his connection. The phase is over,
      although the first player still holds a card. */
  lemma {:induction false} PhaseCutShort()
    ensures DealFits(TWO_SEATED, TWO, 1, FIVE_CARDS, [1, 1, 1, 1, 1])
    ensures var d := Deal(TWO_SEATED, TWO, 1, FIVE_CARDS, [1, 1, 1, 1, 1]);
            var es := [Answers(1, 0), LosesConnection(2)];
            AllAllowed(d, TWO, es) && After(d, TWO, es) == SECOND_LOST
    ensures SECOND_LOST.phase == Inactive && SECOND_LOST.table.seats[0].hand == Some([-1, 2])
  {
    TwoFit();
    TwoDealt();
    FirstOfTwoAnswers();
    SecondIsLost();
    assert FindSeat(TWO_DEALT.table.seats, 1, 1) == 0;
    AfterTwo(TWO_DEALT, TWO, Answers(1, 0), LosesConnection(2));
  }
}
