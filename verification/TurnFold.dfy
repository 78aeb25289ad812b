/** What a turn means, without slots: the ready cards are taken in increasing order, each goes to
    the row whose tail is the greatest smaller one, and a full row is collected by the card that
    reaches it. Only the first card may find no row; its owner then collects a row of his choice. */
module TurnFold {
  import opened Sums
  import opened Turn

  /** The rows left on the board, and for each card played the cards it collected. */
  datatype Outcome = Outcome(rows: seq<seq<int>>, taken: map<int, seq<int>>)

  ghost predicate IsLeast(c: int, cards: set<int>) {
    c in cards && forall x | x in cards :: c <= x
  }

  lemma {:induction false} LeastExists(cards: set<int>)
    requires cards != {}
    ensures exists c: int :: IsLeast(c, cards)
    decreases |cards|
  {
    assert (forall x :: x !in cards) ==> cards == {};
    var x :| x in cards;
    var others := cards - {x};
    if others == {} {
      assert cards == {x};
      assert IsLeast(x, cards);
    } else {
      LeastExists(others);
      var c :| IsLeast(c, others);
      assert forall y | y in cards :: y == x || y in others;
      assert IsLeast(if c < x then c else x, cards);
    }
  }

  ghost function Least(cards: set<int>): (c: int)
    requires cards != {}
    ensures IsLeast(c, cards)
  {
    LeastExists(cards);
    var c :| IsLeast(c, cards); c
  }

  /** Row r is where the card belongs: its tail is the greatest one below the card. */
  ghost predicate Home(rows: seq<seq<int>>, card: int, r: int)
    requires NonEmptyRows(rows)
  {
    && 0 <= r < |rows|
    && Tail(rows[r]) < card
    && forall q | 0 <= q < |rows| && Tail(rows[q]) < card :: Tail(rows[q]) <= Tail(rows[r])
  }

  ghost predicate Blocked(rows: seq<seq<int>>, card: int)
    requires NonEmptyRows(rows)
  {
    !exists r :: Home(rows, card, r)
  }

  ghost function HomeOf(rows: seq<seq<int>>, card: int): (r: nat)
    requires NonEmptyRows(rows) && !Blocked(rows, card)
    ensures Home(rows, card, r)
  {
    var r :| Home(rows, card, r); r
  }

  ghost function Grow(rows: seq<seq<int>>, r: nat, card: int, len: nat): seq<seq<int>>
    requires r < |rows|
  {
    rows[r := if |rows[r]| >= len then [card] else rows[r] + [card]]
  }

  ghost function Collected(rows: seq<seq<int>>, r: nat, len: nat): seq<int>
    requires r < |rows|
  {
    if |rows[r]| >= len then rows[r] else []
  }

  /** The cards placed one after the other, the smallest first. */
  ghost function Fold(rows: seq<seq<int>>, len: nat, cards: set<int>): (o: Outcome)
    requires NonEmptyRows(rows)
    ensures o.taken.Keys <= cards
    decreases |cards|
  {
    if cards == {} || Blocked(rows, Least(cards)) then Outcome(rows, map[])
    else
      var c := Least(cards);
      var r := HomeOf(rows, c);
      var rest := Fold(Grow(rows, r, c, len), len, cards - {c});
      Outcome(rest.rows, rest.taken[c := Collected(rows, r, len)])
  }

  /** A whole turn: when the smallest card fits nowhere its owner collects the chosen row first. */
  ghost function WholeTurn(rows: seq<seq<int>>, len: nat, cards: set<int>, choice: nat): Outcome
    requires NonEmptyRows(rows) && choice < |rows|
  {
    if cards != {} && Blocked(rows, Least(cards)) then
      var c := Least(cards);
      var rest := Fold(rows[choice := [c]], len, cards - {c});
      Outcome(rest.rows, rest.taken[c := rows[choice]])
    else Fold(rows, len, cards)
  }

  /** Once some tail is below every remaining card, no card is blocked and all are placed. */
  lemma {:induction false} FoldPlacesAll(rows: seq<seq<int>>, len: nat, cards: set<int>)
    requires NonEmptyRows(rows)
    requires cards == {} || !Blocked(rows, Least(cards))
    ensures Fold(rows, len, cards).taken.Keys == cards
    decreases |cards|
  {
    if cards != {} {
      var c := Least(cards);
      var r := HomeOf(rows, c);
      var grown, rest := Grow(rows, r, c, len), cards - {c};
      if rest != {} { TailBelowUnblocks(grown, r, Least(rest)); }
      FoldPlacesAll(grown, len, rest);
      assert Fold(rows, len, cards).taken.Keys == rest + {c};
    }
  }

  lemma {:induction false} TailBelowUnblocks(rows: seq<seq<int>>, r: nat, card: int)
    requires NonEmptyRows(rows) && r < |rows| && Tail(rows[r]) < card
    ensures !Blocked(rows, card)
  {
    var q := NearestRow(rows, card, |rows|);
    assert Home(rows, card, q);
  }

  // ---------------------------------------------------------------- slots and cards

  ghost function Cards(ready: seq<int>): set<int> {
    set i | 0 <= i < |ready| && ready[i] != -1 :: ready[i]
  }

  ghost predicate Distinct(ready: seq<int>) {
    forall i, j | 0 <= i < |ready| && 0 <= j < |ready| && ready[i] != -1 && ready[i] == ready[j] :: i == j
  }

  /** No tail occurs twice or is about to be played. */
  ghost predicate Separate(rows: seq<seq<int>>, cards: set<int>)
    requires NonEmptyRows(rows)
  {
    && (forall q, r | 0 <= q < |rows| && 0 <= r < |rows| && Tail(rows[q]) == Tail(rows[r]) :: q == r)
    && (forall r | 0 <= r < |rows| :: Tail(rows[r]) !in cards)
  }

  ghost predicate Playable(t: Table) {
    Shaped(t) && Distinct(t.ready) && Separate(t.rows, Cards(t.ready))
  }

  /** From t to t', slot i is emptied and its seat credited with the cards gained. */
  ghost predicate Gains(t: Table, t': Table, deck: seq<nat>, i: nat, gain: seq<int>)
    requires Shaped(t) && Shaped(t') && i < |t.ready| == |t'.ready|
  {
    && t'.ready[i] == -1
    && t'.won[i] == t.won[i] + gain
    && t'.seats[i] == t.seats[i].(heads := (t.seats[i].heads + Sum(gain, HeadsOn(deck))) % 256)
  }

  ghost predicate SameSlot(t: Table, t': Table, i: nat)
    requires Shaped(t) && Shaped(t') && i < |t.ready| == |t'.ready|
  {
    t'.ready[i] == t.ready[i] && t'.won[i] == t.won[i] && t'.seats[i] == t.seats[i]
  }

  /** Each slot whose card is in the domain of taken gains exactly the cards that card collected;
      the other slots do not change. */
  ghost predicate Credited(t: Table, t': Table, deck: seq<nat>, taken: map<int, seq<int>>)
    requires Shaped(t) && Shaped(t') && |t'.ready| == |t.ready|
  {
    forall i | 0 <= i < |t.ready| ::
      if t.ready[i] != -1 && t.ready[i] in taken then Gains(t, t', deck, i, taken[t.ready[i]])
      else SameSlot(t, t', i)
  }

  /** One slot gains, then the others: together they are credited. */
  lemma {:induction false} CreditFirst(t: Table, t1: Table, t': Table, deck: seq<nat>,
                                       i: nat, gain: seq<int>, rest: map<int, seq<int>>)
    requires Shaped(t) && Shaped(t1) && Shaped(t') && i < |t.ready| == |t1.ready| == |t'.ready|
    requires Distinct(t.ready) && t.ready[i] != -1 && t.ready[i] !in rest
    requires Gains(t, t1, deck, i, gain)
    requires forall j | 0 <= j < |t.ready| && j != i :: SameSlot(t, t1, j)
    requires Credited(t1, t', deck, rest)
    ensures Credited(t, t', deck, rest[t.ready[i] := gain])
  {
    var taken := rest[t.ready[i] := gain];
    forall j | 0 <= j < |t.ready|
      ensures if t.ready[j] != -1 && t.ready[j] in taken then Gains(t, t', deck, j, taken[t.ready[j]])
              else SameSlot(t, t', j)
    {
      if j == i {
        assert SameSlot(t1, t', i);
      } else {
        assert SameSlot(t, t1, j);
        assert t.ready[j] != -1 ==> t.ready[j] != t.ready[i];
      }
    }
  }

  ghost predicate ValidScores(seats: seq<Player>) {
    forall i | 0 <= i < |seats| :: seats[i].heads < 256
  }

  lemma {:induction false} SlotOfLeast(t: Table)
    requires Playable(t)
    ensures NextSlot(t) == -1 <==> Cards(t.ready) == {}
    ensures NextSlot(t) != -1 ==> t.ready[NextSlot(t)] == Least(Cards(t.ready))
    ensures NextSlot(t) != -1 ==> Cards(t.ready[NextSlot(t) := -1]) == Cards(t.ready) - {Least(Cards(t.ready))}
  {
    var i := NextSlot(t);
    if i == -1 {
      assert Cards(t.ready) == {};
    } else {
      assert t.ready[i] in Cards(t.ready);
      var c := Least(Cards(t.ready));
      assert exists j :: 0 <= j < |t.ready| && t.ready[j] != -1 && t.ready[j] == c;
      assert Cards(t.ready[i := -1]) == Cards(t.ready) - {c} by {
        forall x | x in Cards(t.ready) && x != c ensures x in Cards(t.ready[i := -1]) {
          var j :| 0 <= j < |t.ready| && t.ready[j] != -1 && t.ready[j] == x;
          assert t.ready[i := -1][j] == x;
        }
        forall x | x in Cards(t.ready[i := -1]) ensures x in Cards(t.ready) && x != c {
          var j :| 0 <= j < |t.ready| && t.ready[i := -1][j] != -1 && t.ready[i := -1][j] == x;
          assert t.ready[j] == x;
        }
      }
    }
  }

  lemma {:induction false} RowOfHome(t: Table)
    requires Playable(t) && NextSlot(t) != -1
    ensures Cards(t.ready) != {}
    ensures NextRow(t) == -1 <==> Blocked(t.rows, Least(Cards(t.ready)))
    ensures NextRow(t) != -1 ==> NextRow(t) == HomeOf(t.rows, Least(Cards(t.ready)))
  {
    SlotOfLeast(t);
    var c := Least(Cards(t.ready));
    var r := NearestRow(t.rows, c, |t.rows|);
    if r != -1 {
      assert Home(t.rows, c, r);
      var h := HomeOf(t.rows, c);
      assert Tail(t.rows[h]) == Tail(t.rows[r]);
    }
  }

  lemma {:induction false} StaysPlayable(t: Table, t': Table, r: nat, i: nat)
    requires Playable(t) && r < |t.rows| && i < |t.ready| && t.ready[i] != -1
    requires Shaped(t') && t'.ready == t.ready[i := -1]
    requires |t'.rows| == |t.rows| && Tail(t'.rows[r]) == t.ready[i]
    requires forall q | 0 <= q < |t.rows| && q != r :: t'.rows[q] == t.rows[q]
    ensures Playable(t')
  {
    assert t.ready[i] in Cards(t.ready);
    forall x | x in Cards(t'.ready) ensures x in Cards(t.ready) && x != t.ready[i] {
      var j :| 0 <= j < |t'.ready| && t'.ready[j] != -1 && t'.ready[j] == x;
      assert t.ready[j] == x;
    }
  }

  /** Playing the smallest card on its row: the rows grow, its slot gains what it collected. */
  lemma {:induction false} PlayCardGains(t: Table, len: nat, deck: seq<nat>, r: nat, i: nat)
    requires Shaped(t) && ValidScores(t.seats) && r < |t.rows| && i < |t.ready|
    ensures var t1 := PlayCard(t, len, deck, r, i);
            && Shaped(t1) && ValidScores(t1.seats)
            && t1.rows == Grow(t.rows, r, t.ready[i], len)
            && Gains(t, t1, deck, i, Collected(t.rows, r, len))
            && forall j | 0 <= j < |t.ready| && j != i :: SameSlot(t, t1, j)
  {
    assert t.won[i] + [] == t.won[i];
  }

  /** The slot-by-slot resolution computes the fold over the set of ready cards. */
  lemma {:induction false} SettleIsFold(t: Table, len: nat, deck: seq<nat>)
    requires Playable(t) && ValidScores(t.seats)
    ensures Settle(t, len, deck).rows == Fold(t.rows, len, Cards(t.ready)).rows
    ensures Credited(t, Settle(t, len, deck), deck, Fold(t.rows, len, Cards(t.ready)).taken)
    decreases Pending(t)
  {
    SlotOfLeast(t);
    var i := NextSlot(t);
    if i == -1 {
    } else {
      RowOfHome(t);
      var r := NextRow(t);
      if r == -1 {
      } else {
        var t1 := PlayCard(t, len, deck, r, i);
        PlayCardPending(t, len, deck, r, i);
        PlayCardGains(t, len, deck, r, i);
        StaysPlayable(t, t1, r, i);
        SettleIsFold(t1, len, deck);
        SettleStep(t, t1, Settle(t1, len, deck), len, deck);
      }
    }
  }

  /** The first card of the fold followed by the rest of it. */
  lemma {:induction false} SettleStep(t: Table, t1: Table, t': Table, len: nat, deck: seq<nat>)
    requires Playable(t) && NextSlot(t) != -1 && NextRow(t) != -1
    requires Shaped(t1) && Shaped(t') && |t.ready| == |t1.ready| == |t'.ready|
    requires t1.ready == t.ready[NextSlot(t) := -1]
    requires t1.rows == Grow(t.rows, NextRow(t), t.ready[NextSlot(t)], len)
    requires Gains(t, t1, deck, NextSlot(t), Collected(t.rows, NextRow(t), len))
    requires forall j | 0 <= j < |t.ready| && j != NextSlot(t) :: SameSlot(t, t1, j)
    requires t'.rows == Fold(t1.rows, len, Cards(t1.ready)).rows
    requires Credited(t1, t', deck, Fold(t1.rows, len, Cards(t1.ready)).taken)
    ensures t'.rows == Fold(t.rows, len, Cards(t.ready)).rows
    ensures Credited(t, t', deck, Fold(t.rows, len, Cards(t.ready)).taken)
  {
    SlotOfLeast(t);
    RowOfHome(t);
    var gain := Collected(t.rows, NextRow(t), len);
    CreditFirst(t, t1, t', deck, NextSlot(t), gain, Fold(t1.rows, len, Cards(t1.ready)).taken);
  }

  // ---------------------------------------------------------------- the whole turn

  /** What the server does in a turn: resolve, and when a player has to choose, let him take the
      chosen row and resolve again. */
  ghost function ServerTurn(t: Table, len: nat, deck: seq<nat>, choice: nat): (t': Table)
    requires Shaped(t) && choice < |t.rows|
    ensures Shaped(t') && |t'.ready| == |t.ready| && |t'.rows| == |t.rows|
  {
    var t1 := Settle(t, len, deck);
    if Suspended(t1) then Settle(TakeRow(t1, deck, choice, NextSlot(t1)), len, deck) else t1
  }

  /** The resolution can only stop on the smallest card, before anything was placed. */
  lemma {:induction false} SuspendsOnlyFirst(t: Table, len: nat, deck: seq<nat>)
    requires Playable(t) && Suspended(Settle(t, len, deck))
    ensures Settle(t, len, deck) == t
  {
    var i := NextSlot(t);
    if i != -1 && NextRow(t) != -1 {
      var t1 := PlayCard(t, len, deck, NextRow(t), i);
      PlayCardPending(t, len, deck, NextRow(t), i);
      StaysPlayable(t, t1, NextRow(t), i);
      SettleEmpties(t1, len, deck, NextRow(t));
    }
  }

  lemma {:induction false} SuspendedIff(t: Table, len: nat, deck: seq<nat>)
    requires Playable(t)
    ensures Suspended(Settle(t, len, deck)) <==> Suspended(t)
    ensures Suspended(t) ==> Settle(t, len, deck) == t
  {
    if Suspended(Settle(t, len, deck)) { SuspendsOnlyFirst(t, len, deck); }
  }

  /** With a tail below every ready card the resolution empties all the slots. */
  lemma {:induction false} SettleEmpties(t: Table, len: nat, deck: seq<nat>, r: nat)
    requires Playable(t) && r < |t.rows|
    requires forall i | 0 <= i < |t.ready| && t.ready[i] != -1 :: Tail(t.rows[r]) < t.ready[i]
    ensures NextSlot(Settle(t, len, deck)) == -1
    decreases Pending(t)
  {
    var i := NextSlot(t);
    if i != -1 {
      var q := NextRow(t);
      assert Tail(t.rows[r]) < t.ready[i];
      var t1 := PlayCard(t, len, deck, q, i);
      PlayCardPending(t, len, deck, q, i);
      StaysPlayable(t, t1, q, i);
      SettleEmpties(t1, len, deck, q);
    }
  }

  /** A card whose owner took a row leaves nothing to wait for in this turn. */
  lemma {:induction false} NoSecondChoice(t: Table, len: nat, deck: seq<nat>, choice: nat)
    requires Playable(t) && Suspended(t) && choice < |t.rows|
    ensures NextSlot(Settle(TakeRow(t, deck, choice, NextSlot(t)), len, deck)) == -1
  {
    var i := NextSlot(t);
    var t1 := TakeRow(t, deck, choice, i);
    StaysPlayable(t, t1, choice, i);
    SettleEmpties(t1, len, deck, choice);
  }

  /** The turn played by the server is the fold over the set of ready cards: every card is placed,
      the rows are those of the fold, and each seat is credited with what its own card collected. */
  lemma {:induction false} ServerTurnIsWholeTurn(t: Table, len: nat, deck: seq<nat>, choice: nat)
    requires Playable(t) && ValidScores(t.seats) && choice < |t.rows|
    ensures var o := WholeTurn(t.rows, len, Cards(t.ready), choice);
            var t' := ServerTurn(t, len, deck, choice);
            && o.taken.Keys == Cards(t.ready)
            && t'.rows == o.rows
            && NextSlot(t') == -1
            && Credited(t, t', deck, o.taken)
  {
    var t1 := Settle(t, len, deck);
    SlotOfLeast(t);
    if Suspended(t1) {
      SuspendsOnlyFirst(t, len, deck);
      RowOfHome(t);
      ForcedTurn(t, len, deck, choice);
    } else {
      SettleIsFold(t, len, deck);
      if NextSlot(t) != -1 { RowOfHome(t); }
      FoldPlacesAll(t.rows, len, Cards(t.ready));
    }
  }

  lemma {:induction false} ForcedTurn(t: Table, len: nat, deck: seq<nat>, choice: nat)
    requires Playable(t) && ValidScores(t.seats) && choice < |t.rows| && Suspended(t)
    ensures var o := WholeTurn(t.rows, len, Cards(t.ready), choice);
            var t' := Settle(TakeRow(t, deck, choice, NextSlot(t)), len, deck);
            && o.taken.Keys == Cards(t.ready)
            && t'.rows == o.rows
            && NextSlot(t') == -1
            && Credited(t, t', deck, o.taken)
  {
    SlotOfLeast(t);
    RowOfHome(t);
    var i := NextSlot(t);
    var t1 := TakeRow(t, deck, choice, i);
    StaysPlayable(t, t1, choice, i);
    SettleIsFold(t1, len, deck);
    NoSecondChoice(t, len, deck, choice);
    var rest := Cards(t.ready) - {t.ready[i]};
    if rest != {} { TailBelowUnblocks(t1.rows, choice, Least(rest)); }
    FoldPlacesAll(t1.rows, len, rest);
    ForcedStep(t, t1, Settle(t1, len, deck), len, deck, choice);
  }

  lemma {:induction false} ForcedStep(t: Table, t1: Table, t': Table, len: nat, deck: seq<nat>, choice: nat)
    requires Playable(t) && choice < |t.rows| && Suspended(t)
    requires t1 == TakeRow(t, deck, choice, NextSlot(t))
    requires Shaped(t') && |t'.ready| == |t.ready|
    requires Fold(t1.rows, len, Cards(t1.ready)).taken.Keys == Cards(t1.ready)
    requires t'.rows == Fold(t1.rows, len, Cards(t1.ready)).rows
    requires Credited(t1, t', deck, Fold(t1.rows, len, Cards(t1.ready)).taken)
    ensures var o := WholeTurn(t.rows, len, Cards(t.ready), choice);
            && o.taken.Keys == Cards(t.ready)
            && t'.rows == o.rows
            && Credited(t, t', deck, o.taken)
  {
    SlotOfLeast(t);
    RowOfHome(t);
    var i := NextSlot(t);
    var rest := Fold(t1.rows, len, Cards(t1.ready)).taken;
    CreditFirst(t, t1, t', deck, i, t.rows[choice], rest);
    assert rest[t.ready[i] := t.rows[choice]].Keys == rest.Keys + {t.ready[i]};
  }

  /** Neither the slots nor the order of submission matter: with the same rows and the same set of
      ready cards the same rows result, and a card brings its owner the same cards. */
  lemma {:induction false} SlotOrderIrrelevant(t: Table, u: Table, len: nat, deck: seq<nat>, choice: nat)
    requires Playable(t) && ValidScores(t.seats) && Playable(u) && ValidScores(u.seats)
    requires t.rows == u.rows && Cards(t.ready) == Cards(u.ready) && choice < |t.rows|
    ensures ServerTurn(t, len, deck, choice).rows == ServerTurn(u, len, deck, choice).rows
    ensures forall i, j | 0 <= i < |t.ready| && 0 <= j < |u.ready| && t.ready[i] != -1 && t.ready[i] == u.ready[j] ::
              exists gain: seq<int> ::
                && Gains(t, ServerTurn(t, len, deck, choice), deck, i, gain)
                && Gains(u, ServerTurn(u, len, deck, choice), deck, j, gain)
  {
    ServerTurnIsWholeTurn(t, len, deck, choice);
    ServerTurnIsWholeTurn(u, len, deck, choice);
    var taken := WholeTurn(t.rows, len, Cards(t.ready), choice).taken;
    forall i, j | 0 <= i < |t.ready| && 0 <= j < |u.ready| && t.ready[i] != -1 && t.ready[i] == u.ready[j]
      ensures exists gain: seq<int> ::
                && Gains(t, ServerTurn(t, len, deck, choice), deck, i, gain)
                && Gains(u, ServerTurn(u, len, deck, choice), deck, j, gain)
    {
      assert t.ready[i] in Cards(t.ready);
      var gain := taken[t.ready[i]];
      assert Gains(t, ServerTurn(t, len, deck, choice), deck, i, gain);
      assert Gains(u, ServerTurn(u, len, deck, choice), deck, j, gain);
    }
  }
}
