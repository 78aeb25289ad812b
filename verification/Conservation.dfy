/** Cards are neither lost nor doubled: whatever weight is given to the cards, playing only moves
    it between hands, slots, rows and the piles of cards taken. */
module Conservation {
  import opened Options
  import opened Sums
  import opened Turn
  import opened Game
  import opened SessionSpec
  import opened SeatInvariant
  import opened DealSpec

  /** The weight of every card a seat or the board holds, and of the cards taken. */
  function OnTable(t: Table, w: int -> nat): nat {
    SumAll(t.rows, w) + Sum(t.ready, w) + SumAll(Hands(t.seats), w) + SumAll(t.won, w)
  }

  lemma {:induction false} SumSingle(x: int, w: int -> nat)
    ensures Sum([x], w) == Weigh(x, w)
  {
    assert [x][..0] == [];
  }

  lemma {:induction false} AppendConserves(t: Table, r: nat, i: nat, w: int -> nat)
    requires Shaped(t) && r < |t.rows| && i < |t.ready|
    ensures OnTable(AppendCard(t, r, i), w) == OnTable(t, w)
  {
    var row := t.rows[r] + [t.ready[i]];
    SumAllUpdate(t.rows, r, row, w);
    SumAppend(t.rows[r], [t.ready[i]], w);
    SumSingle(t.ready[i], w);
    SumUpdate(t.ready, i, -1, w);
  }

  lemma {:induction false} TakeConserves(t: Table, deck: seq<nat>, r: nat, i: nat, w: int -> nat)
    requires Shaped(t) && r < |t.rows| && i < |t.ready|
    ensures OnTable(TakeRow(t, deck, r, i), w) == OnTable(t, w)
  {
    SumAllUpdate(t.rows, r, [t.ready[i]], w);
    SumSingle(t.ready[i], w);
    SumUpdate(t.ready, i, -1, w);
    SumAllUpdate(t.won, i, t.won[i] + t.rows[r], w);
    SumAppend(t.won[i], t.rows[r], w);
    HandsSame(t.seats, TakeRow(t, deck, r, i).seats);
  }

  lemma {:induction false} SettleConserves(t: Table, len: nat, deck: seq<nat>, w: int -> nat)
    requires Shaped(t)
    ensures OnTable(Settle(t, len, deck), w) == OnTable(t, w)
    decreases Pending(t)
  {
    var i := NextSlot(t);
    if i != -1 && NextRow(t) != -1 {
      var r := NextRow(t);
      PlayCardPending(t, len, deck, r, i);
      AppendConserves(t, r, i, w);
      TakeConserves(t, deck, r, i, w);
      SettleConserves(PlayCard(t, len, deck, r, i), len, deck, w);
    }
  }

  /** A ready card belongs to a player. */
  ghost predicate Owned(t: Table)
    requires Shaped(t)
  {
    forall i | 0 <= i < |t.ready| && t.ready[i] != -1 :: t.seats[i].role == PlayerRole
  }

  lemma {:induction false} ClearVacantNothing(t: Table)
    requires Shaped(t) && Owned(t)
    ensures ClearVacant(t) == t
  {
    assert ClearVacant(t).ready == t.ready;
  }

  /** Resolving a turn, with the slots of vacant seats already empty. */
  lemma {:induction false} ResolveTable(s: State, rules: Rules, delivered: bool)
    requires Shaped(s.table) && Owned(s.table)
    ensures Resolve(s, rules, delivered).table
            == if EveryoneReady(s) then Settle(s.table, rules.lineLen, s.deck) else s.table
  {
    ClearVacantNothing(s.table);
  }

  lemma {:induction false} ResolveConserves(s: State, rules: Rules, delivered: bool, w: int -> nat)
    requires Shaped(s.table) && Owned(s.table)
    ensures OnTable(Resolve(s, rules, delivered).table, w) == OnTable(s.table, w)
  {
    ResolveTable(s, rules, delivered);
    SettleConserves(s.table, rules.lineLen, s.deck, w);
  }

  lemma {:induction false} InfoReturnConserves(s: State, rules: Rules, client: nat, visible: int, w: int -> nat)
    requires SeatsOk(s, rules) && Owned(s.table)
    requires s.phase == Waiting ==> SeatedPlayer(s, rules, client)
    ensures OnTable(InfoReturn(s, rules, client, visible).table, w) == OnTable(s.table, w)
    ensures Owned(InfoReturn(s, rules, client, visible).table)
  {
    if Accepts(s, rules, client, visible) {
      var i := SeatOf(s.table.seats, client);
      var hand := s.table.seats[i].hand.value;
      var place := ChosenPlace(s, rules, client, visible);
      SumUpdate(hand, place, -1, w);
      HandsUpdate(s.table.seats, i, s.table.seats[i].(hand := Some(hand[place := -1])), w);
      SumUpdate(s.table.ready, i, hand[place], w);
    }
  }

  lemma {:induction false} SubmitConserves(s: State, rules: Rules, client: nat, visible: int, delivered: bool,
                                           w: int -> nat)
    requires SeatsOk(s, rules) && Owned(s.table)
    requires s.phase == Waiting ==> SeatedPlayer(s, rules, client)
    ensures OnTable(Submit(s, rules, client, visible, delivered).table, w) == OnTable(s.table, w)
  {
    InfoReturnConserves(s, rules, client, visible, w);
    ResolveConserves(InfoReturn(s, rules, client, visible), rules, delivered, w);
  }

  lemma {:induction false} ExtraConserves(s: State, rules: Rules, client: nat, row: nat, delivered: bool, w: int -> nat)
    requires SeatsOk(s, rules)
    requires AcceptsRow(s, client) ==> SeatOf(s.table.seats, client) != -1 && row < |s.table.rows|
    ensures OnTable(Extra(s, rules, client, row, delivered).table, w) == OnTable(s.table, w)
  {
    if AcceptsRow(s, client) {
      var i := SeatOf(s.table.seats, client);
      TakeConserves(s.table, s.deck, row, i, w);
      PlaceAllConserves(s.(table := TakeRow(s.table, s.deck, row, i)), rules, delivered, w);
    }
  }

  lemma {:induction false} PlaceAllConserves(s: State, rules: Rules, delivered: bool, w: int -> nat)
    requires Shaped(s.table)
    ensures var (s1, result) := PlaceAll(s, rules);
            OnTable(HandleResult(s1, result, delivered).table, w) == OnTable(s.table, w)
  {
    SettleConserves(s.table, rules.lineLen, s.deck, w);
  }

  /** Someone who arrives while a game is running brings no cards. */
  lemma {:induction false} JoinConserves(s: State, rules: Rules, client: nat, memory: seq<int>, w: int -> nat)
    requires SeatsOk(s, rules) && s.phase != Inactive
    ensures OnTable(Join(s, rules, client, memory).table, w) == OnTable(s.table, w)
  {
    var i := FreeSeat(s.table.seats, |s.table.seats|);
    if Join(s, rules, client, memory) != s {
      assert SeatOk(s.table.seats[i], rules);
      HandsUpdate(s.table.seats, i, Join(s, rules, client, memory).table.seats[i], w);
    }
  }

  /** What a client takes with him when he leaves: his ready card and his hand. */
  function Dropped(s: State, client: nat): seq<int>
    requires Shaped(s.table)
  {
    var i := SeatOf(s.table.seats, client);
    if i == -1 then [] else [s.table.ready[i]] + HandOf(s.table.seats[i])
  }

  lemma {:induction false} WithdrawConserves(s: State, rules: Rules, i: nat, delivered: bool, w: int -> nat)
    requires Shaped(s.table) && Owned(s.table) && i < |s.table.seats|
    requires s.phase == Inactive ==> s.table.ready[i] == -1
    ensures OnTable(Withdraw(s, rules, i, delivered).table, w) + Weigh(s.table.ready[i], w) == OnTable(s.table, w)
  {
    if s.phase != Inactive {
      var s1 := s.(active := s.active - 1, table := s.table.(ready := s.table.ready[i := -1]));
      SumUpdate(s.table.ready, i, -1, w);
      WithdrawResolves(s, rules, i, delivered);
      ResolveConserves(s1, rules, delivered, w);
    }
  }

  lemma {:induction false} WithdrawResolves(s: State, rules: Rules, i: nat, delivered: bool)
    requires Shaped(s.table) && i < |s.table.seats| && s.phase != Inactive
    ensures Withdraw(s, rules, i, delivered)
            == Resolve(s.(active := s.active - 1, table := s.table.(ready := s.table.ready[i := -1])), rules, delivered)
  {
  }

  lemma {:induction false} RemoveConserves(s: State, rules: Rules, client: nat, delivered: bool, w: int -> nat)
    requires SeatsOk(s, rules) && Owned(s.table)
    requires s.phase == Inactive ==> forall i | 0 <= i < |s.table.ready| :: s.table.ready[i] == -1
    ensures OnTable(Remove(s, rules, client, delivered).table, w) + Sum(Dropped(s, client), w) == OnTable(s.table, w)
  {
    var i := SeatOf(s.table.seats, client);
    if i != -1 {
      var s1 := if s.table.seats[i].role == PlayerRole then Withdraw(s, rules, i, delivered) else s;
      WithdrawConserves(s, rules, i, delivered, w);
      WithdrawKeepsSeats(s, rules, i, delivered);
      HandsUpdate(s1.table.seats, i, Player(0, NoRole, None, s1.table.seats[i].heads, false), w);
      SumAppend([s.table.ready[i]], HandOf(s.table.seats[i]), w);
      SumSingle(s.table.ready[i], w);
    }
  }

  /** Whoever stops playing takes the same along as if he had left. */
  lemma {:induction false} BecomeObserverConserves(s: State, rules: Rules, client: nat, delivered: bool, w: int -> nat)
    requires SeatsOk(s, rules) && Owned(s.table)
    requires s.phase == Inactive ==> forall i | 0 <= i < |s.table.ready| :: s.table.ready[i] == -1
    requires SeatOf(s.table.seats, client) != -1 && s.table.seats[SeatOf(s.table.seats, client)].role == PlayerRole
    ensures OnTable(BecomeObserver(s, rules, client, delivered).table, w) + Sum(Dropped(s, client), w)
            == OnTable(s.table, w)
  {
    var i := SeatOf(s.table.seats, client);
    var p := s.table.seats[i].(hand := None);
    var s1 := s.(table := s.table.(seats := s.table.seats[i := p]));
    HandsUpdate(s.table.seats, i, p, w);
    WithdrawConserves(s1, rules, i, delivered, w);
    HandsSame(Withdraw(s1, rules, i, delivered).table.seats, BecomeObserver(s, rules, client, delivered).table.seats);
    SumAppend([s.table.ready[i]], HandOf(s.table.seats[i]), w);
    SumSingle(s.table.ready[i], w);
  }
}
