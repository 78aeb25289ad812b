/** The turn as a session plays it: what answers and choices lead to, said by the fold over the set of
    ready cards. */
module Resolution {
  import opened Turn
  import opened TurnFold
  import opened Game
  import opened SessionSpec
  import opened SeatInvariant
  import opened Conservation
  import opened Runs

  /** What a turn needs: different cards, in the slots of players who have ids. */
  ghost predicate Sound(s: State) {
    Shaped(s.table) && Owned(s.table) && PlayersHaveIds(s.table.seats) && ValidScores(s.table.seats)
    && Playable(s.table)
  }

  lemma {:induction false} InvSound(s: State, rules: Rules, undealt: seq<int>, gone: seq<int>)
    requires Inv(s, rules, undealt, gone)
    ensures Sound(s)
  {
    ConservedPlayable(s.table, rules.lineLen, |s.deck|, undealt, gone);
    InvSettled(s, rules, undealt, gone);
  }

  /** All ready cards are placed as the outcome says, its seats are credited, and the next turn can
      begin unless somebody has no card left. */
  ghost predicate TurnPlayed(s: State, s': State, rules: Rules, o: Outcome)
    requires Shaped(s.table)
  {
    && Shaped(s'.table) && |s'.table.ready| == |s.table.ready|
    && o.taken.Keys == Cards(s.table.ready)
    && s'.table.rows == o.rows && (forall i | 0 <= i < |s'.table.ready| :: s'.table.ready[i] == -1)
    && Credited(s.table, s'.table, s.deck, o.taken)
    && s' == s.(table := s'.table, readyCount := 0,
                phase := if SomeoneFinished(s.table.seats, rules.handSize) then Inactive else Waiting)
  }

  /** Only the owner of the smallest card is asked, and remembered if the request went out. */
  ghost predicate ChoiceAsked(s: State, s': State, delivered: bool)
    requires Shaped(s.table)
  {
    exists i :: 0 <= i < |s.table.ready|
      && Cards(s.table.ready) != {} && s.table.ready[i] == Least(Cards(s.table.ready))
      && s' == s.(phase := WaitingExtra, waitFrom := if delivered then s.table.seats[i].id else s.waitFrom)
  }

  ghost predicate NeedsChoice(t: Table)
    requires Shaped(t)
  {
    Cards(t.ready) != {} && Blocked(t.rows, Least(Cards(t.ready)))
  }

  ghost predicate ResolveOutcome(s: State, s': State, rules: Rules, delivered: bool)
    requires Shaped(s.table)
  {
    if !(s.phase == Waiting || s.phase == WaitingExtra) || s.readyCount < s.active || s.readyCount <= 0 then s' == s
    else if NeedsChoice(s.table) then ChoiceAsked(s, s', delivered)
    else TurnPlayed(s, s', rules, Fold(s.table.rows, rules.lineLen, Cards(s.table.ready)))
  }

  lemma {:induction false} NeedsChoiceIff(t: Table)
    requires Playable(t)
    ensures NeedsChoice(t) <==> Suspended(t)
  {
    SlotOfLeast(t);
    if NextSlot(t) != -1 { RowOfHome(t); }
  }

  lemma {:induction false} FinishedSame(a: seq<Player>, b: seq<Player>, size: nat)
    requires SameSeats(a, b)
    ensures SomeoneFinished(a, size) <==> SomeoneFinished(b, size)
  {
  }

  /** A resolution that has emptied the slots, as the session sees it. */
  lemma {:induction false} PlacedTurn(s: State, t: Table, rules: Rules, o: Outcome, delivered: bool)
    requires Shaped(s.table) && Shaped(t) && |t.ready| == |s.table.ready| && SameSeats(s.table.seats, t.seats)
    requires o.taken.Keys == Cards(s.table.ready)
    requires var t' := Settle(t, rules.lineLen, s.deck);
             t'.rows == o.rows && NextSlot(t') == -1 && Credited(s.table, t', s.deck, o.taken)
    ensures var (s1, result) := PlaceAll(s.(table := t), rules);
            TurnPlayed(s, HandleResult(s1, result, delivered), rules, o)
  {
    SettleKeepsSeats(t, rules.lineLen, s.deck);
    FinishedSame(s.table.seats, Settle(t, rules.lineLen, s.deck).seats, rules.handSize);
  }

  /** place_card after the last answer: it asks for a row, or plays the turn. */
  lemma {:induction false} PlaceAllMeans(s: State, rules: Rules, delivered: bool)
    requires Sound(s)
    ensures var (s1, result) := PlaceAll(s, rules);
            var s' := HandleResult(s1, result, delivered);
            if NeedsChoice(s.table) then ChoiceAsked(s, s', delivered)
            else TurnPlayed(s, s', rules, Fold(s.table.rows, rules.lineLen, Cards(s.table.ready)))
  {
    var t := s.table;
    NeedsChoiceIff(t);
    SuspendedIff(t, rules.lineLen, s.deck);
    SlotOfLeast(t);
    if Suspended(t) {
      assert t.seats[NextSlot(t)].id != 0;
    } else {
      SettleIsFold(t, rules.lineLen, s.deck);
      FoldPlacesAll(t.rows, rules.lineLen, Cards(t.ready));
      assert s.(table := t) == s;
      PlacedTurn(s, t, rules, Fold(t.rows, rules.lineLen, Cards(t.ready)), delivered);
    }
  }

  /** What start_move and its result lead to, from any sound state. */
  lemma {:induction false} ResolveMeans(s: State, rules: Rules, delivered: bool)
    requires Sound(s)
    ensures ResolveOutcome(s, Resolve(s, rules, delivered), rules, delivered)
  {
    ClearVacantNothing(s.table);
    if EveryoneReady(s) {
      PlaceAllMeans(s, rules, delivered);
      var playing := s.(phase := Playing);
      assert PlaceAll(playing, rules) == PlaceAll(s, rules);
    }
  }

  /** An answer during a phase: the card named is ready, and if it was the last one awaited, the turn
      is played or its owner of the smallest card is asked. */
  lemma {:induction false} AnswerResolves(s: State, rules: Rules, undealt: seq<int>, gone: seq<int>, client: nat,
                                          visible: int, delivered: bool)
    requires Inv(s, rules, undealt, gone) && Allowed(s, rules, Answers(client, visible))
    ensures var s1 := InfoReturn(s, rules, client, visible);
            Sound(s1) && ResolveOutcome(s1, Submit(s, rules, client, visible, delivered), rules, delivered)
  {
    var s1 := InfoReturn(s, rules, client, visible);
    forall w: int -> nat ensures OnTable(s1.table, w) == OnTable(s.table, w) {
      InfoReturnConserves(s, rules, client, visible, w);
    }
    KeepsConserved(s.table, s1.table, |s.deck|, undealt, gone);
    ConservedPlayable(s1.table, rules.lineLen, |s.deck|, undealt, gone);
    InfoReturnConserves(s, rules, client, visible, Sums.One);
    InfoReturnSeats(s, rules, client, visible);
    ResolveMeans(s1, rules, delivered);
  }

  lemma {:induction false} ChosenTurn(s: State, rules: Rules, row: nat, delivered: bool)
    requires Sound(s) && Suspended(s.table) && row < |s.table.rows|
    ensures var (s1, result) := PlaceAll(s.(table := TakeRow(s.table, s.deck, row, NextSlot(s.table))), rules);
            TurnPlayed(s, HandleResult(s1, result, delivered), rules,
                       WholeTurn(s.table.rows, rules.lineLen, Cards(s.table.ready), row))
  {
    var t, len := s.table, rules.lineLen;
    SuspendedIff(t, len, s.deck);
    ServerTurnIsWholeTurn(t, len, s.deck, row);
    var o := WholeTurn(t.rows, len, Cards(t.ready), row);
    PlacedTurn(s, TakeRow(t, s.deck, row, NextSlot(t)), rules, o, delivered);
  }

  /** A row chosen during a phase: from the awaited player it ends the whole turn with this choice;
      anybody else's changes nothing. */
  lemma {:induction false} ChoiceResolves(s: State, rules: Rules, undealt: seq<int>, gone: seq<int>, client: nat,
                                          row: nat, delivered: bool)
    requires Inv(s, rules, undealt, gone) && row < |s.table.rows|
    requires Allowed(s, rules, Chooses(client, row))
    ensures var s' := Extra(s, rules, client, row, delivered);
            if s.phase == WaitingExtra && client == s.waitFrom then
              TurnPlayed(s, s', rules, WholeTurn(s.table.rows, rules.lineLen, Cards(s.table.ready), row))
            else s' == s
  {
    if AcceptsRow(s, client) {
      InvSound(s, rules, undealt, gone);
      AwaitedSlot(s, rules);
      ChosenTurn(s, rules, row, delivered);
    }
  }

  // ---------------------------------------------------------------- vacant seats

  /** A resolution does nothing to a seat without a ready card. */
  lemma {:induction false} SettleIdle(t: Table, len: nat, deck: seq<nat>, j: nat)
    requires Shaped(t) && j < |t.ready| && t.ready[j] == -1
    ensures SameSlot(t, Settle(t, len, deck), j)
    decreases Pending(t)
  {
    var i := NextSlot(t);
    if i != -1 && NextRow(t) != -1 {
      PlayCardPending(t, len, deck, NextRow(t), i);
      SettleIdle(PlayCard(t, len, deck, NextRow(t), i), len, deck, j);
    }
  }

  /** Whatever is left in its slot, a seat that is vacant when a turn is resolved plays no card and
      collects none, in any state. */
  lemma {:induction false} VacantNeverPlays(s: State, rules: Rules, delivered: bool, j: nat)
    requires Shaped(s.table) && j < |s.table.seats| && EveryoneReady(s)
    requires s.table.seats[j].id == 0 && s.table.seats[j].role != PlayerRole
    ensures var t := Resolve(s, rules, delivered).table;
            t.ready[j] == -1 && t.won[j] == s.table.won[j] && t.seats[j] == s.table.seats[j]
  {
    var cleared := ClearVacant(s.table);
    assert cleared.ready[j] == -1;
    SettleIdle(cleared, rules.lineLen, s.deck, j);
  }
}
