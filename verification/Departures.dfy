/** Two ways in which a departure disturbs a game, and exactly when it does not. */
module Departures {
  import opened Options
  import opened Sums
  import opened Turn
  import opened TurnFold
  import opened Game
  import opened SessionSpec
  import opened SeatInvariant
  import opened Conservation
  import opened Runs

  /** The card of seat i taken out of its slot. */
  function WithoutCard(t: Table, i: nat): (t': Table)
    requires Shaped(t) && i < |t.ready|
    ensures Shaped(t')
  {
    t.(ready := t.ready[i := -1])
  }

  lemma {:induction false} WithoutCardPlayable(t: Table, i: nat)
    requires Playable(t) && i < |t.ready|
    ensures Playable(WithoutCard(t, i))
  {
    var t' := WithoutCard(t, i);
    forall x | x in Cards(t'.ready) ensures x in Cards(t.ready) {
      var j :| 0 <= j < |t'.ready| && t'.ready[j] != -1 && t'.ready[j] == x;
      assert t.ready[j] == x;
    }
  }

  /** The counter of ready cards is not lowered when a player leaves. If it counted the occupied slots
      before, it still does afterwards exactly when the player who left had not answered, or when his
      departure completes a turn that needs no choice. */
  lemma {:induction false} CountAfterDeparture(s: State, rules: Rules, undealt: seq<int>, gone: seq<int>, client: nat)
    requires Inv(s, rules, undealt, gone) && s.readyCount == Pending(s.table) && SeatedPlayer(s, rules, client)
    ensures var i := SeatOf(s.table.seats, client);
            var s' := Remove(s, rules, client, true);
            s'.readyCount == Pending(s'.table) <==>
              || s.table.ready[i] == -1
              || (EveryoneReady(s.(active := s.active - 1)) && !Suspended(WithoutCard(s.table, i)))
  {
    var i := SeatOf(s.table.seats, client);
    SumUpdate(s.table.ready, i, -1, One);
    if s.phase != Inactive {
      ConservedPlayable(s.table, rules.lineLen, |s.deck|, undealt, gone);
      WithoutCardPlayable(s.table, i);
      ResolvedCount(s.(active := s.active - 1, table := WithoutCard(s.table, i)), rules);
      RemovedCount(s, rules, client);
    }
  }

  lemma {:induction false} RemovedCount(s: State, rules: Rules, client: nat)
    requires Shaped(s.table) && s.phase != Inactive && SeatedPlayer(s, rules, client)
    ensures var i := SeatOf(s.table.seats, client);
            var s1 := s.(active := s.active - 1, table := WithoutCard(s.table, i));
            var s2, s' := Resolve(s1, rules, true), Remove(s, rules, client, true);
            s'.phase == s2.phase && s'.readyCount == s2.readyCount && s'.table.ready == s2.table.ready
  {
    WithdrawResolves(s, rules, SeatOf(s.table.seats, client), true);
  }

  lemma {:induction false} ResolvedCount(s: State, rules: Rules)
    requires Playable(s.table) && Owned(s.table) && s.phase != Inactive && s.phase != Playing
    ensures var s' := Resolve(s, rules, true);
            if EveryoneReady(s) && !Suspended(s.table) then s'.readyCount == 0 == Pending(s'.table)
            else s'.readyCount == s.readyCount && s'.table.ready == s.table.ready
  {
    ClearVacantNothing(s.table);
    SuspendedIff(s.table, rules.lineLen, s.deck);
    SumOneZero(Settle(s.table, rules.lineLen, s.deck).ready);
  }

  /** When the connection of a player is lost, his hand is dropped before the turn is resolved and
      his role changes after it. If that resolution empties the slots, the missing hand counts as a
      finished one and the phase ends, whatever the others still hold: exactly when the loss completes
      a turn that needs no choice. */
  lemma {:induction false} LostConnectionEndsPhase(s: State, rules: Rules, undealt: seq<int>, gone: seq<int>,
                                                   client: nat)
    requires Inv(s, rules, undealt, gone) && s.phase != Inactive && SeatedPlayer(s, rules, client)
    ensures var i := SeatOf(s.table.seats, client);
            BecomeObserver(s, rules, client, true).phase == Inactive <==>
              EveryoneReady(s.(active := s.active - 1)) && !Suspended(WithoutCard(s.table, i))
  {
    var i := SeatOf(s.table.seats, client);
    assert SeatOk(s.table.seats[i], rules);
    ConservedPlayable(s.table, rules.lineLen, |s.deck|, undealt, gone);
    LostPlayer(s, rules, client);
  }

  lemma {:induction false} LostPlayer(s: State, rules: Rules, client: nat)
    requires Playable(s.table) && Owned(s.table) && s.phase != Inactive && s.phase != Playing
    requires SeatedPlayer(s, rules, client) && client != 0
    ensures var i := SeatOf(s.table.seats, client);
            BecomeObserver(s, rules, client, true).phase == Inactive <==>
              EveryoneReady(s.(active := s.active - 1)) && !Suspended(WithoutCard(s.table, i))
  {
    LostTurn(s, rules, SeatOf(s.table.seats, client));
    ObserverPhase(s, rules, client);
  }

  /** The player has lost his hand and is still taken for a player. */
  function WithoutHand(s: State, i: nat): (s': State)
    requires Shaped(s.table) && i < |s.table.seats|
    ensures Shaped(s'.table) && |s'.table.seats| == |s.table.seats|
  {
    s.(table := s.table.(seats := s.table.seats[i := s.table.seats[i].(hand := None)]))
  }

  /** What is resolved when he is lost. */
  function WithoutPlayer(s: State, i: nat): (s': State)
    requires Shaped(s.table) && i < |s.table.seats|
    ensures Shaped(s'.table) && |s'.table.seats| == |s.table.seats|
  {
    s.(active := s.active - 1, table := WithoutCard(WithoutHand(s, i).table, i))
  }

  lemma {:induction false} ObserverWithdraws(s: State, rules: Rules, client: nat)
    requires Shaped(s.table) && SeatedPlayer(s, rules, client)
    ensures var i := SeatOf(s.table.seats, client);
            BecomeObserver(s, rules, client, true).phase == Withdraw(WithoutHand(s, i), rules, i, true).phase
  {
  }

  lemma {:induction false} ObserverPhase(s: State, rules: Rules, client: nat)
    requires Shaped(s.table) && s.phase != Inactive && SeatedPlayer(s, rules, client)
    ensures var i := SeatOf(s.table.seats, client);
            BecomeObserver(s, rules, client, true).phase == Resolve(WithoutPlayer(s, i), rules, true).phase
  {
    var i := SeatOf(s.table.seats, client);
    ObserverWithdraws(s, rules, client);
    WithdrawResolves(WithoutHand(s, i), rules, i, true);
  }

  /** A player without a hand ends the phase as soon as a resolution empties the slots. */
  lemma {:induction false} MissingHandEnds(s: State, rules: Rules, i: nat)
    requires Shaped(s.table) && Owned(s.table) && s.phase != Inactive && i < |s.table.seats|
    requires s.table.seats[i].hand.None? && s.table.seats[i].id != 0 && s.table.seats[i].role == PlayerRole
    requires s.phase != Playing
    ensures Resolve(s, rules, true).phase == Inactive
            <==> EveryoneReady(s) && !Suspended(Settle(s.table, rules.lineLen, s.deck))
  {
    ClearVacantNothing(s.table);
    SettleKeepsSeats(s.table, rules.lineLen, s.deck);
    var done := Settle(s.table, rules.lineLen, s.deck).seats;
    assert done[i] == s.table.seats[i].(heads := done[i].heads);
    assert HandEmpty(done[i], rules.handSize);
  }

  /** The turn without the hand and the card of seat i. */
  lemma {:induction false} LostTurn(s: State, rules: Rules, i: nat)
    requires Playable(s.table) && Owned(s.table) && s.phase != Inactive && s.phase != Playing
    requires i < |s.table.seats| && s.table.seats[i].role == PlayerRole && s.table.seats[i].id != 0
    ensures Resolve(WithoutPlayer(s, i), rules, true).phase == Inactive <==>
              EveryoneReady(s.(active := s.active - 1)) && !Suspended(WithoutCard(s.table, i))
  {
    var s1 := WithoutPlayer(s, i);
    WithoutCardPlayable(WithoutHand(s, i).table, i);
    SuspendedIff(s1.table, rules.lineLen, s.deck);
    MissingHandEnds(s1, rules, i);
  }
}
