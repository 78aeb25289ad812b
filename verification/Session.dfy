/** A session: the seats, the counters kept beside them, and the game they play. Its methods handle
    the messages of the clients. */
module Session {
  import opened Options
  import opened Turn
  import opened Game
  import opened Hand
  import Spec = SessionSpec
  import opened SeatInvariant
  import opened DealSpec
  import opened Outcomes

  ghost predicate HandWithin(p: Player, n: nat) {
    p.hand.Some? ==> forall j | 0 <= j < |p.hand.value| :: -1 <= p.hand.value[j] < n
  }

  class Session {
    const game: Game
    const players: array<Player>
    const capacity: nat
    var clients: int
    var active: int

    /** init_session with the default rules: 4 rows of 5 cards, hands of 10 out of 104 cards with 1
        to 5 heads, and 20 seats. The game refuses capacities its guard does not accept. */
    constructor (capacity: nat)
      requires InitAccepts(104, 10, capacity)
      ensures Valid() && fresh(game) && fresh(players)
      ensures SeatsOk(State(), Rules())
      ensures game.phase == Inactive && clients == 0
    {
      this.capacity := capacity;
      clients, active := 0, 0;
      game := new Game(4, 5, 10, 104, 5, 20);
      players := new Player[20](_ => Player(0, NoRole, None, 0, false));
      new;
      CountZero(players[..], IsOccupied);
      CountZero(players[..], IsPlayer);
    }

    ghost predicate Valid()
      reads this, game, game.board, game.ready, game.deck, players
    {
      && game.Valid() && players.Length == game.ready.Length
      && (game.phase != Inactive ==> NonEmptyRows(game.rows))
      && (game.phase != Inactive ==> forall i | 0 <= i < players.Length :: HandInDeck(players[i]))
    }

    ghost predicate HandInDeck(p: Player) { HandWithin(p, game.deck.Length) }

    ghost function Rules(): Spec.Rules {
      Spec.Rules(game.lineLen, game.handSize, capacity)
    }

    /** The table; before the first deal it has no rows. */
    ghost function TableNow(): (t: Table)
      requires Valid()
      reads this, game, game.board, game.ready, game.deck, players
      ensures Shaped(t)
    {
      Table(if NonEmptyRows(game.rows) then game.rows else [], game.ready[..], players[..], game.won)
    }

    ghost function State(): (s: Spec.State)
      requires Valid()
      reads this, game, game.board, game.ready, game.deck, players
      ensures Shaped(s.table)
    {
      Spec.State(TableNow(), game.Heads(), game.phase, game.readyCount, game.waitFrom, clients, active)
    }

    method GetIndexById(id: nat) returns (index: int)
      ensures index == Spec.SeatOf(players[..], id)
    {
      if id == 0 { return -1; }
      for i := 0 to players.Length
        invariant Spec.FindSeat(players[..], id, i) == -1
      {
        if players[i].role != NoRole && players[i].id == id {
          FoundSeat(players[..], id, i + 1, players.Length);
          return i;
        }
      }
      return -1;
    }

    method GetFirstFreePlace() returns (index: int)
      ensures index == Spec.FreeSeat(players[..], players.Length)
    {
      for i := 0 to players.Length
        invariant Spec.FreeSeat(players[..], i) == -1
      {
        if players[i].id == 0 {
          FoundFree(players[..], i + 1, players.Length);
          return i;
        }
      }
      return -1;
    }

    /** place_card on the game of the session. */
    method PlaceCards() returns (result: int)
      requires Valid() && NonEmptyRows(game.rows)
      requires forall i | 0 <= i < players.Length :: HandInDeck(players[i])
      modifies game`rows, game`won, game`phase, game`readyCount, game.board, game.ready, players
      ensures Valid()
      ensures (State(), result) == Spec.PlaceAll(old(State()), Rules())
    {
      ghost var s := State();
      SettleKeepsSeats(s.table, game.lineLen, s.deck);
      result := game.PlaceCard(players);
      SameHands(s.table.seats, players[..]);
    }

    /** Hands are looked at, not touched. */
    lemma SameHands(before: seq<Player>, after: seq<Player>)
      requires SameSeats(before, after) && forall i | 0 <= i < |before| :: HandInDeck(before[i])
      ensures forall i | 0 <= i < |after| :: HandInDeck(after[i])
    {
      forall i | 0 <= i < |after| ensures HandInDeck(after[i]) { assert HandInDeck(before[i]); }
    }

    /** start_move */
    method StartMove() returns (result: int)
      requires Valid()
      modifies game`rows, game`won, game`phase, game`readyCount, game.board, game.ready, players
      ensures Valid()
      ensures (State(), result) == Spec.StartMove(old(State()), Rules())
    {
      if game.phase != Waiting && game.phase != WaitingExtra { return 0; }
      if game.readyCount >= active && game.readyCount > 0 {
        game.phase := Playing;
        ClearVacantSlots();
        result := PlaceCards();
        return;
      }
      return 0;
    }

    method ClearVacantSlots()
      requires Valid() && NonEmptyRows(game.rows)
      modifies game.ready
      ensures Valid()
      ensures State() == old(State()).(table := Spec.ClearVacant(old(State()).table))
    {
      for i := 0 to players.Length
        invariant forall j | 0 <= j < players.Length ::
                    var vacant := !(players[j].id != 0 || players[j].role == PlayerRole);
                    game.ready[j] == if j < i && vacant then -1 else old(game.ready[j])
      {
        if players[i].id != 0 || players[i].role == PlayerRole { continue; }
        game.ready[i] := -1;
      }
      assert game.ready[..] == Spec.ClearVacant(old(State()).table).ready;
    }

    /** game_send_request_extra: the request is sent if there is a ready card, and the player is
        remembered if it went out. */
    method SendRequestExtra(userId: nat, delivered: bool) returns (result: int)
      requires Valid()
      modifies game`waitFrom
      ensures Valid()
      ensures var sent := delivered && NextSlot(old(State()).table) != -1;
              State() == old(State()).(waitFrom := if sent then userId else old(game.waitFrom))
              && result == if sent then 0 else -1
    {
      var count := 0;
      for i := 0 to game.ready.Length
        invariant count >= 0
        invariant count == 0 <==> forall j | 0 <= j < i :: game.ready[j] == -1
      {
        if game.ready[i] != -1 { count := count + 1; }
      }
      if count == 0 { return -1; }
      if delivered { game.waitFrom := userId; }
      return if delivered then 0 else -1;
    }

    /** handle_result_of_play */
    method HandleResultOfPlay(result: int, delivered: bool)
      requires Valid()
      modifies game`waitFrom, game`phase
      ensures Valid()
      ensures State() == Spec.HandleResult(old(State()), result, delivered)
    {
      if result > 0 {
        var _ := SendRequestExtra(result, delivered);
      } else if result == PHASE_DONE {
        game.phase := Inactive;
      }
    }

    method Resolve(delivered: bool)
      requires Valid()
      modifies game`rows, game`won, game`phase, game`readyCount, game`waitFrom, game.board, game.ready, players
      ensures Valid()
      ensures State() == Spec.Resolve(old(State()), Rules(), delivered)
    {
      var result := StartMove();
      HandleResultOfPlay(result, delivered);
    }

    /** game_handle_info_return */
    method HandleInfoReturn(client: nat, visible: int) returns (code: int)
      requires Valid()
      requires game.phase == Waiting ==> Spec.SeatedPlayer(State(), Rules(), client)
      modifies game`readyCount, game.ready, players
      ensures Valid()
      ensures State() == Spec.InfoReturn(old(State()), Rules(), client, visible)
      ensures AnswerOutcome(old(State()), State(), Rules(), client, visible)
      ensures code == if Answerable(old(State()), Rules(), client, visible) then 0 else -1
    {
      AnswerMeans(State(), Rules(), client, visible);
      if game.phase != Waiting { return -1; }
      var index := GetIndexById(client);
      if game.ready[index] != -1 { return -1; }
      var hand := players[index].hand.value;
      var place := GetRealIndexFromVisible(hand, game.handSize, visible);
      if place == -1 { return -1; }
      var card := hand[place];
      assert HandInDeck(players[index]);
      players[index] := players[index].(hand := Some(hand[place := -1]));
      game.ready[index] := card;
      game.readyCount := game.readyCount + 1;
      return 0;
    }

    /** PKT_SESSION_INFO_RETURN */
    method HandleAnswer(client: nat, visible: int, delivered: bool)
      requires Valid()
      requires game.phase == Waiting ==> Spec.SeatedPlayer(State(), Rules(), client)
      modifies game`rows, game`won, game`phase, game`readyCount, game`waitFrom, game.board, game.ready, players
      ensures Valid()
      ensures State() == Spec.Submit(old(State()), Rules(), client, visible, delivered)
      ensures exists s1 :: AnswerOutcome(old(State()), s1, Rules(), client, visible)
                           && Shaped(s1.table) && State() == Spec.Resolve(s1, Rules(), delivered)
    {
      var _ := HandleInfoReturn(client, visible);
      Resolve(delivered);
    }

    /** game_handle_response_extra, and what its result leads to */
    method HandleResponseExtra(client: nat, row: nat, delivered: bool)
      requires Valid()
      requires Spec.AcceptsRow(State(), client) ==>
                 && Spec.SeatOf(players[..], client) != -1 && game.ready[Spec.SeatOf(players[..], client)] != -1
                 && row < game.lines
      modifies game`rows, game`won, game`phase, game`readyCount, game`waitFrom, game.board, game.ready, players
      ensures Valid()
      ensures State() == Spec.Extra(old(State()), Rules(), client, row, delivered)
    {
      if game.phase != WaitingExtra { return; }
      if client != game.waitFrom { return; }
      var index := GetIndexById(client);
      game.TakeLine(players, row, index);
      var result := PlaceCards();
      HandleResultOfPlay(result, delivered);
    }

    /** add_player. A hand is memory whose contents are not known yet. */
    method AddPlayer(client: nat, wanted: Role, memory: seq<int>) returns (code: int)
      requires Valid() && game.handSize >= 1
      modifies this`clients, this`active, players
      ensures Valid()
      ensures var seats := old(players[..]);
              code == 0 <==> Spec.SeatOf(seats, client) == -1 && Spec.FreeSeat(seats, |seats|) != -1
      ensures code != 0 ==> State() == old(State())
      ensures code == 0 ==>
                var role := if wanted == PlayerRole && game.phase != Inactive then ObserverRole else wanted;
                var i := Spec.FreeSeat(old(players[..]), players.Length);
                var hand := if role == PlayerRole then Some(memory) else None;
                var p := Player(client, role, hand, old(players[..])[i].heads, true);
                State() == old(State()).(table := old(TableNow()).(seats := old(players[..])[i := p]),
                                         clients := old(clients) + 1,
                                         active := if role == PlayerRole then old(active) + 1 else old(active))
    {
      var index := GetIndexById(client);
      if index != -1 { return -1; }
      var free := GetFirstFreePlace();
      if free == -1 { return -2; }
      var role := if wanted == PlayerRole && game.phase != Inactive then ObserverRole else wanted;
      var hand := if role == PlayerRole then Some(memory) else None;
      players[free] := Player(client, role, hand, players[free].heads, true);
      clients := clients + 1;
      if role == PlayerRole { active := active + 1; }
      return 0;
    }

    /** PKT_SESSION_JOIN */
    method HandleJoin(client: nat, memory: seq<int>)
      requires Valid() && game.handSize >= 1
      modifies this`clients, this`active, players
      ensures Valid()
      ensures State() == Spec.Join(old(State()), Rules(), client, memory)
      ensures old(SeatsOk(State(), Rules())) && client != 0 ==>
                JoinOutcome(old(State()), State(), Rules(), client, memory)
    {
      JoinMeans(State(), Rules(), client, memory);
      if clients >= players.Length { return; }
      var index := GetIndexById(client);
      if index != -1 { return; }
      var role := ObserverRole;
      if game.phase == Inactive && active < capacity { role := PlayerRole; }
      var _ := AddPlayer(client, role, memory);
    }

    method DropReady(index: nat)
      requires Valid() && index < players.Length
      modifies game.ready
      ensures Valid()
      ensures State() == old(State()).(table := old(TableNow()).(ready := old(game.ready[..])[index := -1]))
    {
      game.ready[index] := -1;
      assert game.ready[..] == old(game.ready[..])[index := -1];
    }

    /** What remove_player and change_player_role do to the game of a player who gives up his place. */
    method Withdraw(index: nat, delivered: bool)
      requires Valid() && index < players.Length
      modifies this`active, game`rows, game`won, game`phase, game`readyCount, game`waitFrom, game.board, game.ready,
               players
      ensures Valid()
      ensures State() == Spec.Withdraw(old(State()), Rules(), index, delivered)
    {
      active := active - 1;
      if game.phase != Inactive {
        DropReady(index);
        Resolve(delivered);
      }
    }

    /** remove_player */
    method RemovePlayer(client: nat, delivered: bool)
      requires Valid()
      modifies this`clients, this`active, game`rows, game`won, game`phase, game`readyCount, game`waitFrom,
               game.board, game.ready, players
      ensures Valid()
      ensures State() == Spec.Remove(old(State()), Rules(), client, delivered)
    {
      var index := GetIndexById(client);
      if index == -1 { return; }
      if players[index].role == PlayerRole {
        Withdraw(index, delivered);
      }
      VacateSeat(index);
    }

    method VacateSeat(index: nat)
      requires Valid() && index < players.Length
      modifies this`clients, players
      ensures Valid()
      ensures var vacant := Player(0, NoRole, None, old(players[index].heads), false);
              var table := old(TableNow()).(seats := old(players[..])[index := vacant]);
              State() == old(State()).(table := table, clients := old(clients) - 1)
    {
      clients := clients - 1;
      players[index] := Player(0, NoRole, None, players[index].heads, false);
      assert players[..] == old(players[..])[index := Player(0, NoRole, None, old(players[index].heads), false)];
    }

    /** change_player_role to ROLE_OBSERVER */
    method BecomeObserver(client: nat, delivered: bool)
      requires Valid()
      modifies this`active, game`rows, game`won, game`phase, game`readyCount, game`waitFrom, game.board, game.ready,
               players
      ensures Valid()
      ensures State() == Spec.BecomeObserver(old(State()), Rules(), client, delivered)
    {
      var index := GetIndexById(client);
      if index == -1 || players[index].role == ObserverRole { return; }
      players[index] := players[index].(hand := None);
      Withdraw(index, delivered);
      players[index] := players[index].(role := ObserverRole);
    }

    /** Removing the clients of the seats from i on leads to the goal. */
    ghost predicate StillToRemove(i: nat, delivered: bool, goal: Spec.State)
      requires Valid()
      reads this, game, game.board, game.ready, game.deck, players
    {
      i <= players.Length && Spec.RemoveFrom(State(), Rules(), i, delivered) == goal
    }

    /** One round of the loop below. */
    method RemoveAt(i: nat, delivered: bool, ghost goal: Spec.State)
      requires Valid() && i < players.Length && StillToRemove(i, delivered, goal)
      modifies this`clients, this`active, game`rows, game`won, game`phase, game`readyCount, game`waitFrom,
               game.board, game.ready, players
      ensures Valid() && StillToRemove(i + 1, delivered, goal)
    {
      var id := players[i].id;
      if id != 0 {
        RemovePlayer(id, delivered);
      }
    }

    /** The loop that removes every client still seated. */
    method RemoveEveryone(delivered: bool)
      requires Valid()
      modifies this`clients, this`active, game`rows, game`won, game`phase, game`readyCount, game`waitFrom,
               game.board, game.ready, players
      ensures Valid()
      ensures State() == Spec.RemoveFrom(old(State()), Rules(), 0, delivered)
    {
      ghost var goal := Spec.RemoveFrom(State(), Rules(), 0, delivered);
      for i := 0 to players.Length
        invariant Valid() && StillToRemove(i, delivered, goal)
      {
        RemoveAt(i, delivered, goal);
      }
    }

    /** USER_LEFT */
    method HandleLeft(client: nat, delivered: bool)
      requires Valid()
      modifies this`clients, this`active, game`rows, game`won, game`phase, game`readyCount, game`waitFrom,
               game.board, game.ready, players
      ensures Valid()
      ensures State() == Spec.Left(old(State()), Rules(), client, delivered)
      ensures old(SeatsOk(State(), Rules())) ==> LeftOutcome(old(State()), State(), Rules(), client, delivered)
    {
      LeftMeans(State(), Rules(), client, delivered);
      var index := GetIndexById(client);
      if index == -1 { return; }
      BecomeObserver(client, delivered);
      Disconnect(index);
      var rest := CountConnected();
      if rest == 0 {
        RemoveEveryone(delivered);
      }
    }

    method Disconnect(index: nat)
      requires Valid() && index < players.Length
      modifies players
      ensures Valid()
      ensures var seats := old(players[..])[index := old(players[index]).(connected := false)];
              State() == old(State()).(table := old(TableNow()).(seats := seats))
    {
      players[index] := players[index].(connected := false);
      assert players[..] == old(players[..])[index := old(players[index]).(connected := false)];
    }

    method CountConnected() returns (rest: nat)
      ensures rest == 0 <==> Spec.NobodyConnected(players[..])
    {
      rest := 0;
      for i := 0 to players.Length
        invariant rest == 0 <==> forall j | 0 <= j < i :: !players[j].connected
      {
        if players[i].connected { rest := rest + 1; }
      }
    }

    /** PKT_SESSION_CLOSE from the creator */
    method HandleClose(delivered: bool)
      requires Valid()
      modifies this`clients, this`active, game`rows, game`won, game`phase, game`readyCount, game`waitFrom,
               game.board, game.ready, players
      ensures Valid()
      ensures State() == Spec.Close(old(State()), Rules(), delivered)
      ensures old(SeatsOk(State(), Rules())) ==> State() == Emptied(old(State()).(phase := Inactive))
    {
      CloseMeans(State(), Rules(), delivered);
      game.phase := Inactive;
      RemoveEveryone(delivered);
    }
  }

  lemma {:induction false} FoundSeat(seats: seq<Player>, id: nat, m: nat, n: nat)
    requires m <= n <= |seats| && Spec.FindSeat(seats, id, m) != -1
    ensures Spec.FindSeat(seats, id, n) == Spec.FindSeat(seats, id, m)
  {
    if m < n { FoundSeat(seats, id, m, n - 1); }
  }

  lemma {:induction false} FoundFree(seats: seq<Player>, m: nat, n: nat)
    requires m <= n <= |seats| && Spec.FreeSeat(seats, m) != -1
    ensures Spec.FreeSeat(seats, n) == Spec.FreeSeat(seats, m)
  {
    if m < n { FoundFree(seats, m, n - 1); }
  }
}
