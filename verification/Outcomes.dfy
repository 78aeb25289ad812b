/** What answers, arrivals and departures mean to the clients, said without the functions that compute
    it: which card is played, who gets which seat, who stays. */
module Outcomes {
  import opened Options
  import opened Turn
  import opened Game
  import opened Hand
  import opened SessionSpec
  import opened SeatInvariant

  // ---------------------------------------------------------------- answers

  /** The cards that the client was shown. */
  function Shown(s: State, rules: Rules, client: nat): seq<int>
    requires SeatedPlayer(s, rules, client)
  {
    Visible(s.table.seats[SeatOf(s.table.seats, client)].hand.value, rules.handSize)
  }

  /** The answer names a card that is shown to a player who has none ready, while cards are awaited. */
  predicate Answerable(s: State, rules: Rules, client: nat, v: int)
    requires Shaped(s.table)
    requires s.phase == Waiting ==> SeatedPlayer(s, rules, client)
  {
    && s.phase == Waiting && s.table.ready[SeatOf(s.table.seats, client)] == -1
    && 0 <= v < |Shown(s, rules, client)|
  }

  /** The card shown at v is ready, the others are still shown in their order, the count is one
      higher, and nothing else has changed. */
  ghost predicate CardPlayed(s: State, s': State, rules: Rules, client: nat, v: int)
    requires Shaped(s.table) && SeatedPlayer(s, rules, client) && 0 <= v < |Shown(s, rules, client)|
  {
    var seats, i := s.table.seats, SeatOf(s.table.seats, client);
    var shown := Shown(s, rules, client);
    && |s'.table.seats| == |seats|
    && var hand := s'.table.seats[i].hand;
    && hand.Some? && |hand.value| == rules.handSize
    && Visible(hand.value, rules.handSize) == shown[..v] + shown[v + 1..]
    && s' == s.(table := s.table.(seats := seats[i := seats[i].(hand := hand)],
                                  ready := s.table.ready[i := shown[v]]),
                readyCount := s.readyCount + 1)
  }

  ghost predicate AnswerOutcome(s: State, s': State, rules: Rules, client: nat, v: int)
    requires Shaped(s.table)
    requires s.phase == Waiting ==> SeatedPlayer(s, rules, client)
  {
    if Answerable(s, rules, client, v) then CardPlayed(s, s', rules, client, v) else s' == s
  }

  lemma {:induction false} AnswerMeans(s: State, rules: Rules, client: nat, v: int)
    requires Shaped(s.table)
    requires s.phase == Waiting ==> SeatedPlayer(s, rules, client)
    ensures AnswerOutcome(s, InfoReturn(s, rules, client, v), rules, client, v)
    ensures Accepts(s, rules, client, v) <==> Answerable(s, rules, client, v)
  {
    if Answerable(s, rules, client, v) {
      PlayingRemovesShown(s.table.seats[SeatOf(s.table.seats, client)].hand.value, rules.handSize, v);
    }
  }

  // ---------------------------------------------------------------- arrivals

  ghost predicate Seated(seats: seq<Player>, client: nat) {
    exists j :: 0 <= j < |seats| && seats[j].id == client
  }

  /** The first free seat. */
  ghost predicate FirstFree(seats: seq<Player>, i: nat) {
    i < |seats| && seats[i].id == 0 && forall j | 0 <= j < i :: seats[j].id != 0
  }

  /** A client without a seat gets the first free one: as a player with a hand if no game runs and the
      players are not complete, else as an observer without one. */
  ghost predicate JoinOutcome(s: State, s': State, rules: Rules, client: nat, memory: seq<int>) {
    var seats := s.table.seats;
    if Seated(seats, client) || s.clients >= |seats| then s' == s
    else
      var plays := s.phase == Inactive && s.active < rules.capacity;
      exists i: nat :: FirstFree(seats, i)
        && s' == s.(table := s.table.(seats := seats[i := NewSeat(client, plays, memory, seats[i].heads)]),
                    clients := s.clients + 1, active := if plays then s.active + 1 else s.active)
  }

  function NewSeat(client: nat, plays: bool, memory: seq<int>, heads: nat): Player {
    if plays then Player(client, PlayerRole, Some(memory), heads, true)
    else Player(client, ObserverRole, None, heads, true)
  }

  lemma {:induction false} SeatedIff(s: State, rules: Rules, client: nat)
    requires SeatsOk(s, rules) && client != 0
    ensures Seated(s.table.seats, client) <==> SeatOf(s.table.seats, client) != -1
  {
    var seats := s.table.seats;
    if Seated(seats, client) {
      var j :| 0 <= j < |seats| && seats[j].id == client;
      SeatOfIs(s, rules, j);
    }
  }

  lemma {:induction false} JoinMeans(s: State, rules: Rules, client: nat, memory: seq<int>)
    requires Shaped(s.table)
    ensures SeatsOk(s, rules) && client != 0 ==> JoinOutcome(s, Join(s, rules, client, memory), rules, client, memory)
  {
    var seats := s.table.seats;
    if SeatsOk(s, rules) && client != 0 {
      SeatedIff(s, rules, client);
      if !Seated(seats, client) && s.clients < |seats| {
        CountBound(seats, IsOccupied);
        var i := FreeSeat(seats, |seats|);
        if i == -1 { AllOccupied(seats); }
        assert FirstFree(seats, i);
      }
    }
  }

  lemma {:induction false} AllOccupied(seats: seq<Player>)
    requires forall j | 0 <= j < |seats| :: seats[j].id != 0
    ensures Count(seats, IsOccupied) == |seats|
  {
    if seats != [] {
      assert forall j | 0 <= j < |seats| - 1 :: seats[..|seats| - 1][j] == seats[j];
      AllOccupied(seats[..|seats| - 1]);
    }
  }

  // ---------------------------------------------------------------- departures

  /** An empty seat keeps its score. */
  function Vacant(p: Player): Player { Player(0, NoRole, None, p.heads, false) }

  function Emptied(s: State): (s': State)
    requires Shaped(s.table)
    ensures Shaped(s'.table)
  {
    var seats := s.table.seats;
    s.(table := s.table.(seats := seq(|seats|, j requires 0 <= j < |seats| => Vacant(seats[j]))),
       clients := 0, active := 0)
  }

  /** Removing somebody resolves no turn: there is no game, or only observers are left. */
  ghost predicate Quiet(s: State) {
    s.phase == Inactive || forall j | 0 <= j < |s.table.seats| :: s.table.seats[j].role != PlayerRole
  }

  lemma {:induction false} QuietRemove(s: State, rules: Rules, i: nat, delivered: bool)
    requires SeatsOk(s, rules) && Quiet(s) && i < |s.table.seats| && s.table.seats[i].id != 0
    ensures var s' := Remove(s, rules, s.table.seats[i].id, delivered);
            SeatsOk(s', rules) && Quiet(s') && s'.table.seats == s.table.seats[i := Vacant(s.table.seats[i])]
            && Emptied(s') == Emptied(s)
  {
    SeatOfIs(s, rules, i);
    RemoveEmptiesSeat(s, rules, s.table.seats[i].id, delivered);
    var s' := Remove(s, rules, s.table.seats[i].id, delivered);
    assert s'.table.seats == s.table.seats[i := Vacant(s.table.seats[i])];
    assert Emptied(s').table.seats == Emptied(s).table.seats;
  }

  lemma {:induction false} AlreadyEmpty(s: State, rules: Rules)
    requires SeatsOk(s, rules) && forall j | 0 <= j < |s.table.seats| :: s.table.seats[j].id == 0
    ensures Emptied(s) == s
  {
    forall j | 0 <= j < |s.table.seats|
      ensures !IsPlayer(s.table.seats[j]) && !IsOccupied(s.table.seats[j])
      ensures Vacant(s.table.seats[j]) == s.table.seats[j]
    {
      assert SeatOk(s.table.seats[j], rules);
    }
    CountZero(s.table.seats, IsOccupied);
    CountZero(s.table.seats, IsPlayer);
    assert Emptied(s).table.seats == s.table.seats;
  }

  /** All are removed one after the other, and nothing else happens. */
  lemma {:induction false} QuietRemoval(s: State, rules: Rules, i: nat, delivered: bool)
    requires SeatsOk(s, rules) && Quiet(s) && i <= |s.table.seats|
    requires forall j | 0 <= j < i :: s.table.seats[j].id == 0
    ensures RemoveFrom(s, rules, i, delivered) == Emptied(s)
    decreases |s.table.seats| - i
  {
    if i == |s.table.seats| {
      AlreadyEmpty(s, rules);
    } else if s.table.seats[i].id == 0 {
      QuietRemoval(s, rules, i + 1, delivered);
    } else {
      QuietRemove(s, rules, i, delivered);
      QuietRemoval(Remove(s, rules, s.table.seats[i].id, delivered), rules, i + 1, delivered);
    }
  }

  /** A closed session has no game and nobody in it; no turn is resolved on the way, and rows, slots
      and scores stay as they were. */
  lemma {:induction false} CloseMeans(s: State, rules: Rules, delivered: bool)
    requires Shaped(s.table)
    ensures SeatsOk(s, rules) ==> Close(s, rules, delivered) == Emptied(s.(phase := Inactive))
  {
    if SeatsOk(s, rules) { QuietRemoval(s.(phase := Inactive), rules, 0, delivered); }
  }

  /** The game goes on without the hand and the ready card of a player: they may have been what the
      others waited for. An observer leaves it as it is. */
  function GoesOnWithout(s: State, rules: Rules, i: nat, delivered: bool): (s': State)
    requires Shaped(s.table) && i < |s.table.seats|
    ensures Shaped(s'.table) && |s'.table.seats| == |s.table.seats|
  {
    if s.table.seats[i].role != PlayerRole then s
    else
      var seats := s.table.seats[i := s.table.seats[i].(hand := None)];
      if s.phase == Inactive then s.(table := s.table.(seats := seats), active := s.active - 1)
      else
        var t := s.table.(seats := seats, ready := s.table.ready[i := -1]);
        Resolve(s.(table := t, active := s.active - 1), rules, delivered)
  }

  /** Somebody else is connected. */
  ghost predicate OthersConnected(seats: seq<Player>, i: nat) {
    exists j :: 0 <= j < |seats| && j != i && seats[j].connected
  }

  /** The client keeps his seat as an observer without a connection, and all others keep theirs; but
      if nobody else is connected, the session is empty. */
  ghost predicate LeftOutcome(s: State, s': State, rules: Rules, client: nat, delivered: bool)
    requires Shaped(s.table)
  {
    var i := SeatOf(s.table.seats, client);
    if i == -1 then s' == s
    else
      var g := GoesOnWithout(s, rules, i, delivered);
      && (forall j | 0 <= j < |s.table.seats| && j != i ::
            g.table.seats[j] == s.table.seats[j].(heads := g.table.seats[j].heads))
      && s' == if OthersConnected(s.table.seats, i) then WithoutConnection(g, i, client) else Emptied(g)
  }

  function WithoutConnection(s: State, i: nat, client: nat): State
    requires i < |s.table.seats|
  {
    var p := Player(client, ObserverRole, None, s.table.seats[i].heads, false);
    s.(table := s.table.(seats := s.table.seats[i := p]))
  }

  lemma {:induction false} PlayerWithdraws(s: State, rules: Rules, i: nat, delivered: bool)
    requires Shaped(s.table) && i < |s.table.seats| && s.table.seats[i].role == PlayerRole
    ensures var s1 := s.(table := s.table.(seats := s.table.seats[i := s.table.seats[i].(hand := None)]));
            GoesOnWithout(s, rules, i, delivered) == Withdraw(s1, rules, i, delivered)
  {
  }

  lemma {:induction false} SeatGivenUp(s: State, rules: Rules, i: nat, delivered: bool)
    requires SeatsOk(s, rules) && i < |s.table.seats| && s.table.seats[i].id != 0
    ensures var g := GoesOnWithout(s, rules, i, delivered);
            && (forall j | 0 <= j < |s.table.seats| && j != i ::
                  g.table.seats[j] == s.table.seats[j].(heads := g.table.seats[j].heads))
            && g.table.seats[i].id == s.table.seats[i].id && g.table.seats[i].hand == None
            && BecomeObserver(s, rules, s.table.seats[i].id, delivered)
               == g.(table := g.table.(seats := g.table.seats[i := g.table.seats[i].(role := ObserverRole)]))
  {
    SeatOfIs(s, rules, i);
    assert SeatOk(s.table.seats[i], rules);
    if s.table.seats[i].role == PlayerRole {
      var s1 := s.(table := s.table.(seats := s.table.seats[i := s.table.seats[i].(hand := None)]));
      PlayerWithdraws(s, rules, i, delivered);
      WithdrawKeepsSeats(s1, rules, i, delivered);
    } else {
      assert s.table.seats[i := s.table.seats[i].(role := ObserverRole)] == s.table.seats;
    }
  }

  lemma {:induction false} LastConnection(s: State, rules: Rules, delivered: bool)
    requires SeatsOk(s, rules) && NobodyConnected(s.table.seats)
    ensures RemoveFrom(s, rules, 0, delivered) == Emptied(s)
  {
    forall j | 0 <= j < |s.table.seats| ensures s.table.seats[j].role != PlayerRole {
      assert SeatOk(s.table.seats[j], rules);
    }
    QuietRemoval(s, rules, 0, delivered);
  }

  lemma {:induction false} UnpluggedSeats(s: State, rules: Rules, i: nat)
    requires SeatsOk(s, rules) && i < |s.table.seats| && s.table.seats[i].role == ObserverRole
    ensures var p := s.table.seats[i].(connected := false);
            SeatsOk(s.(table := s.table.(seats := s.table.seats[i := p])), rules)
  {
    var p := s.table.seats[i].(connected := false);
    assert SeatOk(s.table.seats[i], rules);
    CountUpdate(s.table.seats, i, p, IsOccupied);
    CountUpdate(s.table.seats, i, p, IsPlayer);
  }

  lemma {:induction false} LeftMeans(s: State, rules: Rules, client: nat, delivered: bool)
    requires Shaped(s.table)
    ensures SeatsOk(s, rules) ==> LeftOutcome(s, Left(s, rules, client, delivered), rules, client, delivered)
  {
    var i := SeatOf(s.table.seats, client);
    if SeatsOk(s, rules) && i != -1 {
      assert SeatOk(s.table.seats[i], rules);
      SeatGivenUp(s, rules, i, delivered);
      BecomeObserverKeepsSeats(s, rules, client, delivered);
      var s1 := BecomeObserver(s, rules, client, delivered);
      UnpluggedSeats(s1, rules, i);
      LastLeft(s, s1, GoesOnWithout(s, rules, i, delivered), rules, i, client, delivered);
    }
  }

  /** The end of the handler: the connection is marked as gone, and the others are looked at. */
  lemma {:induction false} LastLeft(s: State, s1: State, g: State, rules: Rules, i: nat, client: nat, delivered: bool)
    requires Shaped(s.table) && Shaped(g.table) && i < |s.table.seats| == |g.table.seats|
    requires forall j | 0 <= j < |s.table.seats| && j != i ::
               g.table.seats[j] == s.table.seats[j].(heads := g.table.seats[j].heads)
    requires g.table.seats[i].id == client && g.table.seats[i].hand == None
    requires s1 == g.(table := g.table.(seats := g.table.seats[i := g.table.seats[i].(role := ObserverRole)]))
    requires var p := s1.table.seats[i].(connected := false);
             SeatsOk(s1.(table := s1.table.(seats := s1.table.seats[i := p])), rules)
    ensures var p := s1.table.seats[i].(connected := false);
            var s2 := s1.(table := s1.table.(seats := s1.table.seats[i := p]));
            (if NobodyConnected(s2.table.seats) then RemoveFrom(s2, rules, 0, delivered) else s2)
            == if OthersConnected(s.table.seats, i) then WithoutConnection(g, i, client) else Emptied(g)
  {
    var p := s1.table.seats[i].(connected := false);
    var s2 := s1.(table := s1.table.(seats := s1.table.seats[i := p]));
    assert s2 == WithoutConnection(g, i, client);
    if NobodyConnected(s2.table.seats) {
      forall j | 0 <= j < |s.table.seats| && j != i ensures !s.table.seats[j].connected {
        assert !s2.table.seats[j].connected;
      }
      LastConnection(s2, rules, delivered);
      assert Emptied(s2).table.seats == Emptied(g).table.seats;
    } else {
      var j :| 0 <= j < |s.table.seats| && s2.table.seats[j].connected;
      assert s.table.seats[j].connected;
    }
  }
}
