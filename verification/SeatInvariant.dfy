/** The seats and the counters kept beside them agree after every message. */
module SeatInvariant {
  import opened Options
  import opened Turn
  import opened Game
  import opened SessionSpec

  function Count(seats: seq<Player>, f: Player -> bool): nat {
    if seats == [] then 0
    else Count(seats[..|seats| - 1], f) + (if f(seats[|seats| - 1]) then 1 else 0)
  }

  predicate IsOccupied(p: Player) { p.id != 0 }

  predicate IsPlayer(p: Player) { p.role == PlayerRole }

  lemma {:induction false} CountUpdate(seats: seq<Player>, i: nat, p: Player, f: Player -> bool)
    requires i < |seats|
    ensures Count(seats[i := p], f) + (if f(seats[i]) then 1 else 0) == Count(seats, f) + (if f(p) then 1 else 0)
  {
    var n := |seats| - 1;
    if i == n {
      assert seats[i := p][..n] == seats[..n];
    } else {
      assert seats[i := p][..n] == seats[..n][i := p];
      CountUpdate(seats[..n], i, p, f);
    }
  }

  lemma {:induction false} CountSame(a: seq<Player>, b: seq<Player>, f: Player -> bool)
    requires |a| == |b| && forall i | 0 <= i < |a| :: f(a[i]) == f(b[i])
    ensures Count(a, f) == Count(b, f)
  {
    if a != [] { CountSame(a[..|a| - 1], b[..|b| - 1], f); }
  }

  lemma {:induction false} CountZero(seats: seq<Player>, f: Player -> bool)
    ensures Count(seats, f) == 0 <==> forall i | 0 <= i < |seats| :: !f(seats[i])
  {
    if seats != [] {
      CountZero(seats[..|seats| - 1], f);
      assert forall i | 0 <= i < |seats| - 1 :: seats[i] == seats[..|seats| - 1][i];
    }
  }

  lemma {:induction false} CountBound(seats: seq<Player>, f: Player -> bool)
    ensures Count(seats, f) <= |seats|
    ensures Count(seats, f) == |seats| ==> forall i | 0 <= i < |seats| :: f(seats[i])
  {
    if seats != [] {
      CountBound(seats[..|seats| - 1], f);
      assert forall i | 0 <= i < |seats| - 1 :: seats[i] == seats[..|seats| - 1][i];
    }
  }

  // ---------------------------------------------------------------- the invariant

  ghost predicate SeatOk(p: Player, rules: Rules) {
    && (p.id == 0 <==> p.role == NoRole)
    && (p.role == PlayerRole <==> p.hand.Some?)
    && (p.role == PlayerRole ==> p.connected && |p.hand.value| == rules.handSize)
    && (p.role == NoRole ==> !p.connected)
  }

  ghost predicate DistinctIds(seats: seq<Player>) {
    forall i, j | 0 <= i < |seats| && 0 <= j < |seats| && seats[i].id != 0 && seats[i].id == seats[j].id :: i == j
  }

  ghost predicate SeatsOk(s: State, rules: Rules) {
    && Shaped(s.table)
    && (forall i | 0 <= i < |s.table.seats| :: SeatOk(s.table.seats[i], rules))
    && DistinctIds(s.table.seats)
    && s.clients == Count(s.table.seats, IsOccupied)
    && s.active == Count(s.table.seats, IsPlayer)
    && s.active <= rules.capacity
  }

  /** Two tables whose seats differ in scores only. */
  ghost predicate SameSeats(a: seq<Player>, b: seq<Player>) {
    |a| == |b| && forall i | 0 <= i < |a| :: b[i] == a[i].(heads := b[i].heads)
  }

  lemma {:induction false} SettleKeepsSeats(t: Table, len: nat, deck: seq<nat>)
    requires Shaped(t)
    ensures SameSeats(t.seats, Settle(t, len, deck).seats)
    decreases Sums.Sum(t.ready, Sums.One)
  {
    var i := NextSlot(t);
    if i != -1 && NextRow(t) != -1 {
      PlayCardPending(t, len, deck, NextRow(t), i);
      SettleKeepsSeats(PlayCard(t, len, deck, NextRow(t), i), len, deck);
    }
  }

  lemma {:induction false} PlaceAllKeepsSeats(s: State, rules: Rules)
    requires Shaped(s.table)
    ensures var s' := PlaceAll(s, rules).0;
            && Shaped(s'.table) && SameSeats(s.table.seats, s'.table.seats)
            && s'.clients == s.clients && s'.active == s.active && s'.deck == s.deck
  {
    SettleKeepsSeats(s.table, rules.lineLen, s.deck);
  }

  lemma {:induction false} ResolveKeepsSeats(s: State, rules: Rules, delivered: bool)
    requires Shaped(s.table)
    ensures var s' := Resolve(s, rules, delivered);
            && Shaped(s'.table) && SameSeats(s.table.seats, s'.table.seats)
            && s'.clients == s.clients && s'.active == s.active && s'.deck == s.deck
  {
    if EveryoneReady(s) {
      PlaceAllKeepsSeats(s.(phase := Playing, table := ClearVacant(s.table)), rules);
    }
  }

  lemma {:induction false} SameSeatsOk(s: State, s': State, rules: Rules)
    requires SeatsOk(s, rules) && Shaped(s'.table) && SameSeats(s.table.seats, s'.table.seats)
    requires s'.clients == s.clients && s'.active == s.active
    ensures SeatsOk(s', rules)
  {
    CountSame(s.table.seats, s'.table.seats, IsOccupied);
    CountSame(s.table.seats, s'.table.seats, IsPlayer);
  }

  lemma {:induction false} SeatOfIs(s: State, rules: Rules, i: nat)
    requires SeatsOk(s, rules) && i < |s.table.seats| && s.table.seats[i].id != 0
    ensures SeatOf(s.table.seats, s.table.seats[i].id) == i
  {
    assert SeatOk(s.table.seats[i], rules);
    var j := SeatOf(s.table.seats, s.table.seats[i].id);
    assert SeatHas(s.table.seats[i], s.table.seats[i].id);
  }

  // ---------------------------------------------------------------- every message keeps it

  lemma {:induction false} SubmitKeepsSeats(s: State, rules: Rules, client: nat, visible: int, delivered: bool)
    requires SeatsOk(s, rules)
    requires s.phase == Waiting ==> SeatedPlayer(s, rules, client)
    ensures SeatsOk(Submit(s, rules, client, visible, delivered), rules)
  {
    var s1 := InfoReturn(s, rules, client, visible);
    if Accepts(s, rules, client, visible) {
      var i := SeatOf(s.table.seats, client);
      CountUpdate(s.table.seats, i, s1.table.seats[i], IsOccupied);
      CountUpdate(s.table.seats, i, s1.table.seats[i], IsPlayer);
    }
    assert SeatsOk(s1, rules);
    ResolveKeepsSeats(s1, rules, delivered);
    SameSeatsOk(s1, Resolve(s1, rules, delivered), rules);
  }

  lemma {:induction false} ExtraKeepsSeats(s: State, rules: Rules, client: nat, row: nat, delivered: bool)
    requires SeatsOk(s, rules)
    requires AcceptsRow(s, client) ==> SeatOf(s.table.seats, client) != -1 && row < |s.table.rows|
    ensures SeatsOk(Extra(s, rules, client, row, delivered), rules)
  {
    if AcceptsRow(s, client) {
      var s1 := s.(table := TakeRow(s.table, s.deck, row, SeatOf(s.table.seats, client)));
      PlaceAllKeepsSeats(s1, rules);
      SameSeatsOk(s, Extra(s, rules, client, row, delivered), rules);
    }
  }

  lemma {:induction false} JoinKeepsSeats(s: State, rules: Rules, client: nat, memory: seq<int>)
    requires SeatsOk(s, rules) && client != 0 && |memory| == rules.handSize
    ensures SeatsOk(Join(s, rules, client, memory), rules)
  {
    var seats := s.table.seats;
    var i := FreeSeat(seats, |seats|);
    if Join(s, rules, client, memory) != s {
      var p := Join(s, rules, client, memory).table.seats[i];
      CountUpdate(seats, i, p, IsOccupied);
      CountUpdate(seats, i, p, IsPlayer);
      assert SeatOk(seats[i], rules);
      forall j | 0 <= j < |seats| ensures seats[j].id != client {
        assert SeatOk(seats[j], rules) && !SeatHas(seats[j], client);
      }
    }
  }

  /** What remove_player leaves: the seat of the client is empty, the others change in scores only. */
  lemma {:induction false} RemoveEmptiesSeat(s: State, rules: Rules, client: nat, delivered: bool)
    requires SeatsOk(s, rules)
    ensures var s' := Remove(s, rules, client, delivered);
            var i := SeatOf(s.table.seats, client);
            && SeatsOk(s', rules)
            && (i == -1 ==> s' == s)
            && (i != -1 ==>
                  && s'.table.seats[i] == Player(0, NoRole, None, s'.table.seats[i].heads, false)
                  && s'.clients == s.clients - 1
                  && s'.active == s.active - (if s.table.seats[i].role == PlayerRole then 1 else 0))
            && forall j | 0 <= j < |s.table.seats| && j != i ::
                 s'.table.seats[j] == s.table.seats[j].(heads := s'.table.seats[j].heads)
  {
    var i := SeatOf(s.table.seats, client);
    if i != -1 {
      var s1 := if s.table.seats[i].role == PlayerRole then Withdraw(s, rules, i, delivered) else s;
      if s.table.seats[i].role == PlayerRole { WithdrawKeepsSeats(s, rules, i, delivered); }
      VacateSeat(s, s1, Remove(s, rules, client, delivered), rules, i);
    }
  }

  lemma {:induction false} VacateSeat(s: State, s1: State, s': State, rules: Rules, i: nat)
    requires SeatsOk(s, rules) && i < |s.table.seats| && s.table.seats[i].role != NoRole
    requires Shaped(s1.table) && SameSeats(s.table.seats, s1.table.seats) && s1.clients == s.clients
    requires s1.active == s.active - (if IsPlayer(s.table.seats[i]) then 1 else 0)
    requires var vacant := Player(0, NoRole, None, s1.table.seats[i].heads, false);
             s' == s1.(table := s1.table.(seats := s1.table.seats[i := vacant]), clients := s1.clients - 1)
    ensures SeatsOk(s', rules)
  {
    assert SeatOk(s.table.seats[i], rules);
    CountSame(s.table.seats, s1.table.seats, IsOccupied);
    CountSame(s.table.seats, s1.table.seats, IsPlayer);
    CountUpdate(s1.table.seats, i, s'.table.seats[i], IsOccupied);
    CountUpdate(s1.table.seats, i, s'.table.seats[i], IsPlayer);
  }

  lemma {:induction false} WithdrawKeepsSeats(s: State, rules: Rules, i: nat, delivered: bool)
    requires Shaped(s.table) && i < |s.table.seats|
    ensures var s' := Withdraw(s, rules, i, delivered);
            && Shaped(s'.table) && SameSeats(s.table.seats, s'.table.seats)
            && s'.clients == s.clients && s'.active == s.active - 1 && s'.deck == s.deck
  {
    var s1 := s.(active := s.active - 1, table := s.table.(ready := s.table.ready[i := -1]));
    ResolveKeepsSeats(s1, rules, delivered);
  }

  /** A seated client becomes an observer. */
  lemma {:induction false} RoleGivenUp(s: State, s': State, rules: Rules, i: nat)
    requires SeatsOk(s, rules) && i < |s.table.seats| && s.table.seats[i].id != 0
    requires s.table.seats[i].role == PlayerRole
    requires var p := s.table.seats[i].(hand := None, role := ObserverRole);
             s' == s.(active := s.active - 1, table := s.table.(seats := s.table.seats[i := p]))
    ensures SeatsOk(s', rules)
  {
    assert SeatOk(s.table.seats[i], rules);
    CountUpdate(s.table.seats, i, s'.table.seats[i], IsOccupied);
    CountUpdate(s.table.seats, i, s'.table.seats[i], IsPlayer);
  }

  lemma {:induction false} BecomeObserverKeepsSeats(s: State, rules: Rules, client: nat, delivered: bool)
    requires SeatsOk(s, rules)
    ensures var s' := BecomeObserver(s, rules, client, delivered);
            var i := SeatOf(s.table.seats, client);
            && SeatsOk(s', rules)
            && (i != -1 ==> s'.table.seats[i].role == ObserverRole)
            && forall j | 0 <= j < |s.table.seats| :: s'.table.seats[j].id == s.table.seats[j].id
  {
    var i := SeatOf(s.table.seats, client);
    if i != -1 && s.table.seats[i].role != ObserverRole {
      assert SeatOk(s.table.seats[i], rules);
      var s1 := s.(table := s.table.(seats := s.table.seats[i := s.table.seats[i].(hand := None)]));
      var p := s1.table.seats[i].(role := ObserverRole);
      var s2 := s1.(active := s.active - 1, table := s1.table.(seats := s1.table.seats[i := p]));
      RoleGivenUp(s, s2, rules, i);
      WithdrawKeepsSeats(s1, rules, i, delivered);
      SameSeatsOk(s2, BecomeObserver(s, rules, client, delivered), rules);
    }
  }

  lemma {:induction false} RemoveFromEmptiesSeats(s: State, rules: Rules, i: nat, delivered: bool)
    requires SeatsOk(s, rules) && i <= |s.table.seats|
    requires forall j | 0 <= j < i :: s.table.seats[j].id == 0
    ensures var s' := RemoveFrom(s, rules, i, delivered);
            && SeatsOk(s', rules)
            && (forall j | 0 <= j < |s'.table.seats| :: s'.table.seats[j].id == 0)
            && s'.clients == 0 && s'.active == 0
    decreases |s.table.seats| - i
  {
    if i == |s.table.seats| {
      forall j | 0 <= j < |s.table.seats| ensures !IsPlayer(s.table.seats[j]) && !IsOccupied(s.table.seats[j]) {
        assert SeatOk(s.table.seats[j], rules);
      }
      CountZero(s.table.seats, IsOccupied);
      CountZero(s.table.seats, IsPlayer);
    } else if s.table.seats[i].id == 0 {
      RemoveFromEmptiesSeats(s, rules, i + 1, delivered);
    } else {
      SeatOfIs(s, rules, i);
      RemoveEmptiesSeat(s, rules, s.table.seats[i].id, delivered);
      RemoveFromEmptiesSeats(Remove(s, rules, s.table.seats[i].id, delivered), rules, i + 1, delivered);
    }
  }

  lemma {:induction false} CloseEmptiesSeats(s: State, rules: Rules, delivered: bool)
    requires SeatsOk(s, rules)
    ensures var s' := Close(s, rules, delivered);
            && SeatsOk(s', rules)
            && (forall j | 0 <= j < |s'.table.seats| :: s'.table.seats[j].id == 0)
            && s'.clients == 0 && s'.active == 0
  {
    RemoveFromEmptiesSeats(s.(phase := Inactive), rules, 0, delivered);
  }

  /** When the last connection goes, everyone is removed. */
  lemma {:induction false} LeftKeepsSeats(s: State, rules: Rules, client: nat, delivered: bool)
    requires SeatsOk(s, rules)
    ensures var s' := Left(s, rules, client, delivered);
            && SeatsOk(s', rules)
            && (SeatOf(s.table.seats, client) != -1 && NobodyConnected(s'.table.seats) ==> s'.clients == 0)
  {
    var i := SeatOf(s.table.seats, client);
    if i != -1 {
      BecomeObserverKeepsSeats(s, rules, client, delivered);
      var s1 := BecomeObserver(s, rules, client, delivered);
      var p := s1.table.seats[i].(connected := false);
      var s2 := s1.(table := s1.table.(seats := s1.table.seats[i := p]));
      CountUpdate(s1.table.seats, i, p, IsOccupied);
      CountUpdate(s1.table.seats, i, p, IsPlayer);
      assert SeatsOk(s2, rules);
      if NobodyConnected(s2.table.seats) { RemoveFromEmptiesSeats(s2, rules, 0, delivered); }
    }
  }
}
