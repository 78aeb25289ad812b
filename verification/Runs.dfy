/** Every run of one phase of the game, from a deal to the end of the phase: players answer, choose
    rows, leave and lose their connections in any order, and observers arrive. Requests to choose a
    row are delivered. */
module Runs {
  import opened Options
  import opened Sums
  import opened Turn
  import opened TurnFold
  import opened Game
  import opened SessionSpec
  import opened SeatInvariant
  import opened DealSpec
  import opened Conservation

  datatype Event =
    | Joins(client: nat, memory: seq<int>)
    | Leaves(client: nat)
    | LosesConnection(client: nat)
    | Answers(client: nat, visible: int)
    | Chooses(client: nat, row: nat)

  /** What the server relies on: clients have ids, cards come from seated players, and a row is one
      of the board's. */
  ghost predicate Allowed(s: State, rules: Rules, e: Event)
    requires Shaped(s.table)
  {
    match e
    case Joins(client, memory) => client != 0 && |memory| == rules.handSize && s.phase != Inactive
    case Leaves(_) => true
    case LosesConnection(_) => true
    case Answers(client, _) => s.phase == Waiting ==> SeatedPlayer(s, rules, client)
    case Chooses(client, row) => AcceptsRow(s, client) ==> SeatOf(s.table.seats, client) != -1 && row < |s.table.rows|
  }

  ghost function Next(s: State, rules: Rules, e: Event): (s': State)
    requires Shaped(s.table) && Allowed(s, rules, e)
    ensures Shaped(s'.table)
  {
    match e
    case Joins(client, memory) => Join(s, rules, client, memory)
    case Leaves(client) => Remove(s, rules, client, true)
    case LosesConnection(client) => Left(s, rules, client, true)
    case Answers(client, visible) => Submit(s, rules, client, visible, true)
    case Chooses(client, row) => Extra(s, rules, client, row, true)
  }

  /** What the clients from seat i on take along when all of them are removed. */
  ghost function DroppedFrom(s: State, rules: Rules, i: nat): seq<int>
    requires Shaped(s.table) && i <= |s.table.seats|
    decreases |s.table.seats| - i
  {
    if i == |s.table.seats| then []
    else if s.table.seats[i].id == 0 then DroppedFrom(s, rules, i + 1)
    else
      var id := s.table.seats[i].id;
      Dropped(s, id) + DroppedFrom(Remove(s, rules, id, true), rules, i + 1)
  }

  /** The client without a connection: an observer, still seated. */
  ghost function Unplugged(s: State, rules: Rules, client: nat): (s': State)
    requires Shaped(s.table) && SeatOf(s.table.seats, client) != -1
    ensures Shaped(s'.table) && |s'.table.seats| == |s.table.seats|
  {
    var i := SeatOf(s.table.seats, client);
    var s1 := BecomeObserver(s, rules, client, true);
    s1.(table := s1.table.(seats := s1.table.seats[i := s1.table.seats[i].(connected := false)]))
  }

  ghost predicate Plays(s: State, client: nat) {
    SeatOf(s.table.seats, client) != -1 && s.table.seats[SeatOf(s.table.seats, client)].role == PlayerRole
  }

  /** What is lost with a connection: what the client held, if he played, and if nobody is connected
      any more, what all the others held. */
  ghost function LostOwn(s: State, client: nat): seq<int>
    requires Shaped(s.table)
  {
    if Plays(s, client) then Dropped(s, client) else []
  }

  ghost function LostOthers(s: State, rules: Rules, client: nat): seq<int>
    requires Shaped(s.table)
  {
    if SeatOf(s.table.seats, client) == -1 then []
    else
      var s' := Unplugged(s, rules, client);
      if NobodyConnected(s'.table.seats) then DroppedFrom(s', rules, 0) else []
  }

  /** The cards that are gone with players. */
  ghost function GoneAfter(s: State, rules: Rules, gone: seq<int>, e: Event): seq<int>
    requires Shaped(s.table)
  {
    match e
    case Leaves(client) => gone + Dropped(s, client)
    case LosesConnection(client) => (gone + LostOwn(s, client)) + LostOthers(s, rules, client)
    case _ => gone
  }

  // ---------------------------------------------------------------- the invariant

  /** What is not a card of the deck. */
  function Outside(n: nat): int -> nat {
    x => if 0 <= x < n then 0 else 1
  }

  function Ledger(t: Table, undealt: seq<int>, gone: seq<int>, w: int -> nat): nat {
    OnTable(t, w) + Sum(undealt, w) + Sum(gone, w)
  }

  /** Each card is in exactly one place, and nothing but cards is anywhere. */
  ghost predicate Conserved(t: Table, n: nat, undealt: seq<int>, gone: seq<int>) {
    && (forall c | 0 <= c < n :: Ledger(t, undealt, gone, Only(c)) == 1)
    && Ledger(t, undealt, gone, Outside(n)) == 0
  }

  ghost predicate Increasing(row: seq<int>) {
    forall i, j | 0 <= i < j < |row| :: row[i] < row[j]
  }

  ghost predicate RowsOk(rows: seq<seq<int>>, len: nat) {
    forall r | 0 <= r < |rows| :: 1 <= |rows[r]| <= len && Increasing(rows[r]) && rows[r][0] >= 0
  }

  ghost predicate ReadyOk(ready: seq<int>) {
    forall i | 0 <= i < |ready| :: ready[i] >= -1
  }

  /** While a row is awaited, the awaited player owns the smallest ready card, which fits nowhere. */
  ghost predicate AwaitOk(s: State)
    requires Shaped(s.table)
  {
    s.phase == WaitingExtra ==>
      && Suspended(s.table) && EveryoneReady(s)
      && s.waitFrom == s.table.seats[NextSlot(s.table)].id
  }

  ghost predicate Inv(s: State, rules: Rules, undealt: seq<int>, gone: seq<int>) {
    && rules.lineLen >= 1
    && SeatsOk(s, rules) && Owned(s.table) && ValidScores(s.table.seats)
    && RowsOk(s.table.rows, rules.lineLen)
    && Conserved(s.table, |s.deck|, undealt, gone)
    && s.phase != Playing
    && (s.phase == Inactive ==> NextSlot(s.table) == -1)
    && AwaitOk(s)
  }

  // ---------------------------------------------------------------- consequences of conservation

  lemma {:induction false} ReadyInDeck(t: Table, n: nat, undealt: seq<int>, gone: seq<int>)
    requires Shaped(t) && Conserved(t, n, undealt, gone)
    ensures forall i | 0 <= i < |t.ready| :: -1 <= t.ready[i] < n
  {
    forall i | 0 <= i < |t.ready| ensures -1 <= t.ready[i] < n {
      SumAtLeast(t.ready, i, Outside(n));
    }
  }

  lemma {:induction false} RowsInDeck(t: Table, n: nat, undealt: seq<int>, gone: seq<int>)
    requires Shaped(t) && Conserved(t, n, undealt, gone)
    ensures forall r, j | 0 <= r < |t.rows| && 0 <= j < |t.rows[r]| :: -1 <= t.rows[r][j] < n
  {
    forall r, j | 0 <= r < |t.rows| && 0 <= j < |t.rows[r]| ensures -1 <= t.rows[r][j] < n {
      SumAllAtLeast(t.rows, r, Outside(n));
      SumAtLeast(t.rows[r], j, Outside(n));
    }
  }

  /** Ready cards and tails are all different: the turn is the fold of TurnFold. */
  lemma {:induction false} ConservedPlayable(t: Table, len: nat, n: nat, undealt: seq<int>, gone: seq<int>)
    requires Shaped(t) && RowsOk(t.rows, len) && Conserved(t, n, undealt, gone)
    ensures Playable(t)
  {
    ReadyInDeck(t, n, undealt, gone);
    RowsInDeck(t, n, undealt, gone);
    forall i, j | 0 <= i < |t.ready| && 0 <= j < |t.ready| && t.ready[i] != -1 && t.ready[i] == t.ready[j]
      ensures i == j
    {
      if i != j { SumTwo(t.ready, i, j, Only(t.ready[i])); }
    }
    forall q, r | 0 <= q < |t.rows| && 0 <= r < |t.rows| && Tail(t.rows[q]) == Tail(t.rows[r]) ensures q == r {
      var c := Tail(t.rows[q]);
      SumAtLeast(t.rows[q], |t.rows[q]| - 1, Only(c));
      SumAtLeast(t.rows[r], |t.rows[r]| - 1, Only(c));
      TailNotNegative(t.rows[q]);
      if q != r { SumAllTwo(t.rows, q, r, Only(c)); }
    }
    forall r | 0 <= r < |t.rows| ensures Tail(t.rows[r]) !in Cards(t.ready) {
      var c := Tail(t.rows[r]);
      TailNotNegative(t.rows[r]);
      SumAtLeast(t.rows[r], |t.rows[r]| - 1, Only(c));
      SumAllAtLeast(t.rows, r, Only(c));
      if c in Cards(t.ready) {
        var i :| 0 <= i < |t.ready| && t.ready[i] != -1 && t.ready[i] == c;
        SumAtLeast(t.ready, i, Only(c));
      }
    }
  }

  lemma {:induction false} TailNotNegative(row: seq<int>)
    requires |row| > 0 && Increasing(row) && row[0] >= 0
    ensures Tail(row) >= 0
  {
    assert |row| > 1 ==> row[0] < row[|row| - 1];
  }

  // ---------------------------------------------------------------- resolving keeps it

  /** What the resolution of a turn keeps of the rows, the slots and the scores. */
  ghost predicate TableOk(t: Table, len: nat) {
    && Shaped(t) && Owned(t) && ValidScores(t.seats) && RowsOk(t.rows, len) && ReadyOk(t.ready)
  }

  lemma {:induction false} PlayCardOk(t: Table, len: nat, deck: seq<nat>)
    requires TableOk(t, len) && len >= 1 && NextSlot(t) != -1 && NextRow(t) != -1
    ensures TableOk(PlayCard(t, len, deck, NextRow(t), NextSlot(t)), len)
  {
    var i, r := NextSlot(t), NextRow(t);
    var row := t.rows[r];
    assert Tail(row) < t.ready[i];
    forall k, j | 0 <= k < j < |row| + 1 ensures (row + [t.ready[i]])[k] < (row + [t.ready[i]])[j] {
      if j == |row| && k < |row| - 1 { assert row[k] < row[|row| - 1]; }
    }
  }

  lemma {:induction false} SettleOk(t: Table, len: nat, deck: seq<nat>)
    requires TableOk(t, len) && len >= 1
    ensures TableOk(Settle(t, len, deck), len)
    decreases Pending(t)
  {
    if NextSlot(t) != -1 && NextRow(t) != -1 {
      PlayCardOk(t, len, deck);
      PlayCardPending(t, len, deck, NextRow(t), NextSlot(t));
      SettleOk(PlayCard(t, len, deck, NextRow(t), NextSlot(t)), len, deck);
    }
  }

  lemma {:induction false} InvTable(s: State, rules: Rules, undealt: seq<int>, gone: seq<int>)
    requires Inv(s, rules, undealt, gone)
    ensures TableOk(s.table, rules.lineLen)
  {
    ReadyInDeck(s.table, |s.deck|, undealt, gone);
  }

  /** What the resolution leaves, whoever has been removed before. */
  ghost predicate Settled(s: State, len: nat)
    requires Shaped(s.table)
  {
    && TableOk(s.table, len) && s.phase != Playing
    && (s.phase == Inactive ==> NextSlot(s.table) == -1)
    && AwaitOk(s)
  }

  ghost predicate PlayersHaveIds(seats: seq<Player>) {
    forall i | 0 <= i < |seats| && seats[i].role == PlayerRole :: seats[i].id != 0
  }

  lemma {:induction false} InvSettled(s: State, rules: Rules, undealt: seq<int>, gone: seq<int>)
    requires Inv(s, rules, undealt, gone)
    ensures Settled(s, rules.lineLen) && PlayersHaveIds(s.table.seats)
  {
    InvTable(s, rules, undealt, gone);
    assert forall i | 0 <= i < |s.table.seats| :: SeatOk(s.table.seats[i], rules);
  }

  lemma {:induction false} MakeInv(s: State, rules: Rules, undealt: seq<int>, gone: seq<int>)
    requires rules.lineLen >= 1 && SeatsOk(s, rules) && Settled(s, rules.lineLen)
    requires Conserved(s.table, |s.deck|, undealt, gone)
    ensures Inv(s, rules, undealt, gone)
  {
  }

  /** place_card ends a turn, or ends the phase, or waits for the owner of the smallest card. */
  lemma {:induction false} PlaceAllOk(s: State, rules: Rules)
    requires TableOk(s.table, rules.lineLen) && rules.lineLen >= 1
    requires PlayersHaveIds(s.table.seats)
    requires s.readyCount >= s.active && s.readyCount > 0
    ensures var (s1, result) := PlaceAll(s, rules);
            var s' := HandleResult(s1, result, true);
            Shaped(s'.table) && Settled(s', rules.lineLen)
  {
    SettleOk(s.table, rules.lineLen, s.deck);
    SettleKeepsSeats(s.table, rules.lineLen, s.deck);
    var t := Settle(s.table, rules.lineLen, s.deck);
    if Suspended(t) {
      var i := NextSlot(t);
      assert t.seats[i].role == PlayerRole && s.table.seats[i].role == PlayerRole;
    }
  }

  lemma {:induction false} ResolveOk(s: State, rules: Rules)
    requires TableOk(s.table, rules.lineLen) && rules.lineLen >= 1
    requires PlayersHaveIds(s.table.seats)
    requires s.phase == Waiting || (s.phase == WaitingExtra && EveryoneReady(s))
    ensures var s' := Resolve(s, rules, true);
            Shaped(s'.table) && Settled(s', rules.lineLen)
  {
    ClearVacantNothing(s.table);
    if EveryoneReady(s) { PlaceAllOk(s.(phase := Playing), rules); }
  }

  /** The weights are kept, so the conservation is. */
  lemma {:induction false} KeepsConserved(t: Table, t': Table, n: nat, undealt: seq<int>, gone: seq<int>)
    requires Conserved(t, n, undealt, gone)
    requires forall w: int -> nat :: OnTable(t', w) == OnTable(t, w)
    ensures Conserved(t', n, undealt, gone)
  {
    forall c | 0 <= c < n ensures Ledger(t', undealt, gone, Only(c)) == 1 {
      assert Ledger(t, undealt, gone, Only(c)) == 1;
      assert OnTable(t', Only(c)) == OnTable(t, Only(c));
    }
    assert OnTable(t', Outside(n)) == OnTable(t, Outside(n));
  }

  lemma {:induction false} AnswersOk(s: State, rules: Rules, undealt: seq<int>, gone: seq<int>, client: nat,
                                     visible: int)
    requires Inv(s, rules, undealt, gone) && Allowed(s, rules, Answers(client, visible))
    ensures Inv(Submit(s, rules, client, visible, true), rules, undealt, gone)
  {
    var s1 := InfoReturn(s, rules, client, visible);
    var s' := Submit(s, rules, client, visible, true);
    SubmitKeepsSeats(s, rules, client, visible, true);
    forall w: int -> nat ensures OnTable(s'.table, w) == OnTable(s.table, w) {
      SubmitConserves(s, rules, client, visible, true, w);
    }
    KeepsConserved(s.table, s'.table, |s.deck|, undealt, gone);
    forall w: int -> nat ensures OnTable(s1.table, w) == OnTable(s.table, w) {
      InfoReturnConserves(s, rules, client, visible, w);
    }
    InfoReturnConserves(s, rules, client, visible, One);
    KeepsConserved(s.table, s1.table, |s.deck|, undealt, gone);
    ReadyInDeck(s1.table, |s.deck|, undealt, gone);
    if s.phase != Inactive {
      InfoReturnSeats(s, rules, client, visible);
      ResolveOk(s1, rules);
    }
    ResolveKeepsSeats(s1, rules, true);
  }

  lemma {:induction false} InfoReturnSeats(s: State, rules: Rules, client: nat, visible: int)
    requires SeatsOk(s, rules) && ValidScores(s.table.seats)
    requires s.phase == Waiting ==> SeatedPlayer(s, rules, client)
    ensures var s1 := InfoReturn(s, rules, client, visible);
            PlayersHaveIds(s1.table.seats) && ValidScores(s1.table.seats)
  {
    assert forall i | 0 <= i < |s.table.seats| :: SeatOk(s.table.seats[i], rules);
    if Accepts(s, rules, client, visible) {
      assert SeatOk(s.table.seats[SeatOf(s.table.seats, client)], rules);
    }
  }

  /** The awaited player is in the slot of the smallest card. */
  lemma {:induction false} AwaitedSlot(s: State, rules: Rules)
    requires SeatsOk(s, rules) && Owned(s.table) && AwaitOk(s) && s.phase == WaitingExtra
    ensures s.waitFrom != 0 && SeatOf(s.table.seats, s.waitFrom) == NextSlot(s.table)
  {
    var i := NextSlot(s.table);
    assert SeatOk(s.table.seats[i], rules);
    SeatOfIs(s, rules, i);
  }

  lemma {:induction false} TakeRowOk(t: Table, len: nat, deck: seq<nat>, r: nat, i: nat)
    requires TableOk(t, len) && len >= 1 && r < |t.rows| && i < |t.ready| && t.ready[i] != -1
    ensures TableOk(TakeRow(t, deck, r, i), len)
  {
  }

  lemma {:induction false} ChoiceSettles(s: State, rules: Rules, row: nat, i: nat)
    requires TableOk(s.table, rules.lineLen) && rules.lineLen >= 1 && s.phase == WaitingExtra && EveryoneReady(s)
    requires i < |s.table.ready| && s.table.ready[i] != -1 && row < |s.table.rows|
    requires PlayersHaveIds(s.table.seats)
    ensures var (s1, result) := PlaceAll(s.(table := TakeRow(s.table, s.deck, row, i)), rules);
            var s' := HandleResult(s1, result, true);
            Shaped(s'.table) && Settled(s', rules.lineLen) && s'.deck == s.deck
  {
    var t := TakeRow(s.table, s.deck, row, i);
    TakeRowOk(s.table, rules.lineLen, s.deck, row, i);
    PlaceAllOk(s.(table := t), rules);
  }

  lemma {:induction false} ChoosesOk(s: State, rules: Rules, undealt: seq<int>, gone: seq<int>, client: nat, row: nat)
    requires Inv(s, rules, undealt, gone) && Allowed(s, rules, Chooses(client, row))
    ensures Inv(Extra(s, rules, client, row, true), rules, undealt, gone)
  {
    if AcceptsRow(s, client) {
      var s' := Extra(s, rules, client, row, true);
      AwaitedSlot(s, rules);
      InvSettled(s, rules, undealt, gone);
      ChoiceSettles(s, rules, row, NextSlot(s.table));
      ExtraKeepsSeats(s, rules, client, row, true);
      forall w: int -> nat ensures OnTable(s'.table, w) == OnTable(s.table, w) {
        ExtraConserves(s, rules, client, row, true, w);
      }
      KeepsConserved(s.table, s'.table, |s.deck|, undealt, gone);
    }
  }

  lemma {:induction false} JoinsOk(s: State, rules: Rules, undealt: seq<int>, gone: seq<int>, client: nat,
                                   memory: seq<int>)
    requires Inv(s, rules, undealt, gone) && Allowed(s, rules, Joins(client, memory))
    ensures Inv(Join(s, rules, client, memory), rules, undealt, gone)
  {
    var s' := Join(s, rules, client, memory);
    JoinKeepsSeats(s, rules, client, memory);
    forall w: int -> nat ensures OnTable(s'.table, w) == OnTable(s.table, w) {
      JoinConserves(s, rules, client, memory, w);
    }
    KeepsConserved(s.table, s'.table, |s.deck|, undealt, gone);
    var i := FreeSeat(s.table.seats, |s.table.seats|);
    if s' != s {
      assert SeatOk(s.table.seats[i], rules);
      if s.phase == WaitingExtra { assert NextSlot(s.table) != i; }
    }
  }

  /** A resolution empties slots and fills none. */
  lemma {:induction false} SettleReady(t: Table, len: nat, deck: seq<nat>)
    requires Shaped(t)
    ensures forall j | 0 <= j < |t.ready| && t.ready[j] == -1 :: Settle(t, len, deck).ready[j] == -1
    decreases Pending(t)
  {
    if NextSlot(t) != -1 && NextRow(t) != -1 {
      PlayCardPending(t, len, deck, NextRow(t), NextSlot(t));
      SettleReady(PlayCard(t, len, deck, NextRow(t), NextSlot(t)), len, deck);
    }
  }

  lemma {:induction false} EmptySlotOk(t: Table, len: nat, i: nat)
    requires TableOk(t, len) && i < |t.ready|
    ensures TableOk(t.(ready := t.ready[i := -1]), len)
  {
  }

  lemma {:induction false} ResolveLeavesEmpty(s: State, rules: Rules, i: nat)
    requires Shaped(s.table) && Owned(s.table) && i < |s.table.ready| && s.table.ready[i] == -1
    ensures Resolve(s, rules, true).table.ready[i] == -1
  {
    ResolveTable(s, rules, true);
    SettleReady(s.table, rules.lineLen, s.deck);
  }

  lemma {:induction false} WithdrawOk(s: State, rules: Rules, i: nat)
    requires Shaped(s.table) && Settled(s, rules.lineLen) && PlayersHaveIds(s.table.seats) && rules.lineLen >= 1
    requires i < |s.table.seats|
    ensures Settled(Withdraw(s, rules, i, true), rules.lineLen)
    ensures Withdraw(s, rules, i, true).table.ready[i] == -1
  {
    if s.phase != Inactive {
      var s1 := s.(active := s.active - 1, table := s.table.(ready := s.table.ready[i := -1]));
      EmptySlotOk(s.table, rules.lineLen, i);
      WithdrawResolves(s, rules, i, true);
      ResolveOk(s1, rules);
      ResolveLeavesEmpty(s1, rules, i);
    }
  }

  /** A seat whose slot is empty may change, if it keeps its score and stays no player. */
  lemma {:induction false} SeatChangeOk(s: State, s': State, rules: Rules, i: nat, p: Player)
    requires Shaped(s.table) && Settled(s, rules.lineLen) && i < |s.table.seats| && s.table.ready[i] == -1
    requires p.heads == s.table.seats[i].heads
    requires s'.phase == s.phase && s'.readyCount == s.readyCount && s'.active == s.active && s'.waitFrom == s.waitFrom
    requires s'.table == s.table.(seats := s.table.seats[i := p])
    ensures Settled(s', rules.lineLen)
  {
  }

  lemma {:induction false} RemoveSettled(s: State, rules: Rules, client: nat)
    requires Shaped(s.table) && Settled(s, rules.lineLen) && PlayersHaveIds(s.table.seats) && rules.lineLen >= 1
    ensures Settled(Remove(s, rules, client, true), rules.lineLen)
  {
    var i := SeatOf(s.table.seats, client);
    if i != -1 {
      var s1 := if s.table.seats[i].role == PlayerRole then Withdraw(s, rules, i, true) else s;
      if s.table.seats[i].role == PlayerRole { WithdrawOk(s, rules, i); }
      var vacant := Player(0, NoRole, None, s1.table.seats[i].heads, false);
      SeatChangeOk(s1, Remove(s, rules, client, true), rules, i, vacant);
    }
  }

  lemma {:induction false} LeavesOk(s: State, rules: Rules, undealt: seq<int>, gone: seq<int>, client: nat)
    requires Inv(s, rules, undealt, gone)
    ensures Inv(Remove(s, rules, client, true), rules, undealt, gone + Dropped(s, client))
  {
    InvSettled(s, rules, undealt, gone);
    RemoveSettled(s, rules, client);
    RemoveEmptiesSeat(s, rules, client, true);
    LeavesConserved(s, rules, undealt, gone, client);
    MakeInv(Remove(s, rules, client, true), rules, undealt, gone + Dropped(s, client));
  }

  /** Weights kept over all places, the cards gone included. */
  lemma {:induction false} SameLedger(t: Table, t': Table, n: nat, undealt: seq<int>, gone: seq<int>, gone': seq<int>)
    requires Conserved(t, n, undealt, gone)
    requires forall w: int -> nat :: Ledger(t', undealt, gone', w) == Ledger(t, undealt, gone, w)
    ensures Conserved(t', n, undealt, gone')
  {
    forall c | 0 <= c < n ensures Ledger(t', undealt, gone', Only(c)) == 1 {
      assert Ledger(t, undealt, gone, Only(c)) == 1;
    }
  }

  lemma {:induction false} LeavesConserved(s: State, rules: Rules, undealt: seq<int>, gone: seq<int>, client: nat)
    requires Inv(s, rules, undealt, gone)
    ensures Conserved(Remove(s, rules, client, true).table, |s.deck|, undealt, gone + Dropped(s, client))
    ensures Remove(s, rules, client, true).deck == s.deck
  {
    var t' := Remove(s, rules, client, true).table;
    forall w: int -> nat
      ensures Ledger(t', undealt, gone + Dropped(s, client), w) == Ledger(s.table, undealt, gone, w)
    {
      RemoveConserves(s, rules, client, true, w);
      SumAppend(gone, Dropped(s, client), w);
    }
    SameLedger(s.table, t', |s.deck|, undealt, gone, gone + Dropped(s, client));
    RemoveKeepsDeck(s, rules, client);
  }

  lemma {:induction false} RemoveKeepsDeck(s: State, rules: Rules, client: nat)
    requires Shaped(s.table)
    ensures Remove(s, rules, client, true).deck == s.deck
  {
    var i := SeatOf(s.table.seats, client);
    if i != -1 { WithdrawKeepsSeats(s, rules, i, true); }
  }

  // ---------------------------------------------------------------- lost connections

  lemma {:induction false} ObserverSettled(s: State, rules: Rules, client: nat)
    requires Shaped(s.table) && Settled(s, rules.lineLen) && PlayersHaveIds(s.table.seats) && rules.lineLen >= 1
    requires Plays(s, client)
    ensures Settled(BecomeObserver(s, rules, client, true), rules.lineLen)
  {
    var i := SeatOf(s.table.seats, client);
    var s1 := s.(table := s.table.(seats := s.table.seats[i := s.table.seats[i].(hand := None)]));
    WithdrawOk(s1, rules, i);
    var s2 := Withdraw(s1, rules, i, true);
    SeatChangeOk(s2, BecomeObserver(s, rules, client, true), rules, i, s2.table.seats[i].(role := ObserverRole));
  }

  lemma {:induction false} ObserverConserved(s: State, rules: Rules, undealt: seq<int>, gone: seq<int>, client: nat)
    requires Inv(s, rules, undealt, gone) && Plays(s, client)
    ensures Conserved(BecomeObserver(s, rules, client, true).table, |s.deck|, undealt, gone + Dropped(s, client))
  {
    var t' := BecomeObserver(s, rules, client, true).table;
    ReadyInDeck(s.table, |s.deck|, undealt, gone);
    forall w: int -> nat
      ensures Ledger(t', undealt, gone + Dropped(s, client), w) == Ledger(s.table, undealt, gone, w)
    {
      BecomeObserverConserves(s, rules, client, true, w);
      SumAppend(gone, Dropped(s, client), w);
    }
    SameLedger(s.table, t', |s.deck|, undealt, gone, gone + Dropped(s, client));
  }

  lemma {:induction false} ObserverKeepsDeck(s: State, rules: Rules, client: nat)
    requires Shaped(s.table)
    ensures BecomeObserver(s, rules, client, true).deck == s.deck
  {
    var i := SeatOf(s.table.seats, client);
    if i != -1 {
      var s1 := s.(table := s.table.(seats := s.table.seats[i := s.table.seats[i].(hand := None)]));
      WithdrawKeepsSeats(s1, rules, i, true);
    }
  }

  /** A player who becomes an observer takes his hand and his ready card out of the game. */
  lemma {:induction false} ObserverOk(s: State, rules: Rules, undealt: seq<int>, gone: seq<int>, client: nat)
    requires Inv(s, rules, undealt, gone) && Plays(s, client)
    ensures Inv(BecomeObserver(s, rules, client, true), rules, undealt, gone + Dropped(s, client))
  {
    InvSettled(s, rules, undealt, gone);
    ObserverSettled(s, rules, client);
    BecomeObserverKeepsSeats(s, rules, client, true);
    ObserverConserved(s, rules, undealt, gone, client);
    ObserverKeepsDeck(s, rules, client);
    MakeInv(BecomeObserver(s, rules, client, true), rules, undealt, gone + Dropped(s, client));
  }

  lemma {:induction false} UnplugOk(s: State, s': State, rules: Rules, undealt: seq<int>, gone: seq<int>, i: nat)
    requires Inv(s, rules, undealt, gone) && i < |s.table.seats| && s.table.seats[i].role == ObserverRole
    requires s' == s.(table := s.table.(seats := s.table.seats[i := s.table.seats[i].(connected := false)]))
    ensures Inv(s', rules, undealt, gone)
  {
    InvSettled(s, rules, undealt, gone);
    var p := s.table.seats[i].(connected := false);
    assert s.table.ready[i] == -1;
    SeatChangeOk(s, s', rules, i, p);
    CountUpdate(s.table.seats, i, p, IsOccupied);
    CountUpdate(s.table.seats, i, p, IsPlayer);
    assert SeatOk(s.table.seats[i], rules);
    HandsSame(s.table.seats, s'.table.seats);
    KeepsConserved(s.table, s'.table, |s.deck|, undealt, gone);
    MakeInv(s', rules, undealt, gone);
  }

  lemma {:induction false} RemoveFromOk(s: State, rules: Rules, undealt: seq<int>, gone: seq<int>, i: nat)
    requires Inv(s, rules, undealt, gone) && i <= |s.table.seats|
    ensures Inv(RemoveFrom(s, rules, i, true), rules, undealt, gone + DroppedFrom(s, rules, i))
    ensures RemoveFrom(s, rules, i, true).deck == s.deck
    decreases |s.table.seats| - i
  {
    if i == |s.table.seats| {
      assert gone + [] == gone;
    } else if s.table.seats[i].id == 0 {
      RemoveFromOk(s, rules, undealt, gone, i + 1);
    } else {
      var id := s.table.seats[i].id;
      var s1 := Remove(s, rules, id, true);
      LeavesOk(s, rules, undealt, gone, id);
      RemoveKeepsDeck(s, rules, id);
      RemoveFromOk(s1, rules, undealt, gone + Dropped(s, id), i + 1);
      assert (gone + Dropped(s, id)) + DroppedFrom(s1, rules, i + 1)
             == gone + (Dropped(s, id) + DroppedFrom(s1, rules, i + 1));
    }
  }

  lemma {:induction false} UnpluggedOk(s: State, rules: Rules, undealt: seq<int>, gone: seq<int>, client: nat)
    requires Inv(s, rules, undealt, gone) && SeatOf(s.table.seats, client) != -1
    ensures Inv(Unplugged(s, rules, client), rules, undealt, gone + LostOwn(s, client))
    ensures Unplugged(s, rules, client).deck == s.deck
  {
    var i := SeatOf(s.table.seats, client);
    var s1 := BecomeObserver(s, rules, client, true);
    ObserverKeepsDeck(s, rules, client);
    BecomeObserverKeepsSeats(s, rules, client, true);
    if Plays(s, client) {
      ObserverOk(s, rules, undealt, gone, client);
      UnplugOk(s1, Unplugged(s, rules, client), rules, undealt, gone + Dropped(s, client), i);
    } else {
      assert gone + [] == gone;
      assert SeatOk(s.table.seats[i], rules);
      UnplugOk(s1, Unplugged(s, rules, client), rules, undealt, gone, i);
    }
  }

  lemma {:induction false} LeftIs(s: State, rules: Rules, client: nat)
    requires Shaped(s.table) && SeatOf(s.table.seats, client) != -1
    ensures var s' := Unplugged(s, rules, client);
            Left(s, rules, client, true)
            == if NobodyConnected(s'.table.seats) then RemoveFrom(s', rules, 0, true) else s'
  {
  }

  lemma {:induction false} LosesOk(s: State, rules: Rules, undealt: seq<int>, gone: seq<int>, client: nat)
    requires Inv(s, rules, undealt, gone)
    ensures var lost := LostOwn(s, client);
            Inv(Left(s, rules, client, true), rules, undealt, (gone + lost) + LostOthers(s, rules, client))
    ensures Left(s, rules, client, true).deck == s.deck
  {
    if SeatOf(s.table.seats, client) == -1 {
      assert (gone + []) + [] == gone;
    } else {
      LeftIs(s, rules, client);
      UnpluggedOk(s, rules, undealt, gone, client);
      if NobodyConnected(Unplugged(s, rules, client).table.seats) {
        RemoveFromOk(Unplugged(s, rules, client), rules, undealt, gone + LostOwn(s, client), 0);
      } else {
        assert (gone + LostOwn(s, client)) + [] == gone + LostOwn(s, client);
      }
    }
  }

  lemma {:induction false} NextKeepsDeck(s: State, rules: Rules, undealt: seq<int>, gone: seq<int>, e: Event)
    requires Inv(s, rules, undealt, gone) && Allowed(s, rules, e)
    ensures Next(s, rules, e).deck == s.deck
  {
    match e
    case Joins(_, _) =>
    case Leaves(client) => RemoveKeepsDeck(s, rules, client);
    case LosesConnection(client) => LosesOk(s, rules, undealt, gone, client);
    case Answers(client, visible) => ResolveKeepsSeats(InfoReturn(s, rules, client, visible), rules, true);
    case Chooses(client, row) => ExtraKeepsDeck(s, rules, client, row);
  }

  lemma {:induction false} ExtraKeepsDeck(s: State, rules: Rules, client: nat, row: nat)
    requires Shaped(s.table) && Allowed(s, rules, Chooses(client, row))
    ensures Extra(s, rules, client, row, true).deck == s.deck
  {
    if AcceptsRow(s, client) {
      PlaceAllKeepsSeats(s.(table := TakeRow(s.table, s.deck, row, SeatOf(s.table.seats, client))), rules);
    }
  }

  lemma {:induction false} NextOk(s: State, rules: Rules, undealt: seq<int>, gone: seq<int>, e: Event)
    requires Inv(s, rules, undealt, gone) && Allowed(s, rules, e)
    ensures Inv(Next(s, rules, e), rules, undealt, GoneAfter(s, rules, gone, e))
    ensures Next(s, rules, e).deck == s.deck
  {
    NextKeepsDeck(s, rules, undealt, gone, e);
    match e
    case Joins(client, memory) => JoinsOk(s, rules, undealt, gone, client, memory);
    case Leaves(client) => LeavesOk(s, rules, undealt, gone, client);
    case LosesConnection(client) => LosesOk(s, rules, undealt, gone, client);
    case Answers(client, visible) => AnswersOk(s, rules, undealt, gone, client, visible);
    case Chooses(client, row) => ChoosesOk(s, rules, undealt, gone, client, row);
  }

  // ---------------------------------------------------------------- runs

  ghost predicate AllAllowed(s: State, rules: Rules, es: seq<Event>)
    requires Shaped(s.table)
    decreases |es|
  {
    es == [] || (Allowed(s, rules, es[0]) && AllAllowed(Next(s, rules, es[0]), rules, es[1..]))
  }

  ghost function After(s: State, rules: Rules, es: seq<Event>): (s': State)
    requires Shaped(s.table) && AllAllowed(s, rules, es)
    ensures Shaped(s'.table)
    decreases |es|
  {
    if es == [] then s else After(Next(s, rules, es[0]), rules, es[1..])
  }

  ghost function GoneIn(s: State, rules: Rules, gone: seq<int>, es: seq<Event>): seq<int>
    requires Shaped(s.table) && AllAllowed(s, rules, es)
    decreases |es|
  {
    if es == [] then gone else GoneIn(Next(s, rules, es[0]), rules, GoneAfter(s, rules, gone, es[0]), es[1..])
  }

  lemma {:induction false} AfterOk(s: State, rules: Rules, undealt: seq<int>, gone: seq<int>, es: seq<Event>)
    requires Inv(s, rules, undealt, gone) && AllAllowed(s, rules, es)
    ensures Inv(After(s, rules, es), rules, undealt, GoneIn(s, rules, gone, es))
    ensures After(s, rules, es).deck == s.deck
    decreases |es|
  {
    if es != [] {
      NextOk(s, rules, undealt, gone, es[0]);
      AfterOk(Next(s, rules, es[0]), rules, undealt, GoneAfter(s, rules, gone, es[0]), es[1..]);
    }
  }

  /** A deal may start when no game runs and no card is left in a slot, and it has to fit. */
  ghost predicate DealFits(s: State, rules: Rules, lines: nat, ids: seq<int>, deck: seq<nat>) {
    && rules.lineLen >= 1
    && SeatsOk(s, rules) && ValidScores(s.table.seats)
    && s.phase == Inactive && (forall i | 0 <= i < |s.table.ready| :: s.table.ready[i] == -1)
    && DeckOrder(ids, |deck|)
    && lines + Needed(s.table.seats, rules.handSize, |s.table.seats|) <= |ids|
  }

  lemma {:induction false} SumInside(ids: seq<int>, n: nat)
    requires forall i | 0 <= i < |ids| :: 0 <= ids[i] < n
    ensures Sum(ids, Outside(n)) == 0
  {
    if ids != [] {
      assert forall i | 0 <= i < |ids| - 1 :: ids[..|ids| - 1][i] == ids[i];
      SumInside(ids[..|ids| - 1], n);
    }
  }

  lemma {:induction false} SumNone(ready: seq<int>, w: int -> nat)
    requires forall i | 0 <= i < |ready| :: ready[i] == -1
    ensures Sum(ready, w) == 0
  {
    if ready != [] { SumNone(ready[..|ready| - 1], w); }
  }

  lemma {:induction false} DealOk(s: State, rules: Rules, lines: nat, ids: seq<int>, deck: seq<nat>)
    requires DealFits(s, rules, lines, ids, deck)
    ensures Inv(Deal(s, rules, lines, ids, deck), rules, Undealt(s, rules, lines, ids), [])
  {
    var s' := Deal(s, rules, lines, ids, deck);
    var undealt := Undealt(s, rules, lines, ids);
    DealKeepsSeats(s, rules, lines, ids, deck);
    DealHandsSeats(s.table.seats, ids, lines, rules, |s.table.seats|);
    forall w: int -> nat ensures Ledger(s'.table, undealt, [], w) == Sum(ids, w) {
      DealConserves(s, rules, lines, ids, deck, w);
      SumNone(s.table.ready, w);
    }
    forall c | 0 <= c < |deck| ensures Ledger(s'.table, undealt, [], Only(c)) == 1 {
      assert Ledger(s'.table, undealt, [], Only(c)) == Sum(ids, Only(c));
    }
    SumInside(ids, |deck|);
    assert Ledger(s'.table, undealt, [], Outside(|deck|)) == 0;
  }

  /** In every reachable state each card is in exactly one of: a row, a slot, a hand, the cards
      taken, the box, or the cards that left with a player; rows are increasing and of legal
      length; and the ready cards and tails are all different. */
  lemma {:induction false} EveryCardInOnePlace(s: State, rules: Rules, lines: nat, ids: seq<int>, deck: seq<nat>,
                                               es: seq<Event>, c: int)
    requires DealFits(s, rules, lines, ids, deck) && 0 <= c < |deck|
    requires AllAllowed(Deal(s, rules, lines, ids, deck), rules, es)
    ensures var d := Deal(s, rules, lines, ids, deck);
            var t := After(d, rules, es).table;
            && SumAll(t.rows, Only(c)) + Sum(t.ready, Only(c)) + SumAll(Hands(t.seats), Only(c))
               + SumAll(t.won, Only(c)) + Sum(Undealt(s, rules, lines, ids), Only(c))
               + Sum(GoneIn(d, rules, [], es), Only(c)) == 1
            && RowsOk(t.rows, rules.lineLen)
            && Playable(t)
  {
    var d := Deal(s, rules, lines, ids, deck);
    var undealt, gone := Undealt(s, rules, lines, ids), GoneIn(d, rules, [], es);
    DealOk(s, rules, lines, ids, deck);
    AfterOk(d, rules, undealt, [], es);
    var t := After(d, rules, es).table;
    assert Ledger(t, undealt, gone, Only(c)) == 1;
    ConservedPlayable(t, rules.lineLen, |deck|, undealt, gone);
  }

  // ---------------------------------------------------------------- waiting for a row

  /** The awaited player is seated, owns the smallest ready card, and that card is below every tail. */
  lemma {:induction false} AwaitedOwnsSmallest(s: State, rules: Rules, undealt: seq<int>, gone: seq<int>)
    requires Inv(s, rules, undealt, gone) && s.phase == WaitingExtra
    ensures var i := SeatOf(s.table.seats, s.waitFrom);
            && i != -1 && s.table.seats[i].role == PlayerRole && s.table.ready[i] != -1
            && (forall j | 0 <= j < |s.table.ready| && s.table.ready[j] != -1 && j != i ::
                  s.table.ready[i] < s.table.ready[j])
            && (forall r | 0 <= r < |s.table.rows| :: s.table.ready[i] < Tail(s.table.rows[r]))
  {
    AwaitedSlot(s, rules);
    ConservedPlayable(s.table, rules.lineLen, |s.deck|, undealt, gone);
    assert s.table.ready[NextSlot(s.table)] in Cards(s.table.ready);
  }

  /** Once the chosen row is taken the turn ends: no further choice is asked for in it. */
  lemma {:induction false} ChoiceEndsTurn(s: State, rules: Rules, undealt: seq<int>, gone: seq<int>, row: nat)
    requires Inv(s, rules, undealt, gone) && s.phase == WaitingExtra && row < |s.table.rows|
    ensures var s' := Extra(s, rules, s.waitFrom, row, true);
            && (s'.phase == Waiting || s'.phase == Inactive)
            && s'.readyCount == 0
            && (forall i | 0 <= i < |s'.table.ready| :: s'.table.ready[i] == -1)
  {
    AwaitedSlot(s, rules);
    ConservedPlayable(s.table, rules.lineLen, |s.deck|, undealt, gone);
    NoSecondChoice(s.table, rules.lineLen, s.deck, row);
  }

  lemma {:induction false} ResolvedTurn(s: State, rules: Rules)
    requires Shaped(s.table) && Owned(s.table) && EveryoneReady(s)
    ensures var s' := Resolve(s, rules, true);
            s'.phase != WaitingExtra ==> s'.readyCount == 0 && NextSlot(s'.table) == -1
  {
    ClearVacantNothing(s.table);
  }

  /** The awaited player gives up: the turn is resolved, and is over unless somebody is asked. */
  lemma {:induction false} ReleasedTurn(s: State, rules: Rules, i: nat)
    requires Shaped(s.table) && Owned(s.table) && EveryoneReady(s) && i < |s.table.seats|
    ensures var s' := Withdraw(s, rules, i, true);
            s'.phase != WaitingExtra ==> s'.readyCount == 0 && NextSlot(s'.table) == -1
  {
    WithdrawResolves(s, rules, i, true);
    ResolvedTurn(s.(active := s.active - 1, table := s.table.(ready := s.table.ready[i := -1])), rules);
  }

  /** If the awaited player leaves, another seated player is asked, or the turn is over and all slots
      are empty. */
  lemma {:induction false} LeavingReleases(s: State, rules: Rules, undealt: seq<int>, gone: seq<int>)
    requires Inv(s, rules, undealt, gone) && s.phase == WaitingExtra
    ensures var s' := Remove(s, rules, s.waitFrom, true);
            && s'.phase != Playing
            && (s'.phase != WaitingExtra ==>
                  s'.readyCount == 0 && forall j | 0 <= j < |s'.table.ready| :: s'.table.ready[j] == -1)
            && (s'.phase == WaitingExtra ==>
                  s'.waitFrom != s.waitFrom && SeatOf(s'.table.seats, s'.waitFrom) != -1
                  && s'.table.seats[SeatOf(s'.table.seats, s'.waitFrom)].role == PlayerRole)
  {
    LeavesOk(s, rules, undealt, gone, s.waitFrom);
    AwaitedSlot(s, rules);
    ReleasedTurn(s, rules, NextSlot(s.table));
    if Remove(s, rules, s.waitFrom, true).phase == WaitingExtra { AnotherIsAsked(s, rules, undealt, gone); }
  }

  lemma {:induction false} AnotherIsAsked(s: State, rules: Rules, undealt: seq<int>, gone: seq<int>)
    requires Inv(s, rules, undealt, gone) && s.phase == WaitingExtra
    requires Remove(s, rules, s.waitFrom, true).phase == WaitingExtra
    ensures var s' := Remove(s, rules, s.waitFrom, true);
            && s'.waitFrom != s.waitFrom && SeatOf(s'.table.seats, s'.waitFrom) != -1
            && s'.table.seats[SeatOf(s'.table.seats, s'.waitFrom)].role == PlayerRole
  {
    var s' := Remove(s, rules, s.waitFrom, true);
    LeavesOk(s, rules, undealt, gone, s.waitFrom);
    AwaitedSlot(s, rules);
    RemoveEmptiesSeat(s, rules, s.waitFrom, true);
    AwaitedSlot(s', rules);
    var j := NextSlot(s'.table);
    assert Owned(s'.table) && s'.table.seats[j].role == PlayerRole;
    assert s'.table.seats[j].id == s.table.seats[j].id || j == NextSlot(s.table);
    assert j != NextSlot(s.table);
  }

  /** A card sent while a row is awaited changes nothing; the same player is asked again. */
  lemma {:induction false} StrayAnswerChangesNothing(s: State, rules: Rules, undealt: seq<int>, gone: seq<int>,
                                                     client: nat, visible: int)
    requires Inv(s, rules, undealt, gone) && s.phase == WaitingExtra
    ensures Submit(s, rules, client, visible, true) == s
    ensures StartMove(s, rules).1 == s.waitFrom
  {
    ClearVacantNothing(s.table);
  }

  /** The weight of everything is the weight of the deck, during the whole run. */
  lemma {:induction false} AfterWeight(s: State, rules: Rules, undealt: seq<int>, gone: seq<int>, es: seq<Event>,
                                       w: int -> nat)
    requires Inv(s, rules, undealt, gone) && AllAllowed(s, rules, es)
    ensures Ledger(After(s, rules, es).table, undealt, GoneIn(s, rules, gone, es), w)
            == Ledger(s.table, undealt, gone, w)
    decreases |es|
  {
    if es != [] {
      var s1 := Next(s, rules, es[0]);
      NextOk(s, rules, undealt, gone, es[0]);
      NextWeight(s, rules, undealt, gone, es[0], w);
      AfterWeight(s1, rules, undealt, GoneAfter(s, rules, gone, es[0]), es[1..], w);
    }
  }

  lemma {:induction false} RemoveFromWeight(s: State, rules: Rules, undealt: seq<int>, gone: seq<int>, i: nat,
                                            w: int -> nat)
    requires Inv(s, rules, undealt, gone) && i <= |s.table.seats|
    ensures OnTable(RemoveFrom(s, rules, i, true).table, w) + Sum(DroppedFrom(s, rules, i), w) == OnTable(s.table, w)
    decreases |s.table.seats| - i
  {
    if i < |s.table.seats| {
      if s.table.seats[i].id == 0 {
        RemoveFromWeight(s, rules, undealt, gone, i + 1, w);
      } else {
        var id := s.table.seats[i].id;
        var s1 := Remove(s, rules, id, true);
        LeavesOk(s, rules, undealt, gone, id);
        RemoveConserves(s, rules, id, true, w);
        RemoveFromWeight(s1, rules, undealt, gone + Dropped(s, id), i + 1, w);
        SumAppend(Dropped(s, id), DroppedFrom(s1, rules, i + 1), w);
      }
    }
  }

  lemma {:induction false} UnpluggedWeight(s: State, rules: Rules, undealt: seq<int>, gone: seq<int>, client: nat,
                                           w: int -> nat)
    requires Inv(s, rules, undealt, gone) && SeatOf(s.table.seats, client) != -1
    ensures OnTable(Unplugged(s, rules, client).table, w) + Sum(LostOwn(s, client), w) == OnTable(s.table, w)
  {
    if Plays(s, client) {
      ReadyInDeck(s.table, |s.deck|, undealt, gone);
      BecomeObserverConserves(s, rules, client, true, w);
    } else {
      assert SeatOk(s.table.seats[SeatOf(s.table.seats, client)], rules);
    }
    HandsSame(BecomeObserver(s, rules, client, true).table.seats, Unplugged(s, rules, client).table.seats);
  }

  lemma {:induction false} LosesWeight(s: State, rules: Rules, undealt: seq<int>, gone: seq<int>, client: nat,
                                       w: int -> nat)
    requires Inv(s, rules, undealt, gone)
    ensures var gone' := (gone + LostOwn(s, client)) + LostOthers(s, rules, client);
            Ledger(Left(s, rules, client, true).table, undealt, gone', w) == Ledger(s.table, undealt, gone, w)
  {
    SumAppend(gone, LostOwn(s, client), w);
    SumAppend(gone + LostOwn(s, client), LostOthers(s, rules, client), w);
    if SeatOf(s.table.seats, client) != -1 {
      LeftIs(s, rules, client);
      UnpluggedOk(s, rules, undealt, gone, client);
      UnpluggedWeight(s, rules, undealt, gone, client, w);
      RemoveFromWeight(Unplugged(s, rules, client), rules, undealt, gone + LostOwn(s, client), 0, w);
    }
  }

  lemma {:induction false} NextWeight(s: State, rules: Rules, undealt: seq<int>, gone: seq<int>, e: Event,
                                      w: int -> nat)
    requires Inv(s, rules, undealt, gone) && Allowed(s, rules, e)
    ensures Ledger(Next(s, rules, e).table, undealt, GoneAfter(s, rules, gone, e), w)
            == Ledger(s.table, undealt, gone, w)
  {
    match e
    case Joins(client, memory) => JoinConserves(s, rules, client, memory, w);
    case Leaves(client) =>
      RemoveConserves(s, rules, client, true, w);
      SumAppend(gone, Dropped(s, client), w);
    case LosesConnection(client) => LosesWeight(s, rules, undealt, gone, client, w);
    case Answers(client, visible) => SubmitConserves(s, rules, client, visible, true, w);
    case Chooses(client, row) => ExtraConserves(s, rules, client, row, true, w);
  }
}
