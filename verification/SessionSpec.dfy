/** What each message does to a session, as a function on values: the table, the phase of the game
    and the counters the server keeps beside the seats. */
module SessionSpec {
  import opened Options
  import opened Turn
  import opened Game
  import opened Hand

  /** The rules fixed for a session. */
  datatype Rules = Rules(lineLen: nat, handSize: nat, capacity: nat)

  /** deck holds the heads of every card. readyCount, clients and active are kept by the server
      separately from what they count. */
  datatype State = State(table: Table, deck: seq<nat>, phase: Phase, readyCount: int, waitFrom: nat,
                         clients: int, active: int)

  predicate SeatHas(p: Player, id: nat) { p.role != NoRole && p.id == id }

  /** The first of the first n seats that the client occupies, -1 when there is none. */
  function FindSeat(seats: seq<Player>, id: nat, n: nat): (i: int)
    requires n <= |seats|
    ensures -1 <= i < n
    ensures i == -1 <==> forall j | 0 <= j < n :: !SeatHas(seats[j], id)
    ensures i != -1 ==> SeatHas(seats[i], id) && forall j | 0 <= j < i :: !SeatHas(seats[j], id)
  {
    if n == 0 then -1
    else
      var i := FindSeat(seats, id, n - 1);
      if i != -1 then i else if SeatHas(seats[n - 1], id) then n - 1 else -1
  }

  function SeatOf(seats: seq<Player>, id: nat): int {
    if id == 0 then -1 else FindSeat(seats, id, |seats|)
  }

  /** The first of the first n seats without a client, -1 when there is none. */
  function FreeSeat(seats: seq<Player>, n: nat): (i: int)
    requires n <= |seats|
    ensures -1 <= i < n
    ensures i == -1 <==> forall j | 0 <= j < n :: seats[j].id != 0
    ensures i != -1 ==> seats[i].id == 0 && forall j | 0 <= j < i :: seats[j].id != 0
  {
    if n == 0 then -1
    else
      var i := FreeSeat(seats, n - 1);
      if i != -1 then i else if seats[n - 1].id == 0 then n - 1 else -1
  }

  // ---------------------------------------------------------------- resolving a turn

  /** place_card as seen by the session: the new state and the code it returns. */
  function PlaceAll(s: State, rules: Rules): (r: (State, int))
    requires Shaped(s.table)
    ensures Shaped(r.0.table) && |r.0.table.seats| == |s.table.seats|
  {
    var t := Settle(s.table, rules.lineLen, s.deck);
    if Suspended(t) then (s.(table := t, phase := WaitingExtra), t.seats[NextSlot(t)].id)
    else if SomeoneFinished(t.seats, rules.handSize) then
      (s.(table := t, phase := Inactive, readyCount := 0), PHASE_DONE)
    else (s.(table := t, phase := Waiting, readyCount := 0), TURN_DONE)
  }

  /** Slots of seats that are neither occupied nor players are emptied before a resolution. */
  function ClearVacant(t: Table): (t': Table)
    requires Shaped(t)
    ensures Shaped(t')
  {
    t.(ready := seq(|t.ready|, i requires 0 <= i < |t.ready| =>
         if t.seats[i].id != 0 || t.seats[i].role == PlayerRole then t.ready[i] else -1))
  }

  predicate EveryoneReady(s: State) {
    && (s.phase == Waiting || s.phase == WaitingExtra)
    && s.readyCount >= s.active && s.readyCount > 0
  }

  function StartMove(s: State, rules: Rules): (r: (State, int))
    requires Shaped(s.table)
    ensures Shaped(r.0.table) && |r.0.table.seats| == |s.table.seats|
  {
    if EveryoneReady(s) then PlaceAll(s.(phase := Playing, table := ClearVacant(s.table)), rules) else (s, 0)
  }

  /** handle_result_of_play: a request for a line is remembered only if it could be sent. */
  function HandleResult(s: State, result: int, delivered: bool): State {
    if result > 0 then
      if delivered && NextSlot(s.table) != -1 then s.(waitFrom := result) else s
    else if result == PHASE_DONE then s.(phase := Inactive)
    else s
  }

  function Resolve(s: State, rules: Rules, delivered: bool): (s': State)
    requires Shaped(s.table)
    ensures Shaped(s'.table) && |s'.table.seats| == |s.table.seats|
  {
    var (s1, result) := StartMove(s, rules);
    HandleResult(s1, result, delivered)
  }

  // ---------------------------------------------------------------- playing

  predicate SeatedPlayer(s: State, rules: Rules, client: nat) {
    var i := SeatOf(s.table.seats, client);
    && i != -1 && s.table.seats[i].role == PlayerRole
    && s.table.seats[i].hand.Some? && |s.table.seats[i].hand.value| == rules.handSize
  }

  /** The card the client means when it answers with a visible position, and its place. */
  function ChosenPlace(s: State, rules: Rules, client: nat, visible: int): (i: int)
    requires SeatedPlayer(s, rules, client)
    ensures -1 <= i < rules.handSize
  {
    RealIndex(s.table.seats[SeatOf(s.table.seats, client)].hand.value, rules.handSize, visible)
  }

  /** A card is accepted while cards are awaited, once per turn and player, if it exists. */
  predicate Accepts(s: State, rules: Rules, client: nat, visible: int)
    requires Shaped(s.table)
    requires s.phase == Waiting ==> SeatedPlayer(s, rules, client)
  {
    && s.phase == Waiting
    && s.table.ready[SeatOf(s.table.seats, client)] == -1
    && ChosenPlace(s, rules, client, visible) != -1
  }

  function InfoReturn(s: State, rules: Rules, client: nat, visible: int): (s': State)
    requires Shaped(s.table)
    requires s.phase == Waiting ==> SeatedPlayer(s, rules, client)
    ensures Shaped(s'.table)
  {
    if !Accepts(s, rules, client, visible) then s
    else
      var i := SeatOf(s.table.seats, client);
      var hand := s.table.seats[i].hand.value;
      var place := ChosenPlace(s, rules, client, visible);
      s.(table := s.table.(seats := s.table.seats[i := s.table.seats[i].(hand := Some(hand[place := -1]))],
                           ready := s.table.ready[i := hand[place]]),
         readyCount := s.readyCount + 1)
  }

  /** PKT_SESSION_INFO_RETURN */
  function Submit(s: State, rules: Rules, client: nat, visible: int, delivered: bool): (s': State)
    requires Shaped(s.table)
    requires s.phase == Waiting ==> SeatedPlayer(s, rules, client)
    ensures Shaped(s'.table)
  {
    Resolve(InfoReturn(s, rules, client, visible), rules, delivered)
  }

  predicate AcceptsRow(s: State, client: nat) {
    s.phase == WaitingExtra && client == s.waitFrom
  }

  /** PKT_RESPONSE_EXTRA */
  function Extra(s: State, rules: Rules, client: nat, row: nat, delivered: bool): (s': State)
    requires Shaped(s.table)
    requires AcceptsRow(s, client) ==> SeatOf(s.table.seats, client) != -1 && row < |s.table.rows|
    ensures Shaped(s'.table)
  {
    if !AcceptsRow(s, client) then s
    else
      var t := TakeRow(s.table, s.deck, row, SeatOf(s.table.seats, client));
      var (s1, result) := PlaceAll(s.(table := t), rules);
      HandleResult(s1, result, delivered)
  }

  // ---------------------------------------------------------------- coming and going

  /** PKT_SESSION_JOIN. The memory of a new hand holds arbitrary values until the next deal. */
  function Join(s: State, rules: Rules, client: nat, memory: seq<int>): (s': State)
    requires Shaped(s.table)
    ensures Shaped(s'.table)
  {
    var seats := s.table.seats;
    var i := FreeSeat(seats, |seats|);
    if s.clients >= |seats| || SeatOf(seats, client) != -1 || i == -1 then s
    else if s.phase == Inactive && s.active < rules.capacity then
      s.(table := s.table.(seats := seats[i := Player(client, PlayerRole, Some(memory), seats[i].heads, true)]),
         clients := s.clients + 1, active := s.active + 1)
    else
      s.(table := s.table.(seats := seats[i := Player(client, ObserverRole, None, seats[i].heads, true)]),
         clients := s.clients + 1)
  }

  /** A player gives up his ready card, which may be what the others were waiting for. */
  function Withdraw(s: State, rules: Rules, i: nat, delivered: bool): (s': State)
    requires Shaped(s.table) && i < |s.table.seats|
    ensures Shaped(s'.table) && |s'.table.seats| == |s.table.seats|
  {
    if s.phase == Inactive then s.(active := s.active - 1)
    else Resolve(s.(active := s.active - 1, table := s.table.(ready := s.table.ready[i := -1])), rules, delivered)
  }

  /** remove_player */
  function Remove(s: State, rules: Rules, client: nat, delivered: bool): (s': State)
    requires Shaped(s.table)
    ensures Shaped(s'.table) && |s'.table.seats| == |s.table.seats|
  {
    var i := SeatOf(s.table.seats, client);
    if i == -1 then s
    else
      var s1 := if s.table.seats[i].role == PlayerRole then Withdraw(s, rules, i, delivered) else s;
      var seat := Player(0, NoRole, None, s1.table.seats[i].heads, false);
      s1.(table := s1.table.(seats := s1.table.seats[i := seat]), clients := s1.clients - 1)
  }

  /** change_player_role to ROLE_OBSERVER. The hand goes before the turn is resolved, the role
      after it. */
  function BecomeObserver(s: State, rules: Rules, client: nat, delivered: bool): (s': State)
    requires Shaped(s.table)
    ensures Shaped(s'.table) && |s'.table.seats| == |s.table.seats|
  {
    var i := SeatOf(s.table.seats, client);
    if i == -1 || s.table.seats[i].role == ObserverRole then s
    else
      var s1 := s.(table := s.table.(seats := s.table.seats[i := s.table.seats[i].(hand := None)]));
      var s2 := Withdraw(s1, rules, i, delivered);
      s2.(table := s2.table.(seats := s2.table.seats[i := s2.table.seats[i].(role := ObserverRole)]))
  }

  predicate NobodyConnected(seats: seq<Player>) {
    forall i | 0 <= i < |seats| :: !seats[i].connected
  }

  /** The clients of the seats from i on are removed one after the other. */
  function RemoveFrom(s: State, rules: Rules, i: nat, delivered: bool): (s': State)
    requires Shaped(s.table) && i <= |s.table.seats|
    ensures Shaped(s'.table)
    decreases |s.table.seats| - i
  {
    if i == |s.table.seats| then s
    else if s.table.seats[i].id == 0 then RemoveFrom(s, rules, i + 1, delivered)
    else RemoveFrom(Remove(s, rules, s.table.seats[i].id, delivered), rules, i + 1, delivered)
  }

  /** USER_LEFT: the connection is gone, the seat is kept until nobody is connected. */
  function Left(s: State, rules: Rules, client: nat, delivered: bool): (s': State)
    requires Shaped(s.table)
    ensures Shaped(s'.table)
  {
    var i := SeatOf(s.table.seats, client);
    if i == -1 then s
    else
      var s1 := BecomeObserver(s, rules, client, delivered);
      var s2 := s1.(table := s1.table.(seats := s1.table.seats[i := s1.table.seats[i].(connected := false)]));
      if NobodyConnected(s2.table.seats) then RemoveFrom(s2, rules, 0, delivered) else s2
  }

  /** PKT_SESSION_CLOSE from the creator. */
  function Close(s: State, rules: Rules, delivered: bool): (s': State)
    requires Shaped(s.table)
    ensures Shaped(s'.table)
  {
    RemoveFrom(s.(phase := Inactive), rules, 0, delivered)
  }
}
