/** The seats over every sequence of messages that a session handles, in any phase of the game. */
module SeatRuns {
  import opened Turn
  import opened Game
  import opened SessionSpec
  import opened SeatInvariant
  import opened DealSpec

  /** LeaveRequest stands for PKT_SESSION_LEAVE and for USER_UNREGISTER, ConnectionLost for USER_LEFT. */
  datatype Message =
    | JoinRequest(client: nat, memory: seq<int>)
    | LeaveRequest(client: nat)
    | ConnectionLost(client: nat)
    | CloseRequest
    | StartRequest(lines: nat, ids: seq<int>, deck: seq<nat>)
    | Answer(client: nat, visible: int)
    | RowChoice(client: nat, row: nat)

  /** A message, and whether a request it leads to can be sent. */
  datatype Step = Step(message: Message, delivered: bool)

  /** What the server relies on: clients have ids, cards come from seated players, a row is one of the
      board's, and a deal fits. */
  ghost predicate Allowed(s: State, rules: Rules, m: Message)
    requires Shaped(s.table)
  {
    match m
    case JoinRequest(client, memory) => client != 0 && |memory| == rules.handSize
    case StartRequest(lines, ids, _) => lines + Needed(s.table.seats, rules.handSize, |s.table.seats|) <= |ids|
    case Answer(client, _) => s.phase == Waiting ==> SeatedPlayer(s, rules, client)
    case RowChoice(client, row) => AcceptsRow(s, client) ==> SeatOf(s.table.seats, client) != -1 && row < |s.table.rows|
    case _ => true
  }

  ghost function Handle(s: State, rules: Rules, step: Step): (s': State)
    requires Shaped(s.table) && Allowed(s, rules, step.message)
    ensures Shaped(s'.table)
  {
    match step.message
    case JoinRequest(client, memory) => Join(s, rules, client, memory)
    case LeaveRequest(client) => Remove(s, rules, client, step.delivered)
    case ConnectionLost(client) => Left(s, rules, client, step.delivered)
    case CloseRequest => Close(s, rules, step.delivered)
    case StartRequest(lines, ids, deck) => Deal(s, rules, lines, ids, deck)
    case Answer(client, visible) => Submit(s, rules, client, visible, step.delivered)
    case RowChoice(client, row) => Extra(s, rules, client, row, step.delivered)
  }

  lemma {:induction false} HandleKeepsSeats(s: State, rules: Rules, step: Step)
    requires SeatsOk(s, rules) && Allowed(s, rules, step.message)
    ensures SeatsOk(Handle(s, rules, step), rules)
  {
    match step.message
    case JoinRequest(client, memory) => JoinKeepsSeats(s, rules, client, memory);
    case LeaveRequest(client) => RemoveEmptiesSeat(s, rules, client, step.delivered);
    case ConnectionLost(client) => LeftKeepsSeats(s, rules, client, step.delivered);
    case CloseRequest => CloseEmptiesSeats(s, rules, step.delivered);
    case StartRequest(lines, ids, deck) => DealKeepsSeats(s, rules, lines, ids, deck);
    case Answer(client, visible) => SubmitKeepsSeats(s, rules, client, visible, step.delivered);
    case RowChoice(client, row) => ExtraKeepsSeats(s, rules, client, row, step.delivered);
  }

  ghost predicate AllAllowed(s: State, rules: Rules, steps: seq<Step>)
    requires Shaped(s.table)
    decreases |steps|
  {
    steps == [] || (Allowed(s, rules, steps[0].message) && AllAllowed(Handle(s, rules, steps[0]), rules, steps[1..]))
  }

  ghost function After(s: State, rules: Rules, steps: seq<Step>): State
    requires Shaped(s.table) && AllAllowed(s, rules, steps)
    decreases |steps|
  {
    if steps == [] then s else After(Handle(s, rules, steps[0]), rules, steps[1..])
  }

  lemma {:induction false} AfterKeepsSeats(s: State, rules: Rules, steps: seq<Step>)
    requires SeatsOk(s, rules) && AllAllowed(s, rules, steps)
    ensures SeatsOk(After(s, rules, steps), rules)
    decreases |steps|
  {
    if steps != [] {
      HandleKeepsSeats(s, rules, steps[0]);
      AfterKeepsSeats(Handle(s, rules, steps[0]), rules, steps[1..]);
    }
  }

  /** After any messages from an empty session: the two counters count the occupied and the playing
      seats, no more play than the rules allow, no client sits twice, and a seat without a client is
      one without a role. */
  lemma {:induction false} CountersAgree(s: State, rules: Rules, steps: seq<Step>)
    requires Shaped(s.table) && s.clients == 0 && s.active == 0
    requires forall i | 0 <= i < |s.table.seats| :: SeatOk(s.table.seats[i], rules) && s.table.seats[i].id == 0
    requires AllAllowed(s, rules, steps)
    ensures var s' := After(s, rules, steps);
            && s'.clients == Count(s'.table.seats, IsOccupied)
            && s'.active == Count(s'.table.seats, IsPlayer) <= rules.capacity
            && DistinctIds(s'.table.seats)
            && forall i | 0 <= i < |s'.table.seats| :: s'.table.seats[i].id == 0 <==> s'.table.seats[i].role == NoRole
  {
    CountZero(s.table.seats, IsOccupied);
    CountZero(s.table.seats, IsPlayer);
    AfterKeepsSeats(s, rules, steps);
    assert forall i | 0 <= i < |After(s, rules, steps).table.seats| ::
             SeatOk(After(s, rules, steps).table.seats[i], rules);
  }
}
