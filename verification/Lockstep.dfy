/** While nobody leaves, the players move in lockstep: a phase dealt to k players with hands of P
    cards lasts exactly P turns of k accepted cards each. */
module Lockstep {
  import opened Sums
  import opened Turn
  import opened TurnFold
  import opened Game
  import opened Hand
  import opened SessionSpec
  import opened SeatInvariant
  import opened DealSpec
  import opened Conservation
  import opened Runs

  /** The cards left in a hand. */
  function Held(p: Player): nat { Sum(HandOf(p), One) }

  function InSlot(card: int): nat { if card == -1 then 0 else 1 }

  /** left turns are still to be completed, and every player has exactly the cards for them. */
  ghost predicate InStep(s: State, rules: Rules, left: nat)
    requires Shaped(s.table)
  {
    && (forall i | 0 <= i < |s.table.seats| && IsPlayer(s.table.seats[i]) ::
          Held(s.table.seats[i]) + InSlot(s.table.ready[i]) == left)
    && s.active >= 1
    && s.readyCount == Pending(s.table)
    && (s.phase == Waiting ==> left >= 1 && s.readyCount < s.active)
    && (s.phase == WaitingExtra ==> left >= 1 && s.readyCount == s.active)
    && (s.phase == Inactive ==> left == 0)
  }

  // ---------------------------------------------------------------- counting

  lemma {:induction false} ReadyArePlayers(ready: seq<int>, seats: seq<Player>)
    requires |ready| == |seats|
    requires forall i | 0 <= i < |ready| && ready[i] != -1 :: IsPlayer(seats[i])
    ensures Sum(ready, One) <= Count(seats, IsPlayer)
    ensures Sum(ready, One) == Count(seats, IsPlayer) ==>
              forall i | 0 <= i < |ready| && IsPlayer(seats[i]) :: ready[i] != -1
  {
    if ready != [] {
      var n := |ready| - 1;
      assert forall i | 0 <= i < n :: ready[..n][i] == ready[i] && seats[..n][i] == seats[i];
      ReadyArePlayers(ready[..n], seats[..n]);
      forall i | 0 <= i < n && IsPlayer(seats[i]) && Sum(ready, One) == Count(seats, IsPlayer) ensures ready[i] != -1 {
        assert IsPlayer(seats[..n][i]);
      }
    }
  }

  lemma {:induction false} SomePlayer(seats: seq<Player>)
    requires Count(seats, IsPlayer) >= 1
    ensures exists i :: 0 <= i < |seats| && IsPlayer(seats[i])
  {
    CountZero(seats, IsPlayer);
  }

  /** checking_cards says whether a player holds nothing. */
  lemma {:induction false} EmptyIsHeldNothing(p: Player, rules: Rules)
    requires SeatOk(p, rules) && IsPlayer(p)
    ensures HandEmpty(p, rules.handSize) <==> Held(p) == 0
  {
    SumOneZero(p.hand.value);
  }

  /** With hands of equal size, someone is finished exactly when everybody is. */
  lemma {:induction false} FinishedTogether(seats: seq<Player>, rules: Rules, left: nat)
    requires forall i | 0 <= i < |seats| :: SeatOk(seats[i], rules)
    requires Count(seats, IsPlayer) >= 1
    requires forall i | 0 <= i < |seats| && IsPlayer(seats[i]) :: Held(seats[i]) == left
    ensures SomeoneFinished(seats, rules.handSize) <==> left == 0
  {
    SomePlayer(seats);
    forall i | 0 <= i < |seats| && IsPlayer(seats[i]) ensures HandEmpty(seats[i], rules.handSize) <==> left == 0 {
      EmptyIsHeldNothing(seats[i], rules);
    }
    if left == 0 {
      var i :| 0 <= i < |seats| && IsPlayer(seats[i]);
      assert SeatOk(seats[i], rules);
      assert HandEmpty(seats[i], rules.handSize);
    }
  }

  // ---------------------------------------------------------------- one turn

  /** A resolution that empties the slots completes the turn, and the last turn ends the phase. */
  lemma {:induction false} TurnCompletes(s: State, rules: Rules, left: nat)
    requires Shaped(s.table) && left >= 1
    requires forall i | 0 <= i < |s.table.seats| :: SeatOk(s.table.seats[i], rules)
    requires s.active == Count(s.table.seats, IsPlayer) && s.active >= 1
    requires forall i | 0 <= i < |s.table.seats| && IsPlayer(s.table.seats[i]) :: Held(s.table.seats[i]) == left - 1
    requires NextSlot(Settle(s.table, rules.lineLen, s.deck)) == -1
    ensures var placed := PlaceAll(s, rules);
            && placed.1 == (if left == 1 then PHASE_DONE else TURN_DONE)
            && InStep(Handled(placed), rules, left - 1)
            && Handled(placed).readyCount == 0 && Handled(placed).active == s.active
            && Handled(placed).phase == (if left == 1 then Inactive else Waiting)
  {
    var t := Settle(s.table, rules.lineLen, s.deck);
    SettleKeepsSeats(s.table, rules.lineLen, s.deck);
    CountSame(s.table.seats, t.seats, IsPlayer);
    forall i | 0 <= i < |t.seats|
      ensures SeatOk(t.seats[i], rules) && (IsPlayer(t.seats[i]) ==> Held(t.seats[i]) == left - 1)
    {
      assert SeatOk(s.table.seats[i], rules);
    }
    FinishedTogether(t.seats, rules, left - 1);
    SumOneZero(t.ready);
  }

  /** Slots and hands together hold the cards for the turns left. */
  ghost predicate Counted(s: State, rules: Rules, left: nat) {
    && Shaped(s.table) && s.active >= 1
    && (forall i | 0 <= i < |s.table.seats| :: SeatOk(s.table.seats[i], rules))
    && s.active == Count(s.table.seats, IsPlayer)
    && s.readyCount == Pending(s.table)
    && (forall i | 0 <= i < |s.table.seats| && IsPlayer(s.table.seats[i]) ::
          Held(s.table.seats[i]) + InSlot(s.table.ready[i]) == left)
  }

  /** An accepted card: one more in a slot, one fewer in that hand. */
  lemma {:induction false} AcceptedCard(s: State, rules: Rules, left: nat, client: nat, visible: int)
    requires SeatsOk(s, rules) && InStep(s, rules, left) && s.phase == Waiting
    requires SeatedPlayer(s, rules, client) && Accepts(s, rules, client, visible)
    ensures var s1 := InfoReturn(s, rules, client, visible);
            && Counted(s1, rules, left)
            && s1.readyCount == s.readyCount + 1 && s1.active == s.active && s1.phase == Waiting
  {
    var s1 := InfoReturn(s, rules, client, visible);
    var i := SeatOf(s.table.seats, client);
    var hand := s.table.seats[i].hand.value;
    var place := ChosenPlace(s, rules, client, visible);
    SumUpdate(hand, place, -1, One);
    SumUpdate(s.table.ready, i, hand[place], One);
    CountUpdate(s.table.seats, i, s1.table.seats[i], IsPlayer);
    assert SeatOk(s.table.seats[i], rules);
  }

  // ---------------------------------------------------------------- what an event does

  /** Nobody leaves in a run of these. */
  predicate Stays(e: Event) { !e.Leaves? && !e.LosesConnection? }

  ghost predicate CardAccepted(s: State, rules: Rules, e: Event)
    requires Shaped(s.table) && Allowed(s, rules, e)
  {
    e.Answers? && Accepts(s, rules, e.client, e.visible)
  }

  /** The code returned to handle_result_of_play: 0 when nothing was resolved. */
  ghost function Code(s: State, rules: Rules, e: Event): int
    requires Shaped(s.table) && Allowed(s, rules, e)
  {
    match e
    case Joins(_, _) => 0
    case Leaves(_) => 0
    case LosesConnection(_) => 0
    case Answers(client, visible) => StartMove(InfoReturn(s, rules, client, visible), rules).1
    case Chooses(client, row) =>
      if AcceptsRow(s, client) then
        var t := TakeRow(s.table, s.deck, row, SeatOf(s.table.seats, client));
        PlaceAll(s.(table := t), rules).1
      else 0
  }

  /** A turn was completed. */
  predicate Completes(code: int) { code == TURN_DONE || code == PHASE_DONE }

  /** One event in numbers, for k players with left turns to complete and rc occupied slots: the
      players stay in step; a turn is completed when the k-th card is in and no slot is occupied
      any more; the end is reported by the last turn alone. */
  ghost predicate Numbers(s': State, rules: Rules, k: int, left: nat, rc: int, code: int, accepted: int) {
    && Shaped(s'.table) && s'.active == k
    && (code == PHASE_DONE <==> Completes(code) && left == 1)
    && if Completes(code) then
         left >= 1 && InStep(s', rules, left - 1) && rc + accepted == k && s'.readyCount == 0
       else
         InStep(s', rules, left) && s'.readyCount == rc + accepted
  }

  ghost predicate StepOk(s: State, rules: Rules, left: nat, e: Event)
    requires Shaped(s.table) && Allowed(s, rules, e)
  {
    var accepted := if CardAccepted(s, rules, e) then 1 else 0;
    Numbers(Next(s, rules, e), rules, s.active, left, s.readyCount, Code(s, rules, e), accepted)
  }

  lemma {:induction false} InfoReturnPlayable(s: State, rules: Rules, undealt: seq<int>, client: nat, visible: int)
    requires Inv(s, rules, undealt, []) && Allowed(s, rules, Answers(client, visible))
    ensures Playable(InfoReturn(s, rules, client, visible).table)
  {
    var s1 := InfoReturn(s, rules, client, visible);
    forall w: int -> nat ensures OnTable(s1.table, w) == OnTable(s.table, w) {
      InfoReturnConserves(s, rules, client, visible, w);
    }
    KeepsConserved(s.table, s1.table, |s.deck|, undealt, []);
    ConservedPlayable(s1.table, rules.lineLen, |s.deck|, undealt, []);
  }

  /** An answer in two steps: the card is put in its slot, and the turn is resolved if it was the
      last one. */
  lemma {:induction false} SubmitIs(s: State, rules: Rules, client: nat, visible: int)
    requires SeatsOk(s, rules) && Owned(s.table) && Allowed(s, rules, Answers(client, visible))
    ensures var s1 := InfoReturn(s, rules, client, visible);
            if EveryoneReady(s1) then
              && StartMove(s1, rules) == PlaceAll(s1.(phase := Playing), rules)
              && Submit(s, rules, client, visible, true) == Handled(PlaceAll(s1.(phase := Playing), rules))
            else
              Submit(s, rules, client, visible, true) == s1 && StartMove(s1, rules).1 == 0
  {
    InfoReturnConserves(s, rules, client, visible, One);
    ClearVacantNothing(InfoReturn(s, rules, client, visible).table);
  }

  ghost function Handled(placed: (State, int)): State {
    HandleResult(placed.0, placed.1, true)
  }

  lemma {:induction false} LastAnswer(s: State, rules: Rules, undealt: seq<int>, left: nat, client: nat, visible: int)
    requires Inv(s, rules, undealt, []) && InStep(s, rules, left) && Allowed(s, rules, Answers(client, visible))
    requires s.phase == Waiting && Accepts(s, rules, client, visible)
    requires EveryoneReady(InfoReturn(s, rules, client, visible))
    ensures var placed := PlaceAll(InfoReturn(s, rules, client, visible).(phase := Playing), rules);
            Numbers(Handled(placed), rules, s.active, left, s.readyCount, placed.1, 1)
  {
    AcceptedCard(s, rules, left, client, visible);
    InfoReturnPlayable(s, rules, undealt, client, visible);
    InfoReturnConserves(s, rules, client, visible, One);
    LastCard(InfoReturn(s, rules, client, visible), rules, left);
  }

  lemma {:induction false} LastCard(s1: State, rules: Rules, left: nat)
    requires Playable(s1.table) && Owned(s1.table) && s1.phase == Waiting && left >= 1
    requires Counted(s1, rules, left) && s1.readyCount >= s1.active
    ensures var placed := PlaceAll(s1.(phase := Playing), rules);
            Numbers(Handled(placed), rules, s1.active, left, s1.readyCount - 1, placed.1, 1)
  {
    AllReady(s1, rules, left);
  }

  lemma {:induction false} AcceptedAnswer(s: State, rules: Rules, undealt: seq<int>, left: nat, client: nat,
                                          visible: int)
    requires Inv(s, rules, undealt, []) && InStep(s, rules, left) && Allowed(s, rules, Answers(client, visible))
    requires s.phase == Waiting && Accepts(s, rules, client, visible)
    ensures StepOk(s, rules, left, Answers(client, visible))
  {
    SubmitIs(s, rules, client, visible);
    if EveryoneReady(InfoReturn(s, rules, client, visible)) {
      LastAnswer(s, rules, undealt, left, client, visible);
    } else {
      AcceptedCard(s, rules, left, client, visible);
    }
  }

  lemma {:induction false} RefusedAnswer(s: State, rules: Rules, undealt: seq<int>, left: nat, client: nat,
                                         visible: int)
    requires Inv(s, rules, undealt, []) && InStep(s, rules, left) && Allowed(s, rules, Answers(client, visible))
    requires !(s.phase == Waiting && Accepts(s, rules, client, visible))
    ensures StepOk(s, rules, left, Answers(client, visible))
  {
    if s.phase == WaitingExtra {
      StrayAnswerChangesNothing(s, rules, undealt, [], client, visible);
      AwaitedSlot(s, rules);
    } else {
      SubmitIs(s, rules, client, visible);
    }
  }

  /** The last card of a turn has come in. */
  lemma {:induction false} AllReady(s1: State, rules: Rules, left: nat)
    requires Playable(s1.table) && Owned(s1.table) && s1.phase == Waiting && left >= 1
    requires Counted(s1, rules, left) && s1.readyCount >= s1.active
    ensures s1.readyCount == s1.active
    ensures var placed := PlaceAll(s1.(phase := Playing), rules);
            var s' := Handled(placed);
            && s'.active == s1.active
            && if s'.phase == WaitingExtra then
              placed.1 > 0 && InStep(s', rules, left) && s'.readyCount == s1.readyCount
            else
              && placed.1 == (if left == 1 then PHASE_DONE else TURN_DONE)
              && InStep(s', rules, left - 1) && s'.readyCount == 0
  {
    ReadyArePlayers(s1.table.ready, s1.table.seats);
    var t := Settle(s1.table, rules.lineLen, s1.deck);
    if Suspended(t) {
      SuspendsOnlyFirst(s1.table, rules.lineLen, s1.deck);
      assert SeatOk(t.seats[NextSlot(t)], rules);
    } else {
      TurnCompletes(s1.(phase := Playing), rules, left);
    }
  }

  /** In everybody's hand one card fewer than before the turn. */
  lemma {:induction false} HeldInTurn(s: State, t: Table, rules: Rules, left: nat)
    requires SeatsOk(s, rules) && InStep(s, rules, left) && s.phase == WaitingExtra && Owned(s.table)
    requires SameSeats(s.table.seats, t.seats)
    ensures Count(t.seats, IsPlayer) == s.active
    ensures forall j | 0 <= j < |t.seats| ::
              SeatOk(t.seats[j], rules) && (IsPlayer(t.seats[j]) ==> Held(t.seats[j]) == left - 1)
  {
    CountSame(s.table.seats, t.seats, IsPlayer);
    ReadyArePlayers(s.table.ready, s.table.seats);
    forall j | 0 <= j < |t.seats|
      ensures SeatOk(t.seats[j], rules) && (IsPlayer(t.seats[j]) ==> Held(t.seats[j]) == left - 1)
    {
      assert SeatOk(s.table.seats[j], rules) && t.seats[j] == s.table.seats[j].(heads := t.seats[j].heads);
    }
  }

  lemma {:induction false} ChoiceEmpties(s: State, rules: Rules, undealt: seq<int>, row: nat)
    requires Inv(s, rules, undealt, []) && s.phase == WaitingExtra && row < |s.table.rows|
    ensures NextSlot(Settle(TakeRow(s.table, s.deck, row, NextSlot(s.table)), rules.lineLen, s.deck)) == -1
  {
    ConservedPlayable(s.table, rules.lineLen, |s.deck|, undealt, []);
    NoSecondChoice(s.table, rules.lineLen, s.deck, row);
  }

  lemma {:induction false} ChosenTurn(s: State, t: Table, rules: Rules, left: nat)
    requires Shaped(t) && |t.seats| == |s.table.seats| && left >= 1 && s.active >= 1
    requires Count(t.seats, IsPlayer) == s.active && s.readyCount == s.active
    requires forall j | 0 <= j < |t.seats| ::
               SeatOk(t.seats[j], rules) && (IsPlayer(t.seats[j]) ==> Held(t.seats[j]) == left - 1)
    requires NextSlot(Settle(t, rules.lineLen, s.deck)) == -1
    ensures var placed := PlaceAll(s.(table := t), rules);
            Numbers(Handled(placed), rules, s.active, left, s.readyCount, placed.1, 0)
  {
    TurnCompletes(s.(table := t), rules, left);
  }

  lemma {:induction false} ChoiceCompletes(s: State, rules: Rules, undealt: seq<int>, left: nat, row: nat)
    requires Inv(s, rules, undealt, []) && InStep(s, rules, left) && s.phase == WaitingExtra && row < |s.table.rows|
    ensures var placed := PlaceAll(s.(table := TakeRow(s.table, s.deck, row, NextSlot(s.table))), rules);
            Numbers(Handled(placed), rules, s.active, left, s.readyCount, placed.1, 0)
  {
    var t := TakeRow(s.table, s.deck, row, NextSlot(s.table));
    ChoiceEmpties(s, rules, undealt, row);
    HeldInTurn(s, t, rules, left);
    ChosenTurn(s, t, rules, left);
  }

  lemma {:induction false} ChoiceKeepsStep(s: State, rules: Rules, undealt: seq<int>, left: nat, client: nat, row: nat)
    requires Inv(s, rules, undealt, []) && InStep(s, rules, left) && Allowed(s, rules, Chooses(client, row))
    ensures StepOk(s, rules, left, Chooses(client, row))
  {
    if AcceptsRow(s, client) {
      AwaitedSlot(s, rules);
      ChoiceCompletes(s, rules, undealt, left, row);
      ExtraIs(s, rules, client, row);
    }
  }

  lemma {:induction false} ExtraIs(s: State, rules: Rules, client: nat, row: nat)
    requires Shaped(s.table) && Allowed(s, rules, Chooses(client, row)) && AcceptsRow(s, client)
    requires SeatOf(s.table.seats, client) == NextSlot(s.table)
    ensures var placed := PlaceAll(s.(table := TakeRow(s.table, s.deck, row, NextSlot(s.table))), rules);
            Next(s, rules, Chooses(client, row)) == Handled(placed) && Code(s, rules, Chooses(client, row)) == placed.1
  {
  }

  lemma {:induction false} JoinKeepsStep(s: State, rules: Rules, left: nat, client: nat, memory: seq<int>)
    requires SeatsOk(s, rules) && InStep(s, rules, left) && Allowed(s, rules, Joins(client, memory))
    ensures StepOk(s, rules, left, Joins(client, memory))
  {
  }

  // ---------------------------------------------------------------- whole phases

  ghost predicate NobodyLeaves(es: seq<Event>) {
    forall i | 0 <= i < |es| :: Stays(es[i])
  }

  /** The cards accepted, the turns completed and the ends of phase reported in a run. */
  datatype Tally = Tally(accepted: nat, turns: nat, ends: nat)

  function Plus(a: Tally, b: Tally): Tally {
    Tally(a.accepted + b.accepted, a.turns + b.turns, a.ends + b.ends)
  }

  ghost function EventTally(s: State, rules: Rules, e: Event): Tally
    requires Shaped(s.table) && Allowed(s, rules, e)
  {
    var code := Code(s, rules, e);
    Tally(if CardAccepted(s, rules, e) then 1 else 0, if Completes(code) then 1 else 0,
          if code == PHASE_DONE then 1 else 0)
  }

  ghost function TallyOf(s: State, rules: Rules, es: seq<Event>): Tally
    requires Shaped(s.table) && AllAllowed(s, rules, es)
    decreases |es|
  {
    if es == [] then Tally(0, 0, 0)
    else Plus(EventTally(s, rules, es[0]), TallyOf(Next(s, rules, es[0]), rules, es[1..]))
  }

  lemma {:induction false} StepTally(s: State, rules: Rules, undealt: seq<int>, left: nat, e: Event)
    requires Inv(s, rules, undealt, []) && InStep(s, rules, left) && Allowed(s, rules, e) && Stays(e)
    ensures StepOk(s, rules, left, e)
  {
    match e
    case Joins(client, memory) => JoinKeepsStep(s, rules, left, client, memory);
    case Answers(client, visible) =>
      if s.phase == Waiting && Accepts(s, rules, client, visible) {
        AcceptedAnswer(s, rules, undealt, left, client, visible);
      } else {
        RefusedAnswer(s, rules, undealt, left, client, visible);
      }
    case Chooses(client, row) => ChoiceKeepsStep(s, rules, undealt, left, client, row);
  }

  ghost predicate RunNumbers(s': State, rules: Rules, k: int, left: nat, rc: int, t: Tally) {
    && Shaped(s'.table) && s'.active == k
    && t.turns <= left
    && InStep(s', rules, left - t.turns)
    && t.accepted + rc == k * t.turns + s'.readyCount
    && t.ends == (if left > 0 && t.turns == left then 1 else 0)
  }

  lemma {:induction false} NumbersOnce(s': State, rules: Rules, k: int, left: nat, rc: int, code: int, t: Tally)
    requires Numbers(s', rules, k, left, rc, code, t.accepted)
    requires t.turns == (if Completes(code) then 1 else 0) && t.ends == (if code == PHASE_DONE then 1 else 0)
    ensures RunNumbers(s', rules, k, left, rc, t)
  {
    assert k * 1 == k && k * 0 == 0;
  }

  lemma {:induction false} NumbersAdd(s1: State, s': State, rules: Rules, k: int, left: nat, rc: int, a: Tally,
                                      b: Tally)
    requires RunNumbers(s1, rules, k, left, rc, a) && RunNumbers(s', rules, k, left - a.turns, s1.readyCount, b)
    ensures RunNumbers(s', rules, k, left, rc, Plus(a, b))
  {
    assert k * (a.turns + b.turns) == k * a.turns + k * b.turns;
  }

  ghost predicate Good(s: State, rules: Rules, undealt: seq<int>, left: nat) {
    Inv(s, rules, undealt, []) && InStep(s, rules, left)
  }

  lemma {:induction false} RunStep(s: State, rules: Rules, undealt: seq<int>, left: nat, e: Event)
    requires Good(s, rules, undealt, left) && Allowed(s, rules, e) && Stays(e)
    ensures RunNumbers(Next(s, rules, e), rules, s.active, left, s.readyCount, EventTally(s, rules, e))
    ensures Good(Next(s, rules, e), rules, undealt, left - EventTally(s, rules, e).turns)
  {
    StepTally(s, rules, undealt, left, e);
    NumbersOnce(Next(s, rules, e), rules, s.active, left, s.readyCount, Code(s, rules, e), EventTally(s, rules, e));
    NextOk(s, rules, undealt, [], e);
  }

  lemma {:induction false} RunTally(s: State, rules: Rules, undealt: seq<int>, left: nat, es: seq<Event>)
    requires Good(s, rules, undealt, left) && AllAllowed(s, rules, es) && NobodyLeaves(es)
    ensures RunNumbers(After(s, rules, es), rules, s.active, left, s.readyCount, TallyOf(s, rules, es))
    decreases |es|, 0
  {
    if es != [] {
      assert Stays(es[0]);
      RunStep(s, rules, undealt, left, es[0]);
      RunOn(Next(s, rules, es[0]), s, rules, undealt, left, es);
    } else {
      assert s.active * 0 == 0;
    }
  }

  /** The rest of a run after its first event. */
  lemma {:induction false} RunOn(s1: State, s: State, rules: Rules, undealt: seq<int>, left: nat, es: seq<Event>)
    requires Shaped(s.table) && AllAllowed(s, rules, es) && NobodyLeaves(es) && es != [] && s1 == Next(s, rules, es[0])
    requires RunNumbers(s1, rules, s.active, left, s.readyCount, EventTally(s, rules, es[0]))
    requires Good(s1, rules, undealt, left - EventTally(s, rules, es[0]).turns)
    ensures RunNumbers(After(s, rules, es), rules, s.active, left, s.readyCount, TallyOf(s, rules, es))
    decreases |es| - 1, 1
  {
    var a := EventTally(s, rules, es[0]);
    RunTally(s1, rules, undealt, left - a.turns, es[1..]);
    NumbersAdd(s1, After(s1, rules, es[1..]), rules, s.active, left, s.readyCount, a, TallyOf(s1, rules, es[1..]));
  }

  /** After the deal every player holds a full hand. */
  lemma {:induction false} DealInStep(s: State, rules: Rules, lines: nat, ids: seq<int>, deck: seq<nat>)
    requires DealFits(s, rules, lines, ids, deck) && rules.handSize >= 1 && s.active >= 1 && s.readyCount == 0
    ensures var d := Deal(s, rules, lines, ids, deck);
            InStep(d, rules, rules.handSize) && d.active == s.active && d.readyCount == 0
  {
    var d := Deal(s, rules, lines, ids, deck);
    DealHandsSeats(s.table.seats, ids, lines, rules, |s.table.seats|);
    SumNone(s.table.ready, One);
    forall i | 0 <= i < |d.table.seats| && IsPlayer(d.table.seats[i]) ensures Held(d.table.seats[i]) == rules.handSize {
      assert SeatOk(d.table.seats[i], rules) && IsPlayer(s.table.seats[i]);
      assert HandFrom(d.table.seats[i], ids);
      FullHand(HandOf(d.table.seats[i]));
    }
  }

  lemma {:induction false} FullHand(hand: seq<int>)
    requires forall i | 0 <= i < |hand| :: hand[i] != -1
    ensures Sum(hand, One) == |hand|
  {
    if hand != [] { FullHand(hand[..|hand| - 1]); }
  }

  /** The numbers of a run that started with full hands. */
  ghost predicate PhaseNumbers(s': State, rules: Rules, k: nat, t: Tally)
    requires Shaped(s'.table)
  {
    && t.turns <= rules.handSize
    && t.accepted == k * t.turns + s'.readyCount
    && s'.readyCount == Pending(s'.table) <= k
    && (forall i | 0 <= i < |s'.table.seats| && IsPlayer(s'.table.seats[i]) ::
          Held(s'.table.seats[i]) + InSlot(s'.table.ready[i]) == rules.handSize - t.turns)
    && (s'.phase == Inactive <==> t.turns == rules.handSize)
    && t.ends == (if t.turns == rules.handSize then 1 else 0)
    && (s'.phase == Inactive ==> t.accepted == k * rules.handSize)
  }

  lemma {:induction false} NumbersOfPhase(s': State, rules: Rules, k: nat, t: Tally)
    requires RunNumbers(s', rules, k, rules.handSize, 0, t) && rules.handSize >= 1
    requires Pending(s'.table) <= k && (s'.phase == Inactive ==> Pending(s'.table) == 0) && s'.phase != Playing
    ensures PhaseNumbers(s', rules, k, t)
  {
    if t.turns == rules.handSize { assert k * t.turns == k * rules.handSize; }
  }

  lemma {:induction false} PhaseRun(d: State, rules: Rules, undealt: seq<int>, es: seq<Event>)
    requires Inv(d, rules, undealt, []) && rules.handSize >= 1 && d.readyCount == 0
    requires InStep(d, rules, rules.handSize) && AllAllowed(d, rules, es) && NobodyLeaves(es)
    ensures PhaseNumbers(After(d, rules, es), rules, d.active, TallyOf(d, rules, es))
  {
    RunTally(d, rules, undealt, rules.handSize, es);
    AfterOk(d, rules, undealt, [], es);
    PendingPlayers(After(d, rules, es), rules, undealt, GoneIn(d, rules, [], es));
    NumbersOfPhase(After(d, rules, es), rules, d.active, TallyOf(d, rules, es));
  }

  lemma {:induction false} PendingPlayers(s: State, rules: Rules, undealt: seq<int>, gone: seq<int>)
    requires Inv(s, rules, undealt, gone)
    ensures Pending(s.table) <= s.active && (s.phase == Inactive ==> Pending(s.table) == 0)
  {
    SumOneZero(s.table.ready);
    ReadyArePlayers(s.table.ready, s.table.seats);
  }

  /** A phase for k players with hands of P cards: after any run without departures, k cards have
      been accepted for each completed turn and one for each occupied slot; P turns at most are
      completed, the phase is over exactly after P of them, that is when k * P cards were accepted
      and no player holds a card, and the end is reported exactly once, by the last turn. */
  lemma {:induction false} PhaseLasts(s: State, rules: Rules, lines: nat, ids: seq<int>, deck: seq<nat>, es: seq<Event>)
    requires DealFits(s, rules, lines, ids, deck) && rules.handSize >= 1 && s.active >= 1 && s.readyCount == 0
    requires AllAllowed(Deal(s, rules, lines, ids, deck), rules, es) && NobodyLeaves(es)
    ensures var d := Deal(s, rules, lines, ids, deck);
            PhaseNumbers(After(d, rules, es), rules, s.active, TallyOf(d, rules, es))
  {
    DealOk(s, rules, lines, ids, deck);
    DealInStep(s, rules, lines, ids, deck);
    PhaseRun(Deal(s, rules, lines, ids, deck), rules, Undealt(s, rules, lines, ids), es);
  }

  // ---------------------------------------------------------------- progress

  lemma {:induction false} SomeoneUnready(ready: seq<int>, seats: seq<Player>)
    requires |ready| == |seats| && Sum(ready, One) < Count(seats, IsPlayer)
    ensures exists i :: 0 <= i < |seats| && IsPlayer(seats[i]) && ready[i] == -1
  {
    if ready != [] {
      var n := |ready| - 1;
      if IsPlayer(seats[n]) && ready[n] == -1 {
      } else {
        SomeoneUnready(ready[..n], seats[..n]);
        var i :| 0 <= i < n && IsPlayer(seats[..n][i]) && ready[..n][i] == -1;
        assert IsPlayer(seats[i]) && ready[i] == -1;
      }
    }
  }

  /** As many cards are shown as are held. */
  lemma {:induction false} ShownIsHeld(cards: seq<int>, n: nat)
    requires n <= |cards|
    ensures |Visible(cards, n)| == Sum(cards[..n], One)
  {
    if n > 0 {
      ShownIsHeld(cards, n - 1);
      assert cards[..n][..n - 1] == cards[..n - 1];
    }
  }

  /** The player in seat i has not answered, is shown as many cards as turns are left, and may answer
      with any of them. */
  ghost predicate CanAnswer(s: State, rules: Rules, i: nat, left: nat)
    requires Shaped(s.table)
  {
    && i < |s.table.seats| && IsPlayer(s.table.seats[i]) && s.table.ready[i] == -1
    && s.table.seats[i].hand.Some? && |s.table.seats[i].hand.value| == rules.handSize
    && s.phase == Waiting && SeatedPlayer(s, rules, s.table.seats[i].id)
    && |Visible(s.table.seats[i].hand.value, rules.handSize)| == left >= 1
    && forall v | 0 <= v < left :: Accepts(s, rules, s.table.seats[i].id, v)
  }

  lemma {:induction false} UnreadyCanAnswer(s: State, rules: Rules, left: nat, i: nat)
    requires SeatsOk(s, rules) && InStep(s, rules, left) && s.phase == Waiting
    requires i < |s.table.seats| && IsPlayer(s.table.seats[i]) && s.table.ready[i] == -1
    ensures CanAnswer(s, rules, i, left)
  {
    assert SeatOk(s.table.seats[i], rules);
    SeatOfIs(s, rules, i);
    var hand := s.table.seats[i].hand.value;
    ShownIsHeld(hand, rules.handSize);
    assert hand[..rules.handSize] == hand;
  }

  /** The awaited player may choose this row, and it ends the turn. */
  ghost predicate EndsTurn(s: State, rules: Rules, row: nat)
    requires Shaped(s.table)
  {
    && AcceptsRow(s, s.waitFrom) && Allowed(s, rules, Chooses(s.waitFrom, row))
    && var s' := Next(s, rules, Chooses(s.waitFrom, row));
    (s'.phase == Waiting || s'.phase == Inactive) && s'.readyCount == 0
  }

  /** The phase is over, or somebody can answer, or any row ends the turn. */
  ghost predicate GoesOn(s: State, rules: Rules, left: nat)
    requires Shaped(s.table)
  {
    match s.phase
    case Inactive => left == 0
    case Waiting => exists i: nat :: CanAnswer(s, rules, i, left)
    case WaitingExtra => forall row: nat | row < |s.table.rows| :: EndsTurn(s, rules, row)
    case Playing => false
  }

  lemma {:induction false} NeverStuck(s: State, rules: Rules, undealt: seq<int>, gone: seq<int>, left: nat)
    requires Inv(s, rules, undealt, gone) && InStep(s, rules, left)
    ensures GoesOn(s, rules, left)
  {
    match s.phase
    case Waiting =>
      SomeoneUnready(s.table.ready, s.table.seats);
      var i: nat :| i < |s.table.seats| && IsPlayer(s.table.seats[i]) && s.table.ready[i] == -1;
      UnreadyCanAnswer(s, rules, left, i);
    case WaitingExtra =>
      AwaitedSlot(s, rules);
      forall row: nat | row < |s.table.rows| ensures EndsTurn(s, rules, row) {
        ChoiceEndsTurn(s, rules, undealt, gone, row);
      }
    case _ =>
  }

  lemma {:induction false} NumbersGoOn(s: State, rules: Rules, undealt: seq<int>, gone: seq<int>, k: int, left: nat,
                                       rc: int, t: Tally)
    requires Inv(s, rules, undealt, gone) && RunNumbers(s, rules, k, left, rc, t)
    ensures GoesOn(s, rules, left - t.turns)
  {
    NeverStuck(s, rules, undealt, gone, left - t.turns);
  }

  /** A deal starts a phase in step. */
  lemma {:induction false} DealGood(s: State, rules: Rules, lines: nat, ids: seq<int>, deck: seq<nat>)
    requires DealFits(s, rules, lines, ids, deck) && rules.handSize >= 1 && s.active >= 1 && s.readyCount == 0
    ensures Good(Deal(s, rules, lines, ids, deck), rules, Undealt(s, rules, lines, ids), rules.handSize)
  {
    DealOk(s, rules, lines, ids, deck);
    DealInStep(s, rules, lines, ids, deck);
  }

  /** After any run without departures the game goes on until all turns are completed: while cards are
      awaited some player has an empty slot and may play any card he is shown, and while a row is
      awaited any row ends the turn. */
  lemma {:induction false} RunGoesOn(d: State, rules: Rules, undealt: seq<int>, left: nat, es: seq<Event>)
    returns (s': State, t: Tally)
    requires Shaped(d.table) && AllAllowed(d, rules, es) && NobodyLeaves(es)
    ensures s' == After(d, rules, es) && t == TallyOf(d, rules, es)
    ensures Good(d, rules, undealt, left) ==> t.turns <= left && GoesOn(s', rules, left - t.turns)
  {
    s', t := After(d, rules, es), TallyOf(d, rules, es);
    if Good(d, rules, undealt, left) {
      RunTally(d, rules, undealt, left, es);
      AfterOk(d, rules, undealt, [], es);
      NumbersGoOn(s', rules, undealt, GoneIn(d, rules, [], es), d.active, left, d.readyCount, t);
    }
  }
}
