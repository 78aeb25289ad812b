/** The uint8_t score of a seat against the heads of the cards it has taken. */
module Scores {
  import opened Options
  import opened Sums
  import opened Turn
  import opened Game
  import opened SessionSpec
  import opened DealSpec
  import opened HeadShares
  import opened Runs

  /** A score that started at start and gained some heads. */
  predicate ScoreIs(score: nat, start: nat, gain: nat) {
    score == (start + gain) % 256
  }

  lemma {:induction false} ScoreMore(score: nat, start: nat, gain: nat, more: nat)
    requires ScoreIs(score, start, gain)
    ensures ScoreIs((score + more) % 256, start, gain + more)
  {
  }

  /** Each score is the score at the deal plus the heads of the cards taken since, modulo 256. */
  ghost predicate Scored(t: Table, deck: seq<nat>, start: seq<nat>) {
    && |start| == |t.seats| == |t.won|
    && forall i | 0 <= i < |start| :: ScoreIs(t.seats[i].heads, start[i], Sum(t.won[i], HeadsOn(deck)))
  }

  lemma {:induction false} TakeScores(t: Table, deck: seq<nat>, start: seq<nat>, r: nat, i: nat)
    requires Shaped(t) && r < |t.rows| && i < |t.ready| && Scored(t, deck, start)
    ensures Scored(TakeRow(t, deck, r, i), deck, start)
  {
    var w := HeadsOn(deck);
    SumAppend(t.won[i], t.rows[r], w);
    ScoreMore(t.seats[i].heads, start[i], Sum(t.won[i], w), Sum(t.rows[r], w));
  }

  lemma {:induction false} SettleScores(t: Table, len: nat, deck: seq<nat>, start: seq<nat>)
    requires Shaped(t) && Scored(t, deck, start)
    ensures Scored(Settle(t, len, deck), deck, start)
    decreases Pending(t)
  {
    var i := NextSlot(t);
    if i != -1 && NextRow(t) != -1 {
      PlayCardPending(t, len, deck, NextRow(t), i);
      TakeScores(t, deck, start, NextRow(t), i);
      SettleScores(PlayCard(t, len, deck, NextRow(t), i), len, deck, start);
    }
  }

  lemma {:induction false} ResolveScores(s: State, rules: Rules, start: seq<nat>)
    requires Shaped(s.table) && Scored(s.table, s.deck, start)
    ensures Scored(Resolve(s, rules, true).table, s.deck, start)
  {
    if EveryoneReady(s) { SettleScores(ClearVacant(s.table), rules.lineLen, s.deck, start); }
  }

  lemma {:induction false} WithdrawScores(s: State, rules: Rules, start: seq<nat>, i: nat)
    requires Shaped(s.table) && Scored(s.table, s.deck, start) && i < |s.table.seats|
    ensures Scored(Withdraw(s, rules, i, true).table, s.deck, start)
  {
    if s.phase != Inactive {
      ResolveScores(s.(active := s.active - 1, table := s.table.(ready := s.table.ready[i := -1])), rules, start);
    }
  }

  lemma {:induction false} LeaveScores(s: State, rules: Rules, client: nat, start: seq<nat>)
    requires Shaped(s.table) && Scored(s.table, s.deck, start)
    ensures Scored(Remove(s, rules, client, true).table, s.deck, start)
  {
    var i := SeatOf(s.table.seats, client);
    if i != -1 { WithdrawScores(s, rules, start, i); }
  }

  lemma {:induction false} RemoveFromScores(s: State, rules: Rules, i: nat, start: seq<nat>)
    requires Shaped(s.table) && i <= |s.table.seats| && Scored(s.table, s.deck, start)
    ensures Scored(RemoveFrom(s, rules, i, true).table, s.deck, start)
    decreases |s.table.seats| - i
  {
    if i < |s.table.seats| {
      if s.table.seats[i].id == 0 {
        RemoveFromScores(s, rules, i + 1, start);
      } else {
        var id := s.table.seats[i].id;
        LeaveScores(s, rules, id, start);
        RemoveKeepsDeck(s, rules, id);
        RemoveFromScores(Remove(s, rules, id, true), rules, i + 1, start);
      }
    }
  }

  lemma {:induction false} ObserverScores(s: State, rules: Rules, client: nat, start: seq<nat>)
    requires Shaped(s.table) && Scored(s.table, s.deck, start)
    ensures Scored(BecomeObserver(s, rules, client, true).table, s.deck, start)
  {
    var i := SeatOf(s.table.seats, client);
    if i != -1 && s.table.seats[i].role != ObserverRole {
      var s1 := s.(table := s.table.(seats := s.table.seats[i := s.table.seats[i].(hand := None)]));
      WithdrawScores(s1, rules, start, i);
    }
  }

  lemma {:induction false} LossScores(s: State, rules: Rules, client: nat, start: seq<nat>)
    requires Shaped(s.table) && Scored(s.table, s.deck, start)
    ensures Scored(Left(s, rules, client, true).table, s.deck, start)
  {
    if SeatOf(s.table.seats, client) != -1 {
      var s' := Unplugged(s, rules, client);
      ObserverScores(s, rules, client, start);
      ObserverKeepsDeck(s, rules, client);
      assert Scored(s'.table, s.deck, start);
      if NobodyConnected(s'.table.seats) { RemoveFromScores(s', rules, 0, start); }
    }
  }

  lemma {:induction false} ChoiceScores(s: State, rules: Rules, client: nat, row: nat, start: seq<nat>)
    requires Shaped(s.table) && Allowed(s, rules, Chooses(client, row)) && Scored(s.table, s.deck, start)
    ensures Scored(Extra(s, rules, client, row, true).table, s.deck, start)
  {
    if AcceptsRow(s, client) {
      var i := SeatOf(s.table.seats, client);
      TakeScores(s.table, s.deck, start, row, i);
      SettleScores(TakeRow(s.table, s.deck, row, i), rules.lineLen, s.deck, start);
    }
  }

  lemma {:induction false} NextScores(s: State, rules: Rules, e: Event, start: seq<nat>)
    requires Shaped(s.table) && Allowed(s, rules, e) && Scored(s.table, s.deck, start)
    ensures Scored(Next(s, rules, e).table, s.deck, start)
  {
    match e
    case Joins(client, memory) =>
    case Leaves(client) => LeaveScores(s, rules, client, start);
    case LosesConnection(client) => LossScores(s, rules, client, start);
    case Answers(client, visible) => ResolveScores(InfoReturn(s, rules, client, visible), rules, start);
    case Chooses(client, row) => ChoiceScores(s, rules, client, row, start);
  }

  lemma {:induction false} AfterScores(s: State, rules: Rules, undealt: seq<int>, gone: seq<int>, es: seq<Event>,
                                       start: seq<nat>)
    requires Inv(s, rules, undealt, gone) && AllAllowed(s, rules, es) && Scored(s.table, s.deck, start)
    ensures Scored(After(s, rules, es).table, s.deck, start)
    decreases |es|
  {
    if es != [] {
      NextOk(s, rules, undealt, gone, es[0]);
      NextScores(s, rules, es[0], start);
      AfterScores(Next(s, rules, es[0]), rules, undealt, GoneAfter(s, rules, gone, es[0]), es[1..], start);
    }
  }

  ghost function ScoresOf(seats: seq<Player>): (h: seq<nat>)
    ensures |h| == |seats|
  {
    seq(|seats|, i requires 0 <= i < |seats| => seats[i].heads)
  }

  lemma {:induction false} DealScores(s: State, rules: Rules, lines: nat, ids: seq<int>, deck: seq<nat>)
    requires DealFits(s, rules, lines, ids, deck)
    ensures Scored(Deal(s, rules, lines, ids, deck).table, deck, ScoresOf(s.table.seats))
  {
    DealHandsSeats(s.table.seats, ids, lines, rules, |s.table.seats|);
  }

  /** During a run the whole weight stays that of the deck, so no pile weighs more. */
  lemma {:induction false} PileWeighsLess(s: State, rules: Rules, lines: nat, ids: seq<int>, deck: seq<nat>,
                                          es: seq<Event>, i: nat, w: int -> nat)
    requires DealFits(s, rules, lines, ids, deck)
    requires AllAllowed(Deal(s, rules, lines, ids, deck), rules, es)
    requires i < |After(Deal(s, rules, lines, ids, deck), rules, es).table.won|
    ensures Sum(After(Deal(s, rules, lines, ids, deck), rules, es).table.won[i], w) <= Sum(ids, w)
  {
    var d := Deal(s, rules, lines, ids, deck);
    DealOk(s, rules, lines, ids, deck);
    AfterWeight(d, rules, Undealt(s, rules, lines, ids), [], es, w);
    DealConserves(s, rules, lines, ids, deck, w);
    SumNone(s.table.ready, w);
    SumAllAtLeast(After(d, rules, es).table.won, i, w);
  }

  lemma {:induction false} NoWrap(score: nat, start: nat, gain: nat)
    requires ScoreIs(score, start, gain) && start + gain <= 255
    ensures score == start + gain
  {
  }

  lemma {:induction false} RunScores(s: State, rules: Rules, lines: nat, ids: seq<int>, deck: seq<nat>, es: seq<Event>)
    requires DealFits(s, rules, lines, ids, deck)
    requires AllAllowed(Deal(s, rules, lines, ids, deck), rules, es)
    ensures Scored(After(Deal(s, rules, lines, ids, deck), rules, es).table, deck, ScoresOf(s.table.seats))
  {
    DealOk(s, rules, lines, ids, deck);
    DealScores(s, rules, lines, ids, deck);
    var d, undealt := Deal(s, rules, lines, ids, deck), Undealt(s, rules, lines, ids);
    AfterScores(d, rules, undealt, [], es, ScoresOf(s.table.seats));
    AfterOk(Deal(s, rules, lines, ids, deck), rules, Undealt(s, rules, lines, ids), [], es);
  }

  /** Heads are conserved: in every reachable state a score is exactly the score at the deal plus
      the heads of the cards its seat has taken, as long as that score and the heads of the whole
      deck fit a uint8_t together. */
  lemma {:induction false} ScoresAreExact(s: State, rules: Rules, lines: nat, ids: seq<int>, deck: seq<nat>,
                                          es: seq<Event>, i: nat)
    requires DealFits(s, rules, lines, ids, deck) && i < |s.table.seats|
    requires AllAllowed(Deal(s, rules, lines, ids, deck), rules, es)
    requires s.table.seats[i].heads + Sum(ids, HeadsOn(deck)) <= 255
    ensures var t := After(Deal(s, rules, lines, ids, deck), rules, es).table;
            && i < |t.seats| == |t.won|
            && t.seats[i].heads == s.table.seats[i].heads + Sum(t.won[i], HeadsOn(deck))
            && Sum(t.won[i], HeadsOn(deck)) <= Sum(ids, HeadsOn(deck))
  {
    RunScores(s, rules, lines, ids, deck, es);
    var t := After(Deal(s, rules, lines, ids, deck), rules, es).table;
    PileWeighsLess(s, rules, lines, ids, deck, es, i, HeadsOn(deck));
    assert ScoresOf(s.table.seats)[i] == s.table.seats[i].heads;
    NoWrap(t.seats[i].heads, s.table.seats[i].heads, Sum(t.won[i], HeadsOn(deck)));
  }

  /** With the default rules and scores at zero nothing ever wraps around: the deck has 250 heads. */
  lemma {:induction false} DefaultScores(s: State, rules: Rules, lines: nat, ids: seq<int>, deck: seq<nat>,
                                         es: seq<Event>, i: nat)
    requires DealFits(s, rules, lines, ids, deck) && i < |s.table.seats|
    requires AllAllowed(Deal(s, rules, lines, ids, deck), rules, es)
    requires |deck| == 104 && Sum(ids, HeadsOn(deck)) == Total(HeadList(104, 5, 5)) && s.table.seats[i].heads == 0
    ensures var t := After(Deal(s, rules, lines, ids, deck), rules, es).table;
            |t.seats| == |s.table.seats| && t.seats[i].heads == Sum(t.won[i], HeadsOn(deck)) <= 250
  {
    DefaultTotal();
    ScoresAreExact(s, rules, lines, ids, deck, es, i);
    RunScores(s, rules, lines, ids, deck, es);
    PileWeighsLess(s, rules, lines, ids, deck, es, i, HeadsOn(deck));
  }
}
