/** The turn as the bot simulates it: only the tail and the number of cards of each row are kept,
    and cards are written 1 .. n with 0 for none. */
module Simulation {
  import opened Options
  import opened Sums
  import opened Turn
  import opened TurnFold
  import Shuffles

  const UINT16_MAX := 65535

  /** The first n values of the generator. */
  function Values(random: nat -> nat, n: nat): seq<nat> { seq(n, k requires 0 <= k => random(k)) }

  /** shuffle, with the values of the generator as a parameter. */
  method Shuffle(cards: array<int>, random: nat -> nat)
    modifies cards
    ensures cards[..] == Shuffles.Shuffle(old(cards[..]), Values(random, cards.Length))
  {
    if cards.Length <= 1 { return; }
    ghost var start, values := cards[..], Values(random, cards.Length);
    for i := cards.Length downto 1
      invariant cards[..] == Shuffles.Shuffle(start, values[..cards.Length - i])
    {
      ghost var before := cards[..];
      var j := random(cards.Length - 1 - i) % (i + 1);
      var tmp := cards[i];
      cards[i] := cards[j];
      cards[j] := tmp;
      assert cards[..] == before[i := before[j]][j := before[i]];
      Shuffles.NextSwap(start, values, cards.Length - 1 - i, before, i, j);
    }
    Shuffles.AllDrawn(start, values, cards.Length - 1);
  }

  /** The bot's rows describe the rows of the server. */
  ghost predicate Compressed(last: seq<int>, count: seq<int>, rows: seq<seq<int>>)
    requires NonEmptyRows(rows)
  {
    && |last| == |count| == |rows|
    && forall r | 0 <= r < |rows| :: last[r] == Tail(rows[r]) + 1 && count[r] == |rows[r]|
  }

  ghost predicate Shifted(played: seq<int>, ready: seq<int>) {
    |played| == |ready| && forall p | 0 <= p < |ready| :: played[p] == ready[p] + 1
  }

  /** The first row with the smallest penalty among the first n. */
  function Cheapest(penalty: seq<int>, n: nat): (r: nat)
    requires 1 <= n <= |penalty|
    ensures r < n
    ensures forall q | 0 <= q < n :: penalty[r] <= penalty[q]
    ensures forall q | 0 <= q < r :: penalty[r] < penalty[q]
  {
    if n == 1 then 0
    else
      var r := Cheapest(penalty, n - 1);
      if penalty[n - 1] < penalty[r] then n - 1 else r
  }

  /** The penalties are the heads lying in the rows. */
  ghost predicate TruePenalties(penalty: seq<int>, rows: seq<seq<int>>, deck: seq<nat>) {
    |penalty| == |rows| && forall r | 0 <= r < |rows| :: penalty[r] == Sum(rows[r], HeadsOn(deck))
  }

  /** Rows within their length, and card numbers that fit the bot's types. */
  ghost predicate InRange(t: Table, len: nat)
    requires Shaped(t)
  {
    && (forall r | 0 <= r < |t.rows| :: |t.rows[r]| <= len && 0 <= Tail(t.rows[r]))
    && (forall i | 0 <= i < |t.ready| :: -1 <= t.ready[i] < UINT16_MAX - 1)
  }

  ghost predicate Simulated(t: Table, len: nat, last: seq<int>, count: seq<int>, played: seq<int>) {
    Playable(t) && |t.rows| >= 1 && InRange(t, len) && Compressed(last, count, t.rows) && Shifted(played, t.ready)
  }

  /** Some tail is below every card still to be played. */
  ghost predicate Below(t: Table, r: nat)
    requires Shaped(t)
  {
    r < |t.rows| && forall i | 0 <= i < |t.ready| && t.ready[i] != -1 :: Tail(t.rows[r]) < t.ready[i]
  }

  method SmallestPlayed(ghost t: Table, ghost len: nat, ghost last: seq<int>, ghost count: seq<int>, played: array<int>)
    returns (best: int)
    requires Simulated(t, len, last, count, played[..])
    ensures best == NextSlot(t)
  {
    best := -1;
    for p := 0 to played.Length
      invariant best == SmallestSlot(t.ready, p)
    {
      assert played[..][p] == t.ready[p] + 1;
      assert best != -1 ==> played[..][best] == t.ready[best] + 1;
      if played[p] == 0 { continue; }
      if best == -1 || played[p] < played[best] { best := p; }
    }
  }

  method NearestTail(ghost t: Table, ghost len: nat, last: array<int>, ghost count: seq<int>, ghost played: seq<int>,
                     index: nat, card: int)
    returns (best: int)
    requires Simulated(t, len, last[..], count, played)
    requires index < |t.ready| && t.ready[index] != -1 && card == t.ready[index] + 1
    ensures best == NearestRow(t.rows, t.ready[index], |t.rows|)
  {
    best := -1;
    var minDiff := UINT16_MAX;
    assert t.ready[index] in Cards(t.ready);
    for row := 0 to last.Length
      invariant best == NearestRow(t.rows, t.ready[index], row)
      invariant minDiff == if best == -1 then UINT16_MAX else t.ready[index] - Tail(t.rows[best])
    {
      assert last[..][row] == Tail(t.rows[row]) + 1;
      if last[row] > card { continue; }
      var diff := card - last[row];
      if diff < minDiff {
        minDiff, best := diff, row;
      }
    }
  }

  method CheapestRow(penalty: array<int>) returns (best: nat)
    requires penalty.Length >= 1
    ensures best == Cheapest(penalty[..], penalty.Length)
  {
    best := 0;
    var least := penalty[0];
    for row := 1 to penalty.Length
      invariant best == Cheapest(penalty[..], row) && least == penalty[best]
    {
      if penalty[row] < least {
        best, least := row, penalty[row];
      }
    }
  }

  /** What the server does with the next card, when the cheapest row is chosen. */
  ghost function ServerStep(t: Table, len: nat, deck: seq<nat>, choice: nat): (t': Table)
    requires Shaped(t) && NextSlot(t) != -1 && choice < |t.rows|
    ensures Shaped(t')
  {
    if NextRow(t) == -1 then TakeRow(t, deck, choice, NextSlot(t)) else PlayCard(t, len, deck, NextRow(t), NextSlot(t))
  }

  /** One step keeps the description, leaves a tail below the other cards, and does not change what
      the turn will come to. */
  lemma {:induction false} StepKeeps(t: Table, len: nat, deck: seq<nat>, choice: nat)
    requires Playable(t) && NextSlot(t) != -1 && choice < |t.rows|
    ensures var t' := ServerStep(t, len, deck, choice);
            && Playable(t') && |t'.rows| == |t.rows| && |t'.ready| == |t.ready|
            && Below(t', if NextRow(t) == -1 then choice else NextRow(t))
            && Pending(t') == Pending(t) - 1
            && Settle(t', len, deck) == ServerTurn(t, len, deck, choice)
  {
    var i := NextSlot(t);
    var r := if NextRow(t) == -1 then choice else NextRow(t);
    var t' := ServerStep(t, len, deck, choice);
    SumUpdate(t.ready, i, -1, One);
    StaysPlayable(t, t', r, i);
    forall j | 0 <= j < |t'.ready| && t'.ready[j] != -1 ensures Tail(t'.rows[r]) < t'.ready[j] {
      assert t.ready[j] == t'.ready[j] && t.ready[i] != t.ready[j];
    }
    if NextRow(t) != -1 { SettleEmpties(t', len, deck, r); }
  }

  /** With such a tail the next card has a row, and the turn is just the resolution. */
  lemma {:induction false} BelowNeverForced(t: Table, len: nat, deck: seq<nat>, choice: nat, r: nat)
    requires Playable(t) && Below(t, r) && choice < |t.rows|
    ensures NextSlot(t) != -1 ==> NextRow(t) != -1
    ensures Settle(t, len, deck) == ServerTurn(t, len, deck, choice)
  {
    SettleEmpties(t, len, deck, r);
  }

  /** What the owner of the next card pays: the penalty of the row he collects, if he collects one. */
  ghost function Charge(t: Table, len: nat, penalty: seq<int>, choice: nat): int
    requires Shaped(t) && NextSlot(t) != -1 && choice < |t.rows| == |penalty|
  {
    if NextRow(t) == -1 then penalty[choice]
    else if |t.rows[NextRow(t)]| >= len then penalty[NextRow(t)] else 0
  }

  /** The penalties after the card: 3 for a row taken by choice, 2 for a full one, 3 more otherwise. */
  ghost function NextPenalty(t: Table, len: nat, penalty: seq<int>, choice: nat): (p: seq<int>)
    requires Shaped(t) && NextSlot(t) != -1 && choice < |t.rows| == |penalty|
    ensures |p| == |penalty|
  {
    if NextRow(t) == -1 then penalty[choice := 3]
    else if |t.rows[NextRow(t)]| >= len then penalty[NextRow(t) := 2]
    else penalty[NextRow(t) := penalty[NextRow(t)] + 3]
  }

  lemma {:induction false} StepSizes(t: Table, len: nat, deck: seq<nat>, choice: nat)
    requires Shaped(t) && NextSlot(t) != -1 && choice < |t.rows|
    ensures var t' := ServerStep(t, len, deck, choice);
            |t'.rows| == |t.rows| && |t'.ready| == |t.ready| && Pending(t') == Pending(t) - 1
  {
    SumUpdate(t.ready, NextSlot(t), -1, One);
  }

  /** What the seat in slot 0 is charged in the whole turn. */
  ghost function Predicted(t: Table, len: nat, deck: seq<nat>, penalty: seq<int>): int
    requires Shaped(t) && 1 <= |t.rows| == |penalty|
    decreases Pending(t)
  {
    if NextSlot(t) == -1 then 0
    else
      var choice := Cheapest(penalty, |penalty|);
      StepSizes(t, len, deck, choice);
      (if NextSlot(t) == 0 then Charge(t, len, penalty, choice) else 0)
      + Predicted(ServerStep(t, len, deck, choice), len, deck, NextPenalty(t, len, penalty, choice))
  }

  /** The rest of a round: the card in slot index goes to its row, or to the cheapest one. */
  method Move(ghost t: Table, ghost deck: seq<nat>, last: array<int>, count: array<int>, penalty: array<int>,
              rowLength: nat, played: array<int>, index: nat, row: int)
    returns (charge: int)
    requires last != count && last != penalty && last != played && count != penalty && count != played
    requires penalty != played
    requires Simulated(t, rowLength, last[..], count[..], played[..]) && penalty.Length == last.Length && rowLength >= 1
    requires NextSlot(t) == index && NextRow(t) == row
    modifies last, count, penalty, played
    ensures var choice := Cheapest(old(penalty[..]), penalty.Length);
            var t' := ServerStep(t, rowLength, deck, choice);
            && Shaped(t') && Compressed(last[..], count[..], t'.rows) && Shifted(played[..], t'.ready)
            && charge == Charge(t, rowLength, old(penalty[..]), choice)
            && penalty[..] == NextPenalty(t, rowLength, old(penalty[..]), choice)
  {
    var card := played[index];
    assert played[..][index] == t.ready[index] + 1;
    if row == -1 {
      var taken := CheapestRow(penalty);
      charge := penalty[taken];
      last[taken], count[taken], penalty[taken] := card, 1, 3;
    } else {
      assert count[..][row] == |t.rows[row]|;
      if count[row] == rowLength {
        charge := penalty[row];
        last[row], count[row], penalty[row] := card, 1, 2;
      } else {
        charge := 0;
        last[row], count[row], penalty[row] := card, count[row] + 1, penalty[row] + 3;
      }
    }
    played[index] := 0;
    assert played[..] == old(played[..])[index := 0];
  }

  lemma {:induction false} StepInRange(t: Table, len: nat, deck: seq<nat>, choice: nat)
    requires Shaped(t) && InRange(t, len) && NextSlot(t) != -1 && choice < |t.rows| && len >= 1
    ensures InRange(ServerStep(t, len, deck, choice), len)
  {
    var i := NextSlot(t);
    var r := if NextRow(t) == -1 then choice else NextRow(t);
    var t' := ServerStep(t, len, deck, choice);
    assert -1 <= t.ready[i];
    forall q | 0 <= q < |t'.rows| ensures |t'.rows[q]| <= len && 0 <= Tail(t'.rows[q]) {
      assert |t.rows[q]| <= len && 0 <= Tail(t.rows[q]);
      if q == r { assert Tail(t'.rows[q]) == t.ready[i]; }
    }
  }

  /** What the seat in slot 0 gained. */
  ghost function Gained(t: Table, t': Table, deck: seq<nat>): int
    requires Shaped(t) && Shaped(t') && |t.ready| == |t'.ready| >= 1
  {
    Sum(t'.won[0], HeadsOn(deck)) - Sum(t.won[0], HeadsOn(deck))
  }

  lemma {:induction false} ChargeIsGain(t: Table, len: nat, deck: seq<nat>, choice: nat, penalty: seq<int>)
    requires Playable(t) && NextSlot(t) == 0 && choice < |t.rows| && TruePenalties(penalty, t.rows, deck)
    ensures Gained(t, ServerStep(t, len, deck, choice), deck)
            == Charge(t, len, penalty, choice)
  {
    var r := if NextRow(t) == -1 then choice else NextRow(t);
    SumAppend(t.won[0], t.rows[r], HeadsOn(deck));
  }

  /** A seat whose slot is empty is charged nothing and gains nothing. */
  lemma {:induction false} EmptySlotPaysNothing(t: Table, len: nat, deck: seq<nat>, penalty: seq<int>)
    requires Shaped(t) && 1 <= |t.rows| == |penalty| && |t.ready| >= 1 && t.ready[0] == -1
    ensures Predicted(t, len, deck, penalty) == 0
    ensures Settle(t, len, deck).won[0] == t.won[0]
    decreases Pending(t)
  {
    if NextSlot(t) != -1 {
      var choice := Cheapest(penalty, |penalty|);
      StepSizes(t, len, deck, choice);
      EmptySlotPaysNothing(ServerStep(t, len, deck, choice), len, deck, NextPenalty(t, len, penalty, choice));
    }
  }

  /** If the initial penalties are the heads in the rows and the own card is the smallest, the
      prediction is exactly what the server charges. */
  lemma {:induction false} PredictedIsGain(t: Table, len: nat, deck: seq<nat>, penalty: seq<int>)
    requires Playable(t) && |t.rows| >= 1 && NextSlot(t) == 0 && TruePenalties(penalty, t.rows, deck)
    ensures Predicted(t, len, deck, penalty)
            == Gained(t, ServerTurn(t, len, deck, Cheapest(penalty, |penalty|)), deck)
  {
    var choice := Cheapest(penalty, |penalty|);
    StepKeeps(t, len, deck, choice);
    ChargeIsGain(t, len, deck, choice, penalty);
    EmptySlotPaysNothing(ServerStep(t, len, deck, choice), len, deck, NextPenalty(t, len, penalty, choice));
  }

  // ---------------------------------------------------------------- how exact the prediction is

  /** A card put on a row in this turn, and the number of heads the bot counts for it. */
  datatype Put = Put(card: int, guess: int)

  /** The turn so far: the server's table, the bot's penalties, and what was put on each row since the
      beginning of the turn or since it was last taken. */
  datatype View = View(now: Table, penalty: seq<int>, put: seq<seq<Put>>)

  ghost predicate ViewOk(v: View) {
    Shaped(v.now) && 1 <= |v.now.rows| == |v.penalty| == |v.put|
  }

  ghost function NextPut(t: Table, len: nat, put: seq<seq<Put>>, choice: nat): (p: seq<seq<Put>>)
    requires Shaped(t) && NextSlot(t) != -1 && choice < |t.rows| == |put|
    ensures |p| == |put|
  {
    var card := t.ready[NextSlot(t)];
    if NextRow(t) == -1 then put[choice := [Put(card, 3)]]
    else if |t.rows[NextRow(t)]| >= len then put[NextRow(t) := [Put(card, 2)]]
    else put[NextRow(t) := put[NextRow(t)] + [Put(card, 3)]]
  }

  ghost function Advance(v: View, len: nat, deck: seq<nat>): (v': View)
    requires ViewOk(v) && NextSlot(v.now) != -1
    ensures ViewOk(v') && Pending(v'.now) == Pending(v.now) - 1
  {
    var choice := Cheapest(v.penalty, |v.penalty|);
    StepSizes(v.now, len, deck, choice);
    View(ServerStep(v.now, len, deck, choice),
         NextPenalty(v.now, len, v.penalty, choice),
         NextPut(v.now, len, v.put, choice))
  }

  /** The turn up to the card in slot 0. */
  ghost function BeforeOwn(v: View, len: nat, deck: seq<nat>): (v': View)
    requires ViewOk(v)
    ensures ViewOk(v') && NextSlot(v'.now) <= 0
    decreases Pending(v.now)
  {
    if NextSlot(v.now) <= 0 then v else BeforeOwn(Advance(v, len, deck), len, deck)
  }

  /** The row that the card in slot 0 collects, -1 when it collects none. */
  ghost function OwnRow(v: View, len: nat): (r: int)
    requires ViewOk(v)
    ensures -1 <= r < |v.now.rows|
  {
    if NextSlot(v.now) != 0 then -1
    else if NextRow(v.now) == -1 then Cheapest(v.penalty, |v.penalty|)
    else if |v.now.rows[NextRow(v.now)]| >= len then NextRow(v.now)
    else -1
  }

  /** What the bot counts too much for row r. */
  ghost function Drift(v: View, deck: seq<nat>, r: int): int
    requires ViewOk(v) && -1 <= r < |v.now.rows|
  {
    if r == -1 then 0 else v.penalty[r] - Sum(v.now.rows[r], HeadsOn(deck))
  }

  /** The heads that were guessed for these cards, less the heads they have. */
  ghost function Errors(put: seq<Put>, deck: seq<nat>): int {
    if put == [] then 0
    else Errors(put[..|put| - 1], deck) + put[|put| - 1].guess - Weigh(put[|put| - 1].card, HeadsOn(deck))
  }

  ghost function Beginning(t: Table, penalty: seq<int>): View {
    View(t, penalty, seq(|t.rows|, _ => []))
  }

  lemma {:induction false} OwnCardNext(v: View, len: nat, deck: seq<nat>)
    requires ViewOk(v) && Playable(v.now) && NextSlot(v.now) == 0
    ensures Predicted(v.now, len, deck, v.penalty)
            - Gained(v.now, ServerTurn(v.now, len, deck, Cheapest(v.penalty, |v.penalty|)), deck)
            == Drift(v, deck, OwnRow(v, len))
  {
    var choice := Cheapest(v.penalty, |v.penalty|);
    var r := if NextRow(v.now) == -1 then choice else NextRow(v.now);
    StepKeeps(v.now, len, deck, choice);
    SumAppend(v.now.won[0], v.now.rows[r], HeadsOn(deck));
    EmptySlotPaysNothing(ServerStep(v.now, len, deck, choice), len, deck, NextPenalty(v.now, len, v.penalty, choice));
  }

  lemma {:induction false} TurnGoesOn(v: View, len: nat, deck: seq<nat>)
    requires ViewOk(v) && Playable(v.now) && NextSlot(v.now) != -1
    ensures var v' := Advance(v, len, deck);
            && Playable(v'.now)
            && ServerTurn(v.now, len, deck, Cheapest(v.penalty, |v.penalty|))
               == ServerTurn(v'.now, len, deck, Cheapest(v'.penalty, |v'.penalty|))
  {
    var choice := Cheapest(v.penalty, |v.penalty|);
    var v' := Advance(v, len, deck);
    StepKeeps(v.now, len, deck, choice);
    BelowNeverForced(v'.now, len, deck, Cheapest(v'.penalty, |v'.penalty|),
                     if NextRow(v.now) == -1 then choice else NextRow(v.now));
  }

  /** Another card first: nothing changes for slot 0. */
  lemma {:induction false} OtherCardNext(v: View, len: nat, deck: seq<nat>)
    requires ViewOk(v) && Playable(v.now) && NextSlot(v.now) > 0
    ensures var v' := Advance(v, len, deck);
            && Playable(v'.now) && v'.now.ready[0] == v.now.ready[0]
            && Predicted(v.now, len, deck, v.penalty) == Predicted(v'.now, len, deck, v'.penalty)
            && Gained(v.now, ServerTurn(v.now, len, deck, Cheapest(v.penalty, |v.penalty|)), deck)
               == Gained(v'.now, ServerTurn(v'.now, len, deck, Cheapest(v'.penalty, |v'.penalty|)), deck)
  {
    TurnGoesOn(v, len, deck);
    assert Advance(v, len, deck).now.won[0] == v.now.won[0];
  }

  /** The prediction differs from what the server charges by exactly what the bot counts too much for
      the row that its own card collects. */
  lemma {:induction false} PredictionError(v: View, len: nat, deck: seq<nat>)
    requires ViewOk(v) && Playable(v.now) && |v.now.ready| >= 1 && v.now.ready[0] != -1
    ensures var own := BeforeOwn(v, len, deck);
            Predicted(v.now, len, deck, v.penalty)
            - Gained(v.now, ServerTurn(v.now, len, deck, Cheapest(v.penalty, |v.penalty|)), deck)
            == Drift(own, deck, OwnRow(own, len))
    decreases Pending(v.now)
  {
    if NextSlot(v.now) == 0 {
      OwnCardNext(v, len, deck);
    } else {
      OtherCardNext(v, len, deck);
      PredictionError(Advance(v, len, deck), len, deck);
    }
  }

  /** What the bot counts too much for a row are the errors of the cards put on it. */
  ghost predicate Explained(v: View, deck: seq<nat>)
    requires ViewOk(v)
  {
    forall r | 0 <= r < |v.now.rows| :: Drift(v, deck, r) == Errors(v.put[r], deck)
  }

  lemma {:induction false} OneError(p: Put, deck: seq<nat>)
    ensures Errors([p], deck) == p.guess - Weigh(p.card, HeadsOn(deck))
    ensures Sum([p.card], HeadsOn(deck)) == Weigh(p.card, HeadsOn(deck))
  {
    assert [p][..0] == [] && [p.card][..0] == [];
  }

  lemma {:induction false} MoreErrors(put: seq<Put>, p: Put, row: seq<int>, deck: seq<nat>)
    ensures Errors(put + [p], deck) == Errors(put, deck) + p.guess - Weigh(p.card, HeadsOn(deck))
    ensures Sum(row + [p.card], HeadsOn(deck)) == Sum(row, HeadsOn(deck)) + Weigh(p.card, HeadsOn(deck))
  {
    assert (put + [p])[..|put|] == put && (row + [p.card])[..|row|] == row;
  }

  lemma {:induction false} AdvanceExplained(v: View, len: nat, deck: seq<nat>)
    requires ViewOk(v) && NextSlot(v.now) != -1 && Explained(v, deck)
    ensures Explained(Advance(v, len, deck), deck)
  {
    var choice := Cheapest(v.penalty, |v.penalty|);
    var r := if NextRow(v.now) == -1 then choice else NextRow(v.now);
    var card := v.now.ready[NextSlot(v.now)];
    var v' := Advance(v, len, deck);
    OneError(Put(card, 3), deck);
    OneError(Put(card, 2), deck);
    MoreErrors(v.put[r], Put(card, 3), v.now.rows[r], deck);
    forall q | 0 <= q < |v'.now.rows| ensures Drift(v', deck, q) == Errors(v'.put[q], deck) {
      assert Drift(v, deck, q) == Errors(v.put[q], deck);
    }
  }

  lemma {:induction false} BeforeOwnExplained(v: View, len: nat, deck: seq<nat>)
    requires ViewOk(v) && Explained(v, deck)
    ensures Explained(BeforeOwn(v, len, deck), deck)
    decreases Pending(v.now)
  {
    if NextSlot(v.now) > 0 {
      AdvanceExplained(v, len, deck);
      BeforeOwnExplained(Advance(v, len, deck), len, deck);
    }
  }

  /** With true initial penalties the prediction is exact if and only if the own card collects no row,
      or the guesses for the cards put on that row before it make up for each other: 3 heads for a card
      that is appended or starts a chosen row, 2 for one that starts a full row. */
  lemma {:induction false} ExactIff(t: Table, len: nat, deck: seq<nat>, penalty: seq<int>)
    requires Playable(t) && 1 <= |t.rows| == |penalty| && TruePenalties(penalty, t.rows, deck)
    requires |t.ready| >= 1 && t.ready[0] != -1
    ensures var own := BeforeOwn(Beginning(t, penalty), len, deck);
            Predicted(t, len, deck, penalty) == Gained(t, ServerTurn(t, len, deck, Cheapest(penalty, |penalty|)), deck)
            <==> OwnRow(own, len) == -1 || Errors(own.put[OwnRow(own, len)], deck) == 0
  {
    var v := Beginning(t, penalty);
    assert Explained(v, deck);
    BeforeOwnExplained(v, len, deck);
    PredictionError(v, len, deck);
  }

  /** In particular when no smaller card is put on the row that the own card collects. */
  lemma {:induction false} ExactOnUntouchedRow(t: Table, len: nat, deck: seq<nat>, penalty: seq<int>)
    requires Playable(t) && 1 <= |t.rows| == |penalty| && TruePenalties(penalty, t.rows, deck)
    requires |t.ready| >= 1 && t.ready[0] != -1
    ensures var own := BeforeOwn(Beginning(t, penalty), len, deck);
            OwnRow(own, len) != -1 && own.put[OwnRow(own, len)] == [] ==>
              Predicted(t, len, deck, penalty)
              == Gained(t, ServerTurn(t, len, deck, Cheapest(penalty, |penalty|)), deck)
  {
    ExactIff(t, len, deck, penalty);
  }

  function OneRow(row: seq<int>, ready: seq<int>, won: seq<int>): Table {
    var seat := Player(1, PlayerRole, None, 0, true);
    Table([row], ready, [seat, seat.(id := 2)], [won, []])
  }

  const ONE_ROW := OneRow([0], [3, 2], [])
  const ONE_HEAD_EACH: seq<nat> := [1, 1, 1, 1]

  lemma {:induction false} CardTwoFirst()
    ensures NextSlot(ONE_ROW) == 1 && NextRow(ONE_ROW) == 0
    ensures ServerStep(ONE_ROW, 2, ONE_HEAD_EACH, 0) == OneRow([0, 2], [3, -1], [])
    ensures NextPenalty(ONE_ROW, 2, [1], 0) == [4]
  {
    assert SmallestSlot([3, 2], 1) == 0;
    assert NearestRow([[0]], 2, 1) == 0;
    assert [0] + [2] == [0, 2] && [3, 2][1 := -1] == [3, -1];
  }

  lemma {:induction false} CardThreeNext()
    ensures NextSlot(OneRow([0, 2], [3, -1], [])) == 0 && NextRow(OneRow([0, 2], [3, -1], [])) == 0
    ensures var t := ServerStep(OneRow([0, 2], [3, -1], []), 2, ONE_HEAD_EACH, 0);
            t.ready == [-1, -1] && t.won == [[0, 2], []]
  {
    assert SmallestSlot([3, -1], 1) == 0;
    assert NearestRow([[0, 2]], 3, 1) == 0;
    assert [] + [0, 2] == [0, 2] && [3, -1][0 := -1] == [-1, -1];
  }

  lemma {:induction false} TwoHeads()
    ensures Sum([0], HeadsOn(ONE_HEAD_EACH)) == 1 && Sum([0, 2], HeadsOn(ONE_HEAD_EACH)) == 2
  {
    MoreErrors([], Put(0, 0), [], ONE_HEAD_EACH);
    MoreErrors([], Put(2, 0), [0], ONE_HEAD_EACH);
    assert [] + [0] == [0] && [0] + [2] == [0, 2];
  }

  /** A row of two cards at most holds card 0, the bot has card 3 and another player card 2. Card 2 is
      appended, the bot collects cards 0 and 2 and is charged 2 heads, where 4 were predicted. */
  lemma {:induction false} WrongPrediction()
    ensures Playable(ONE_ROW) && TruePenalties([1], ONE_ROW.rows, ONE_HEAD_EACH)
    ensures Predicted(ONE_ROW, 2, ONE_HEAD_EACH, [1]) == 4
    ensures Gained(ONE_ROW, ServerTurn(ONE_ROW, 2, ONE_HEAD_EACH, Cheapest([1], 1)), ONE_HEAD_EACH) == 2
  {
    CardTwoFirst();
    CardThreeNext();
    TwoHeads();
    var v := View(ONE_ROW, [1], [[]]);
    assert Playable(ONE_ROW);
    OtherCardNext(v, 2, ONE_HEAD_EACH);
    var own := View(OneRow([0, 2], [3, -1], []), [4], Advance(v, 2, ONE_HEAD_EACH).put);
    assert Advance(v, 2, ONE_HEAD_EACH) == own;
    OwnCardNext(own, 2, ONE_HEAD_EACH);
    EmptySlotPaysNothing(ServerStep(own.now, 2, ONE_HEAD_EACH, 0), 2, ONE_HEAD_EACH, NextPenalty(own.now, 2, [4], 0));
  }

  /** After i cards: the server still has to resolve now, and low is a row below all its cards. */
  ghost predicate Progress(t: Table, len: nat, deck: seq<nat>, choice: nat, now: Table, low: nat, i: nat)
    requires Shaped(t) && Shaped(now) && choice < |t.rows|
  {
    && |now.rows| == |t.rows| && |now.ready| == |t.ready| && Pending(now) == |t.ready| - i
    && (i == 0 ==> now == t)
    && (i > 0 ==> Below(now, low) && Settle(now, len, deck) == ServerTurn(t, len, deck, choice))
  }

  lemma {:induction false} ProgressStep(t: Table, len: nat, deck: seq<nat>, choice: nat, now: Table, low: nat,
                                        i: nat, pick: nat)
    requires Shaped(t) && choice < |t.rows| && Playable(now) && NextSlot(now) != -1 && pick < |now.rows|
    requires Progress(t, len, deck, choice, now, low, i) && (i == 0 ==> pick == choice)
    ensures Progress(t, len, deck, choice, ServerStep(now, len, deck, pick),
                     if NextRow(now) == -1 then pick else NextRow(now), i + 1)
  {
    StepKeeps(now, len, deck, pick);
    if i > 0 { BelowNeverForced(now, len, deck, pick, low); }
  }

  /** simulation_step: the bot ends with the tails and counts of the board that the server reaches
      when a player who has to choose takes the row with the smallest initial penalty, and with the
      predicted charge. */
  method SimulationStep(ghost t: Table, ghost deck: seq<nat>, last: array<int>, count: array<int>, penalty: array<int>,
                        rowLength: nat, played: array<int>)
    returns (result: int)
    requires last != count && last != penalty && last != played && count != penalty && count != played
    requires penalty != played
    requires Simulated(t, rowLength, last[..], count[..], played[..]) && penalty.Length == last.Length && rowLength >= 1
    requires forall p | 0 <= p < played.Length :: played[p] != 0
    modifies last, count, penalty, played
    ensures forall p | 0 <= p < played.Length :: played[p] == 0
    ensures var choice := Cheapest(old(penalty[..]), penalty.Length);
            Compressed(last[..], count[..], ServerTurn(t, rowLength, deck, choice).rows)
    ensures result == Predicted(t, rowLength, deck, old(penalty[..]))
  {
    ghost var heads := penalty[..];
    ghost var choice := Cheapest(heads, penalty.Length);
    ghost var now := t;
    ghost var low: nat := 0;
    AllPending(t.ready, played[..]);
    result := 0;
    for i := 0 to played.Length
      invariant Simulated(now, rowLength, last[..], count[..], played[..])
      invariant Progress(t, rowLength, deck, choice, now, low, i)
      invariant i == 0 ==> penalty[..] == heads
      invariant result + Predicted(now, rowLength, deck, penalty[..]) == Predicted(t, rowLength, deck, heads)
    {
      SumOneZero(now.ready);
      var index := SmallestPlayed(now, rowLength, last[..], count[..], played);
      assert played[..][index] == now.ready[index] + 1;
      var row := NearestTail(now, rowLength, last, count[..], played[..], index, played[index]);
      ghost var pick := Cheapest(penalty[..], penalty.Length);
      StepKeeps(now, rowLength, deck, pick);
      StepInRange(now, rowLength, deck, pick);
      ProgressStep(t, rowLength, deck, choice, now, low, i, pick);
      var charge := Move(now, deck, last, count, penalty, rowLength, played, index, row);
      if index == 0 { result := result + charge; }
      if row == -1 { low := pick; } else { low := row; }
      now := ServerStep(now, rowLength, deck, pick);
    }
    SumOneZero(now.ready);
    forall p | 0 <= p < played.Length ensures played[p] == 0 { assert played[..][p] == now.ready[p] + 1; }
  }

  lemma {:induction false} AllPending(ready: seq<int>, played: seq<int>)
    requires Shifted(played, ready) && forall p | 0 <= p < |played| :: played[p] != 0
    ensures Sum(ready, One) == |ready|
  {
    if ready != [] {
      var n := |ready| - 1;
      assert played[n] == ready[n] + 1;
      assert forall p | 0 <= p < n :: played[..n][p] == played[p] && ready[..n][p] == ready[p];
      AllPending(ready[..n], played[..n]);
    }
  }

  /** The row the bot expects to be chosen is a cheapest one for the player who has to choose. */
  lemma {:induction false} CheapestIsCheapest(t: Table, deck: seq<nat>, penalty: seq<int>)
    requires Shaped(t) && |t.rows| >= 1 && TruePenalties(penalty, t.rows, deck)
    ensures forall q | 0 <= q < |t.rows| ::
              Sum(t.rows[Cheapest(penalty, |t.rows|)], HeadsOn(deck)) <= Sum(t.rows[q], HeadsOn(deck))
  {
    var r := Cheapest(penalty, |t.rows|);
    forall q | 0 <= q < |t.rows| ensures Sum(t.rows[r], HeadsOn(deck)) <= Sum(t.rows[q], HeadsOn(deck)) {
      assert penalty[r] <= penalty[q];
    }
  }
}
