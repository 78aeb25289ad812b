/** The card game of one session: the board, the cards ready to be placed and the deck, updated in
    place while a turn is resolved. */
module Game {
  import opened Sums
  import opened Turn
  import opened Board

  datatype Card = Card(num: nat, heads: nat)

  datatype Phase = Inactive | Waiting | WaitingExtra | Playing

  const TURN_DONE := -2
  const PHASE_DONE := -3

  function HeadsIn(deck: seq<Card>): (h: seq<nat>)
    ensures |h| == |deck|
  {
    seq(|deck|, i requires 0 <= i < |deck| => deck[i].heads)
  }

  /** A seat is finished when nothing is left in its hand; a hand that does not exist counts as
      finished too. */
  predicate HandEmpty(p: Player, size: nat) {
    match p.hand
    case None => true
    case Some(cards) => forall i | 0 <= i < |cards| && i < size :: cards[i] == -1
  }

  predicate SomeoneFinished(seats: seq<Player>, size: nat) {
    exists i | 0 <= i < |seats| :: seats[i].id != 0 && seats[i].role == PlayerRole && HandEmpty(seats[i], size)
  }

  /** Adding the heads of a row one card at a time on a uint8_t gives the sum modulo 256. */
  lemma {:induction false} ScoreStep(score: nat, row: seq<int>, i: nat, weight: int -> nat)
    requires i < |row| && row[i] != -1
    ensures ((score + Sum(row[..i], weight)) % 256 + weight(row[i])) % 256 == (score + Sum(row[..i + 1], weight)) % 256
    ensures i == 0 ==> (score + weight(row[i])) % 256 == (score + Sum(row[..i + 1], weight)) % 256
  {
    assert row[..i + 1][..i] == row[..i];
    assert Sum(row[..i + 1], weight) == Sum(row[..i], weight) + weight(row[i]);
  }

  class Game {
    const lines: nat
    const lineLen: nat
    const handSize: nat
    const maxHead: nat
    const board: array<int>
    const ready: array<int>
    const deck: array<Card>
    var phase: Phase
    var readyCount: int
    var waitFrom: nat
    var nextCard: nat
    ghost var rows: seq<seq<int>>
    ghost var won: seq<seq<int>>

    /** init_game, once its guard has accepted the rules: an empty board, no card ready. */
    constructor (lines: nat, lineLen: nat, handSize: nat, cards: nat, maxHead: nat, seats: nat)
      requires lineLen > 0
      ensures Valid() && phase == Inactive && readyCount == 0
      ensures fresh(board) && fresh(ready) && fresh(deck)
      ensures this.lines == lines && this.lineLen == lineLen && this.handSize == handSize && this.maxHead == maxHead
      ensures ready.Length == seats && deck.Length == cards
      ensures (forall i | 0 <= i < seats :: ready[i] == -1) && (forall r | 0 <= r < lines :: rows[r] == [])
    {
      this.lines, this.lineLen, this.handSize, this.maxHead := lines, lineLen, handSize, maxHead;
      board := new int[lines * lineLen](_ => -1);
      ready := new int[seats](_ => -1);
      deck := new Card[cards](_ => Card(0, 0));
      phase, readyCount, waitFrom, nextCard := Inactive, 0, 0, 0;
      rows, won := seq(lines, _ => []), seq(seats, _ => []);
      new;
      StartIsProduct(lines, lineLen);
      LaysEmpty(board[..], rows, lineLen);
    }

    ghost predicate Valid()
      reads this, board, ready, deck
    {
      && board != ready && lineLen > 0
      && |rows| == lines && Lays(board[..], rows, lineLen)
      && |won| == ready.Length
      && (forall r | 0 <= r < |rows| :: InDeck(rows[r], deck.Length))
      && (forall i | 0 <= i < ready.Length :: -1 <= ready[i] < deck.Length)
    }

    /** A table with players around it: a seat for each slot, and a first card in every row. */
    ghost predicate Dealt(players: array<Player>)
      reads this, board, ready, deck
    {
      Valid() && players.Length == ready.Length && NonEmptyRows(rows)
    }

    ghost function Model(players: array<Player>): (t: Table)
      requires Dealt(players)
      reads this, board, ready, deck, players
      ensures Shaped(t)
    {
      Table(rows, ready[..], players[..], won)
    }

    ghost function Heads(): seq<nat>
      reads this, deck
    {
      HeadsIn(deck[..])
    }

    /** The loop of TakeLine: the cards of the line leave the board, one by one, and their heads
        are added to the score of the seat. */
    method ClearLine(players: array<Player>, line: nat, index: nat)
      requires Dealt(players) && line < lines && index < players.Length
      modifies board, players
      ensures var score := (old(players[index].heads) + Sum(rows[line], HeadsOn(Heads()))) % 256;
              players[..] == old(players[..])[index := old(players[index]).(heads := score)]
      ensures forall k | 0 <= k < board.Length ::
                var first := Start(line, lineLen);
                board[k] == if first <= k < first + |rows[line]| then -1 else old(board[k])
    {
      StartIsProduct(line, lineLen);
      var first := line * lineLen;
      ghost var row := rows[line];
      ghost var weight := HeadsOn(Heads());
      assert RowAt(board[..], first, row, lineLen) && InDeck(row, deck.Length) && |row| > 0;
      var i := 0;
      while i < lineLen
        invariant 0 <= i <= |row|
        invariant forall k | 0 <= k < board.Length ::
                    board[k] == if first <= k < first + i then -1 else old(board[k])
        invariant i == 0 ==> players[index] == old(players[index])
        invariant i > 0 ==>
                    var score := (old(players[index].heads) + Sum(row[..i], weight)) % 256;
                    players[index] == old(players[index]).(heads := score)
        invariant forall k | 0 <= k < players.Length && k != index :: players[k] == old(players[k])
        decreases lineLen - i
      {
        if board[first + i] == -1 { break; }
        assert board[first + i] == row[i];
        ScoreStep(old(players[index].heads), row, i, weight);
        players[index] := players[index].(heads := (players[index].heads + deck[board[first + i]].heads) % 256);
        board[first + i] := -1;
        i := i + 1;
      }
      assert row[..i] == row;
    }

    method TakeLine(players: array<Player>, line: nat, index: nat)
      requires Dealt(players) && line < lines && index < players.Length && ready[index] != -1
      modifies this`rows, this`won, board, ready, players
      ensures Dealt(players)
      ensures Model(players) == TakeRow(old(Model(players)), Heads(), line, index)
    {
      StartIsProduct(line, lineLen);
      ghost var row, before := rows[line], board[..];
      assert RowAt(before, Start(line, lineLen), row, lineLen);
      ClearLine(players, line, index);
      board[line * lineLen] := ready[index];
      LaysTaken(before, board[..], rows, lineLen, line, ready[index]);
      rows := rows[line := [ready[index]]];
      won := won[index := won[index] + row];
      ready[index] := -1;
    }

    /** The first loop of PlaceCard: the slot of the smallest ready card. */
    method SmallestReady() returns (best: int)
      ensures best == SmallestSlot(ready[..], ready.Length)
    {
      best := -1;
      for i := 0 to ready.Length
        invariant best == SmallestSlot(ready[..], i)
      {
        if ready[i] != -1 && (best == -1 || ready[i] < ready[best]) {
          best := i;
        }
      }
    }

    /** The inner loop over a line: its last card and the column it is in. */
    /** The last card of a line and its column; -1 twice for an empty line. */
    method LastOnLine(line: nat) returns (last: int, col: int)
      requires Valid() && line < lines
      ensures last == (if rows[line] == [] then -1 else Tail(rows[line])) && col == |rows[line]| - 1
    {
      StartIsProduct(line, lineLen);
      ghost var row := rows[line];
      assert RowAt(board[..], Start(line, lineLen), row, lineLen) && InDeck(row, deck.Length);
      last, col := -1, -1;
      var j := 0;
      while j < lineLen
        invariant 0 <= j <= |row| && col == j - 1
        invariant last == if j == 0 then -1 else row[j - 1]
        decreases lineLen - j
      {
        assert board[..][line * lineLen + j] == board[line * lineLen + j];
        var value := board[line * lineLen + j];
        if value == -1 { break; }
        last, col := value, j;
        j := j + 1;
      }
    }

    /** The second loop of PlaceCard: the line with the nearest smaller last card, and the column
        after that card. Differences of nbrCards + 100 and more are not considered, which excludes
        nothing. */
    method NearestLine(players: array<Player>, card: int) returns (best: int, target: int)
      requires Dealt(players) && card < deck.Length
      ensures best == NearestRow(rows, card, |rows|)
      ensures best != -1 ==> target == |rows[best]|
    {
      best, target := -1, -1;
      var minDiff := deck.Length + 100;
      for i := 0 to lines
        invariant best == NearestRow(rows, card, i)
        invariant best == -1 ==> minDiff == deck.Length + 100
        invariant best != -1 ==> minDiff == card - Tail(rows[best]) && target == |rows[best]|
      {
        var last, col := LastOnLine(i);
        assert InDeck(rows[i], deck.Length);
        if last != -1 && card > last {
          var diff := card - last;
          if diff < minDiff {
            minDiff, best, target := diff, i, col + 1;
          }
        }
      }
    }

    /** Put the card of a slot in the first empty column of a line. */
    method PutCard(players: array<Player>, line: nat, col: nat, index: nat)
      requires Dealt(players) && line < lines && index < players.Length && ready[index] != -1
      requires col == |rows[line]| < lineLen
      modifies this`rows, board, ready
      ensures Dealt(players)
      ensures Model(players) == AppendCard(old(Model(players)), line, index)
    {
      StartIsProduct(line, lineLen);
      LaysAppend(board[..], rows, lineLen, line, ready[index]);
      ghost var before := board[..];
      board[line * lineLen + col] := ready[index];
      assert board[..] == before[Start(line, lineLen) + col := ready[index]];
      rows := rows[line := rows[line] + [ready[index]]];
      ready[index] := -1;
    }

    /** The end of an iteration of PlaceCard: take the line or extend it, and empty the slot. */
    method PlayOn(players: array<Player>, line: nat, target: nat, index: nat)
      requires Dealt(players) && line < lines && index < players.Length && ready[index] != -1
      requires target == |rows[line]|
      modifies this`rows, this`won, board, ready, players
      ensures Dealt(players)
      ensures Model(players) == PlayCard(old(Model(players)), lineLen, Heads(), line, index)
    {
      assert RowAt(board[..], Start(line, lineLen), rows[line], lineLen);
      if target >= lineLen {
        TakeLine(players, line, index);
      } else {
        PutCard(players, line, target, index);
      }
      assert ready[..] == ready[..][index := -1];
      ready[index] := -1;
    }

    /** Resolve the turn. The result is the id of the player who has to choose a line, or
        TURN_DONE, or PHASE_DONE when some player has no card left. */
    method PlaceCard(players: array<Player>) returns (result: int)
      requires Dealt(players)
      modifies this`rows, this`won, this`phase, this`readyCount, board, ready, players
      ensures Dealt(players)
      ensures Model(players) == Settle(old(Model(players)), lineLen, Heads())
      ensures Suspended(Model(players)) ==>
                && result == players[NextSlot(Model(players))].id
                && phase == WaitingExtra && readyCount == old(readyCount)
      ensures !Suspended(Model(players)) ==>
                && readyCount == 0
                && result == (if SomeoneFinished(players[..], handSize) then PHASE_DONE else TURN_DONE)
                && phase == (if SomeoneFinished(players[..], handSize) then Inactive else Waiting)
    {
      SumOneBound(ready[..]);
      var step := 0;
      while step < ready.Length
        invariant 0 <= step <= ready.Length
        invariant Dealt(players) && phase == old(phase) && readyCount == old(readyCount)
        invariant Settle(Model(players), lineLen, Heads()) == Settle(old(Model(players)), lineLen, Heads())
        invariant Pending(Model(players)) <= ready.Length - step
      {
        var index := SmallestReady();
        if index == -1 { break; }
        var line, target := NearestLine(players, ready[index]);
        if line == -1 {
          phase := WaitingExtra;
          return players[index].id;
        }
        PlayCardPending(Model(players), lineLen, Heads(), line, index);
        PlayOn(players, line, target, index);
        step := step + 1;
      }
      SumOneZero(ready[..]);
      readyCount := 0;
      result := CheckHands(players);
    }

    /** The last loop of PlaceCard. */
    method CheckHands(players: array<Player>) returns (result: int)
      modifies this`phase
      ensures result == (if SomeoneFinished(players[..], handSize) then PHASE_DONE else TURN_DONE)
      ensures phase == (if SomeoneFinished(players[..], handSize) then Inactive else Waiting)
    {
      for i := 0 to players.Length
        invariant forall j | 0 <= j < i ::
                    !(players[j].id != 0 && players[j].role == PlayerRole && HandEmpty(players[j], handSize))
      {
        if players[i].id != 0 && players[i].role == PlayerRole {
          var done := HasNoCards(players[i]);
          if done {
            assert players[..][i] == players[i];
            phase := Inactive;
            return PHASE_DONE;
          }
        }
      }
      phase := Waiting;
      return TURN_DONE;
    }

    /** checking_cards: only the first handSize places of the hand are looked at. */
    method HasNoCards(player: Player) returns (done: bool)
      ensures done <==> HandEmpty(player, handSize)
    {
      if player.hand.None? { return true; }
      var cards := player.hand.value;
      for i := 0 to handSize
        invariant forall j | 0 <= j < i && j < |cards| :: cards[j] == -1
      {
        if i < |cards| && cards[i] != -1 { return false; }
      }
      return true;
    }
  }
}
