/** One turn of the table as the server resolves it, slot by slot: the smallest ready card is
    played on the row with the nearest smaller tail, a full row is taken by the owner of the card,
    and the resolution stops when no row can receive the card. */
module Turn {
  import opened Options
  import opened Sums

  /** ROLE_NONE, ROLE_PLAYER and ROLE_OBSERVER. */
  datatype Role = NoRole | PlayerRole | ObserverRole

  /** One seat of a session. A hand that was never allocated is None. */
  datatype Player = Player(id: nat, role: Role, hand: Option<seq<int>>, heads: nat, connected: bool)

  /** The rows of the board without their empty cells, the slot of each seat for the card it
      plays (-1 when empty), the seats, and the cards each seat has taken since the deal. */
  datatype Table = Table(rows: seq<seq<int>>, ready: seq<int>, seats: seq<Player>, won: seq<seq<int>>)

  predicate NonEmptyRows(rows: seq<seq<int>>) {
    forall r | 0 <= r < |rows| :: |rows[r]| > 0
  }

  predicate Shaped(t: Table) {
    && |t.ready| == |t.seats| == |t.won|
    && NonEmptyRows(t.rows)
  }

  function Tail(row: seq<int>): int
    requires |row| > 0
  {
    row[|row| - 1]
  }

  /** The first slot, among the first n, that holds the smallest ready card; -1 when all are empty. */
  function SmallestSlot(ready: seq<int>, n: nat): (m: int)
    requires n <= |ready|
    ensures -1 <= m < n
    ensures m == -1 <==> forall i | 0 <= i < n :: ready[i] == -1
    ensures m != -1 ==> ready[m] != -1 && forall i | 0 <= i < n && ready[i] != -1 :: ready[m] <= ready[i]
    ensures m != -1 ==> forall i | 0 <= i < m && ready[i] != -1 :: ready[m] < ready[i]
  {
    if n == 0 then -1
    else
      var m := SmallestSlot(ready, n - 1);
      if ready[n - 1] == -1 then m
      else if m == -1 || ready[n - 1] < ready[m] then n - 1
      else m
  }

  /** The first row, among the first n, whose tail is the greatest tail below the card; -1 when
      every tail is above it. */
  function NearestRow(rows: seq<seq<int>>, card: int, n: nat): (r: int)
    requires n <= |rows| && NonEmptyRows(rows)
    ensures -1 <= r < n
    ensures r == -1 <==> forall q | 0 <= q < n :: card <= Tail(rows[q])
    ensures r != -1 ==> Tail(rows[r]) < card
    ensures r != -1 ==> forall q | 0 <= q < n && Tail(rows[q]) < card :: Tail(rows[q]) <= Tail(rows[r])
  {
    if n == 0 then -1
    else
      var r := NearestRow(rows, card, n - 1);
      if Tail(rows[n - 1]) < card && (r == -1 || Tail(rows[r]) < Tail(rows[n - 1])) then n - 1 else r
  }

  /** The owner of slot i takes row r, whose only card becomes the one that was in the slot. The
      score is a uint8_t. */
  function TakeRow(t: Table, deck: seq<nat>, r: nat, i: nat): Table
    requires Shaped(t) && r < |t.rows| && i < |t.ready|
  {
    t.(rows := t.rows[r := [t.ready[i]]],
       ready := t.ready[i := -1],
       seats := t.seats[i := t.seats[i].(heads := (t.seats[i].heads + Sum(t.rows[r], HeadsOn(deck))) % 256)],
       won := t.won[i := t.won[i] + t.rows[r]])
  }

  function AppendCard(t: Table, r: nat, i: nat): Table
    requires Shaped(t) && r < |t.rows| && i < |t.ready|
  {
    t.(rows := t.rows[r := t.rows[r] + [t.ready[i]]], ready := t.ready[i := -1])
  }

  function PlayCard(t: Table, len: nat, deck: seq<nat>, r: nat, i: nat): Table
    requires Shaped(t) && r < |t.rows| && i < |t.ready|
  {
    if |t.rows[r]| >= len then TakeRow(t, deck, r, i) else AppendCard(t, r, i)
  }

  /** The slot whose card is played next, and the row it goes to. */
  function NextSlot(t: Table): int { SmallestSlot(t.ready, |t.ready|) }

  function NextRow(t: Table): int
    requires Shaped(t) && NextSlot(t) != -1
  {
    NearestRow(t.rows, t.ready[NextSlot(t)], |t.rows|)
  }

  /** Some card is ready, and the smallest one is below every tail. */
  predicate Suspended(t: Table)
    requires Shaped(t)
  {
    NextSlot(t) != -1 && NextRow(t) == -1
  }

  function Pending(t: Table): nat { Sum(t.ready, One) }

  lemma {:induction false} PlayCardPending(t: Table, len: nat, deck: seq<nat>, r: nat, i: nat)
    requires Shaped(t) && r < |t.rows| && i < |t.ready| && t.ready[i] != -1
    ensures Shaped(PlayCard(t, len, deck, r, i))
    ensures Pending(PlayCard(t, len, deck, r, i)) == Pending(t) - 1
  {
    SumUpdate(t.ready, i, -1, One);
  }

  /** The whole resolution: cards are played until none is ready or the next one is blocked. */
  function Settle(t: Table, len: nat, deck: seq<nat>): (t': Table)
    requires Shaped(t)
    ensures Shaped(t') && |t'.ready| == |t.ready| && |t'.rows| == |t.rows|
    ensures NextSlot(t') == -1 || Suspended(t')
    decreases Pending(t)
  {
    var i := NextSlot(t);
    if i == -1 || NextRow(t) == -1 then t
    else
      PlayCardPending(t, len, deck, NextRow(t), i);
      Settle(PlayCard(t, len, deck, NextRow(t), i), len, deck)
  }
}
