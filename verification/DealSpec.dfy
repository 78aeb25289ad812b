/** The deal: a first card for every row and a hand for every player, in the order of a shuffled
    list of card ids. */
module DealSpec {
  import opened Options
  import opened Sums
  import opened Turn
  import opened Game
  import opened SessionSpec
  import opened SeatInvariant

  /** The ids 0 .. n-1, each exactly once, in some order. */
  ghost predicate DeckOrder(ids: seq<int>, n: nat) {
    && |ids| == n
    && (forall i | 0 <= i < n :: 0 <= ids[i] < n)
    && (forall c | 0 <= c < n :: Sum(ids, Only(c)) == 1)
  }

  lemma {:induction false} IdentityCounts(ids: seq<int>, c: int)
    requires forall i | 0 <= i < |ids| :: ids[i] == i
    ensures Sum(ids, Only(c)) == if 0 <= c < |ids| then 1 else 0
  {
    if ids != [] {
      var n := |ids| - 1;
      assert forall i | 0 <= i < n :: ids[..n][i] == i;
      IdentityCounts(ids[..n], c);
    }
  }

  datatype Dealing = Dealing(seats: seq<Player>, next: nat)

  /** The first n seats served from position next on. A player without a hand, or for whom too few
      cards are left, keeps what he had. */
  function DealHands(seats: seq<Player>, ids: seq<int>, next: nat, size: nat, n: nat): (d: Dealing)
    requires n <= |seats| && next <= |ids|
    ensures |d.seats| == |seats| && next <= d.next <= |ids|
    ensures forall i | n <= i < |seats| :: d.seats[i] == seats[i]
  {
    if n == 0 then Dealing(seats, next)
    else
      var d := DealHands(seats, ids, next, size, n - 1);
      var p := d.seats[n - 1];
      if p.id == 0 || p.role != PlayerRole || d.next + size > |ids| || p.hand.None? then d
      else Dealing(d.seats[n - 1 := p.(hand := Some(ids[d.next..d.next + size]))], d.next + size)
  }

  /** One card in each row, as long as there are any. */
  function FirstCards(ids: seq<int>, lines: nat): seq<seq<int>> {
    seq(lines, r requires 0 <= r < lines => if r < |ids| then [ids[r]] else [])
  }

  function NothingWon(n: nat): seq<seq<int>> { seq(n, _ => []) }

  function Deal(s: State, rules: Rules, lines: nat, ids: seq<int>, deck: seq<nat>): (s': State)
    requires Shaped(s.table) && lines <= |ids|
    ensures Shaped(s'.table)
  {
    var d := DealHands(s.table.seats, ids, lines, rules.handSize, |s.table.seats|);
    s.(table := Table(FirstCards(ids, lines), s.table.ready, d.seats, NothingWon(|d.seats|)),
       deck := deck, phase := Waiting)
  }

  /** The cards that stay in the box. */
  function Undealt(s: State, rules: Rules, lines: nat, ids: seq<int>): seq<int>
    requires lines <= |ids|
  {
    ids[DealHands(s.table.seats, ids, lines, rules.handSize, |s.table.seats|).next..]
  }

  // ---------------------------------------------------------------- hands

  function HandOf(p: Player): seq<int> {
    match p.hand
    case None => []
    case Some(cards) => cards
  }

  function Hands(seats: seq<Player>): (h: seq<seq<int>>)
    ensures |h| == |seats|
  {
    seq(|seats|, i requires 0 <= i < |seats| => HandOf(seats[i]))
  }

  lemma {:induction false} HandsUpdate(seats: seq<Player>, i: nat, p: Player, w: int -> nat)
    requires i < |seats|
    ensures SumAll(Hands(seats[i := p]), w) + Sum(HandOf(seats[i]), w) == SumAll(Hands(seats), w) + Sum(HandOf(p), w)
  {
    assert Hands(seats[i := p]) == Hands(seats)[i := HandOf(p)];
    SumAllUpdate(Hands(seats), i, HandOf(p), w);
  }

  lemma {:induction false} HandsSame(a: seq<Player>, b: seq<Player>)
    requires |a| == |b| && forall i | 0 <= i < |a| :: a[i].hand == b[i].hand
    ensures Hands(a) == Hands(b)
  {
    assert forall i | 0 <= i < |a| :: Hands(a)[i] == Hands(b)[i];
  }

  // ---------------------------------------------------------------- nothing is lost or doubled

  function Joined(ss: seq<seq<int>>): seq<int> {
    if ss == [] then [] else Joined(ss[..|ss| - 1]) + ss[|ss| - 1]
  }

  lemma {:induction false} JoinedSum(ss: seq<seq<int>>, w: int -> nat)
    ensures Sum(Joined(ss), w) == SumAll(ss, w)
  {
    if ss != [] {
      JoinedSum(ss[..|ss| - 1], w);
      SumAppend(Joined(ss[..|ss| - 1]), ss[|ss| - 1], w);
    }
  }

  lemma {:induction false} FirstCardsJoined(ids: seq<int>, lines: nat)
    requires lines <= |ids|
    ensures Joined(FirstCards(ids, lines)) == ids[..lines]
  {
    if lines > 0 {
      FirstCardsJoined(ids, lines - 1);
      assert FirstCards(ids, lines)[..lines - 1] == FirstCards(ids, lines - 1);
      assert ids[..lines - 1] + [ids[lines - 1]] == ids[..lines];
    }
  }

  /** The number of cards needed to serve the first n seats. */
  function Needed(seats: seq<Player>, size: nat, n: nat): nat
    requires n <= |seats|
  {
    if n == 0 then 0 else Needed(seats, size, n - 1) + (if IsPlayer(seats[n - 1]) then size else 0)
  }

  lemma {:induction false} NeededIsProduct(seats: seq<Player>, size: nat, n: nat)
    requires n <= |seats|
    ensures Needed(seats, size, n) == Count(seats[..n], IsPlayer) * size
  {
    if n > 0 {
      NeededIsProduct(seats, size, n - 1);
      assert seats[..n][..n - 1] == seats[..n - 1];
    }
  }

  /** A hand of dealt cards. */
  ghost predicate HandFrom(p: Player, ids: seq<int>) {
    forall j | 0 <= j < |HandOf(p)| :: HandOf(p)[j] in ids
  }

  /** With room for everybody, exactly the players are served, and nothing else about a seat
      changes. */
  lemma {:induction false} DealHandsSeats(seats: seq<Player>, ids: seq<int>, next: nat, rules: Rules, n: nat)
    requires n <= |seats| && forall i | 0 <= i < |seats| :: SeatOk(seats[i], rules)
    requires next + Needed(seats, rules.handSize, n) <= |ids|
    ensures var d := DealHands(seats, ids, next, rules.handSize, n);
            && d.next == next + Needed(seats, rules.handSize, n)
            && forall i | 0 <= i < |seats| ::
                 SeatOk(d.seats[i], rules) && d.seats[i] == seats[i].(hand := d.seats[i].hand)
    ensures forall i | 0 <= i < n && IsPlayer(seats[i]) ::
              HandFrom(DealHands(seats, ids, next, rules.handSize, n).seats[i], ids)
  {
    if n > 0 {
      DealHandsSeats(seats, ids, next, rules, n - 1);
      assert SeatOk(seats[n - 1], rules);
    }
  }

  lemma {:induction false} DealHandsStep(seats: seq<Player>, ids: seq<int>, next: nat, rules: Rules, n: nat)
    requires 0 < n <= |seats| && forall i | 0 <= i < |seats| :: SeatOk(seats[i], rules)
    requires next + Needed(seats, rules.handSize, n) <= |ids|
    ensures var d0 := DealHands(seats, ids, next, rules.handSize, n - 1);
            var d := DealHands(seats, ids, next, rules.handSize, n);
            && d0.next <= d.next
            && d.seats[..n][..n - 1] == d0.seats[..n - 1]
            && HandOf(d.seats[..n][n - 1]) == ids[d0.next..d.next]
  {
    DealHandsSeats(seats, ids, next, rules, n - 1);
    var d0 := DealHands(seats, ids, next, rules.handSize, n - 1);
    assert SeatOk(seats[n - 1], rules) && d0.seats[n - 1] == seats[n - 1];
    assert ids[d0.next..d0.next] == [];
  }

  /** The hands, one behind the other, are the next cards of the order. */
  lemma {:induction false} HandsJoined(seats: seq<Player>, ids: seq<int>, next: nat, rules: Rules, n: nat)
    requires n <= |seats| && forall i | 0 <= i < |seats| :: SeatOk(seats[i], rules)
    requires next + Needed(seats, rules.handSize, n) <= |ids|
    ensures var d := DealHands(seats, ids, next, rules.handSize, n);
            Joined(Hands(d.seats[..n])) == ids[next..d.next]
  {
    if n == 0 {
      assert ids[next..next] == [];
    } else {
      HandsJoined(seats, ids, next, rules, n - 1);
      DealHandsStep(seats, ids, next, rules, n);
      HandsSnoc(DealHands(seats, ids, next, rules.handSize, n).seats[..n]);
      var d0, d := DealHands(seats, ids, next, rules.handSize, n - 1), DealHands(seats, ids, next, rules.handSize, n);
      SlicesJoin(ids, next, d0.next, d.next);
    }
  }

  lemma {:induction false} SlicesJoin(ids: seq<int>, a: nat, b: nat, c: nat)
    requires a <= b <= c <= |ids|
    ensures ids[a..b] + ids[b..c] == ids[a..c]
  {
  }

  lemma {:induction false} HandsSnoc(seats: seq<Player>)
    requires |seats| > 0
    ensures Joined(Hands(seats)) == Joined(Hands(seats[..|seats| - 1])) + HandOf(seats[|seats| - 1])
  {
    assert Hands(seats)[..|seats| - 1] == Hands(seats[..|seats| - 1]);
  }

  lemma {:induction false} NothingWonSum(n: nat, w: int -> nat)
    ensures SumAll(NothingWon(n), w) == 0
  {
    if n > 0 {
      assert NothingWon(n)[..n - 1] == NothingWon(n - 1);
      NothingWonSum(n - 1, w);
    }
  }

  /** A deal that fits lays out the order: first one card for each row, then full hands for the
      players in the order of their seats; the rest stays in the box. */
  lemma {:induction false} DealLaysOut(s: State, rules: Rules, lines: nat, ids: seq<int>, deck: seq<nat>)
    requires SeatsOk(s, rules)
    requires lines + Needed(s.table.seats, rules.handSize, |s.table.seats|) <= |ids|
    ensures var t := Deal(s, rules, lines, ids, deck).table;
            && Joined(t.rows) + Joined(Hands(t.seats)) + Undealt(s, rules, lines, ids) == ids
            && |t.rows| == lines && (forall r | 0 <= r < lines :: |t.rows[r]| == 1)
            && |t.seats| == |s.table.seats|
            && forall i | 0 <= i < |t.seats| ::
                 |HandOf(t.seats[i])| == if IsPlayer(s.table.seats[i]) then rules.handSize else 0
  {
    var seats := s.table.seats;
    var d := DealHands(seats, ids, lines, rules.handSize, |seats|);
    FirstCardsJoined(ids, lines);
    HandsJoined(seats, ids, lines, rules, |seats|);
    assert d.seats[..|seats|] == d.seats;
    SlicesJoin(ids, 0, lines, d.next);
    SlicesJoin(ids, 0, d.next, |ids|);
    HandSizes(seats, ids, lines, rules);
    assert ids[0..lines] == ids[..lines] && ids[d.next..|ids|] == ids[d.next..] && ids[0..|ids|] == ids;
  }

  lemma {:induction false} HandSizes(seats: seq<Player>, ids: seq<int>, next: nat, rules: Rules)
    requires forall i | 0 <= i < |seats| :: SeatOk(seats[i], rules)
    requires next + Needed(seats, rules.handSize, |seats|) <= |ids|
    ensures var dealt := DealHands(seats, ids, next, rules.handSize, |seats|).seats;
            forall i | 0 <= i < |seats| :: |HandOf(dealt[i])| == if IsPlayer(seats[i]) then rules.handSize else 0
  {
    DealHandsSeats(seats, ids, next, rules, |seats|);
    var dealt := DealHands(seats, ids, next, rules.handSize, |seats|).seats;
    forall i | 0 <= i < |seats| ensures |HandOf(dealt[i])| == if IsPlayer(seats[i]) then rules.handSize else 0 {
      assert SeatOk(dealt[i], rules) && dealt[i].role == seats[i].role;
    }
  }

  /** So each id is in exactly one place: first card of a row, hand, or box. */
  lemma {:induction false} DealConserves(s: State, rules: Rules, lines: nat, ids: seq<int>, deck: seq<nat>,
                                         w: int -> nat)
    requires SeatsOk(s, rules)
    requires lines + Needed(s.table.seats, rules.handSize, |s.table.seats|) <= |ids|
    ensures var t := Deal(s, rules, lines, ids, deck).table;
            SumAll(t.rows, w) + SumAll(Hands(t.seats), w) + SumAll(t.won, w) + Sum(Undealt(s, rules, lines, ids), w)
            == Sum(ids, w)
  {
    var t := Deal(s, rules, lines, ids, deck).table;
    DealLaysOut(s, rules, lines, ids, deck);
    SumAppend(Joined(t.rows) + Joined(Hands(t.seats)), Undealt(s, rules, lines, ids), w);
    SumAppend(Joined(t.rows), Joined(Hands(t.seats)), w);
    JoinedSum(t.rows, w);
    JoinedSum(Hands(t.seats), w);
    NothingWonSum(|t.seats|, w);
  }

  lemma {:induction false} DealKeepsSeats(s: State, rules: Rules, lines: nat, ids: seq<int>, deck: seq<nat>)
    requires SeatsOk(s, rules)
    requires lines + Needed(s.table.seats, rules.handSize, |s.table.seats|) <= |ids|
    ensures SeatsOk(Deal(s, rules, lines, ids, deck), rules)
  {
    DealHandsSeats(s.table.seats, ids, lines, rules, |s.table.seats|);
    CountSame(s.table.seats, Deal(s, rules, lines, ids, deck).table.seats, IsOccupied);
    CountSame(s.table.seats, Deal(s, rules, lines, ids, deck).table.seats, IsPlayer);
  }

  // ---------------------------------------------------------------- does the deal fit

  /** The guard of init_game; the product is cut to a uint8_t. */
  predicate InitAccepts(cards: nat, handSize: nat, capacity: nat) {
    !(cards <= handSize * capacity % 256)
  }

  /** Sessions are created for 2 to 20 players with the default rules. If init_game accepts the
      capacity, a deal to any number of players that may sit down fits. */
  lemma {:induction false} DefaultDealFits(s: State, capacity: nat)
    requires 2 <= capacity <= 20 && InitAccepts(104, 10, capacity)
    requires SeatsOk(s, Rules(5, 10, capacity))
    ensures 4 + Needed(s.table.seats, 10, |s.table.seats|) <= 104
  {
    SeatingNeeds(s, Rules(5, 10, capacity));
  }

  /** What PKT_SESSION_SET_GAME_RULES has to pass: a check of its own, then the guard. */
  predicate RulesAccepted(cards: nat, handSize: nat, capacity: nat) {
    handSize * capacity <= cards && InitAccepts(cards, handSize, capacity)
  }

  /** With both checks the product cannot wrap around. */
  lemma {:induction false} AcceptedIff(cards: nat, handSize: nat, capacity: nat)
    requires cards < 256
    ensures RulesAccepted(cards, handSize, capacity) <==> handSize * capacity < cards
  {
    var product := handSize * capacity;
    if product <= cards { assert product % 256 == product; }
  }

  /** A session with as many players as it may have. */
  function FullTable(rules: Rules, seats: nat): (t: Table)
    ensures Shaped(t)
  {
    var hand := seq(rules.handSize, _ => 0);
    var nobody := Player(0, NoRole, None, 0, false);
    Table([], seq(seats, _ => -1),
          seq(seats, i requires 0 <= i =>
            if i < rules.capacity then Player(i + 1, PlayerRole, Some(hand), 0, true) else nobody),
          NothingWon(seats))
  }

  lemma {:induction false} CountFirst(seats: seq<Player>, f: Player -> bool, n: nat)
    requires n <= |seats| && forall i | 0 <= i < |seats| :: f(seats[i]) <==> i < n
    ensures Count(seats, f) == n
  {
    if seats != [] {
      var last := |seats| - 1;
      assert forall i | 0 <= i < last :: seats[..last][i] == seats[i];
      CountFirst(seats[..last], f, if n == |seats| then n - 1 else n);
    }
  }

  lemma {:induction false} Times(a: int, b: int, c: nat)
    requires a <= b
    ensures a * c <= b * c
  {
  }

  lemma {:induction false} SeatingNeeds(s: State, rules: Rules)
    requires SeatsOk(s, rules)
    ensures Needed(s.table.seats, rules.handSize, |s.table.seats|) == s.active * rules.handSize
            <= rules.handSize * rules.capacity
  {
    NeededIsProduct(s.table.seats, rules.handSize, |s.table.seats|);
    assert s.table.seats[..|s.table.seats|] == s.table.seats;
    Times(s.active, rules.capacity, rules.handSize);
  }

  lemma {:induction false} FullTableNeeds(rules: Rules, seats: nat) returns (s: State)
    requires rules.capacity <= seats
    ensures SeatsOk(s, rules) && |s.table.seats| == seats
    ensures Needed(s.table.seats, rules.handSize, seats) == rules.handSize * rules.capacity
  {
    var t := FullTable(rules, seats);
    s := State(t, [], Inactive, 0, 0, rules.capacity, rules.capacity);
    CountFirst(t.seats, IsOccupied, rules.capacity);
    CountFirst(t.seats, IsPlayer, rules.capacity);
    SeatingNeeds(s, rules);
  }

  /** Every seating that the rules allow can be dealt to exactly when the first cards of the rows and
      full hands for all players are in the deck. */
  lemma {:induction false} EverySeatingFits(rules: Rules, lines: nat, cards: nat, seats: nat)
    requires rules.capacity <= seats
    ensures (forall s: State | SeatsOk(s, rules) && |s.table.seats| == seats ::
               lines + Needed(s.table.seats, rules.handSize, seats) <= cards)
            <==> lines + rules.handSize * rules.capacity <= cards
  {
    forall s: State | SeatsOk(s, rules) && |s.table.seats| == seats
      ensures Needed(s.table.seats, rules.handSize, seats) <= rules.handSize * rules.capacity
    {
      SeatingNeeds(s, rules);
    }
    var full := FullTableNeeds(rules, seats);
  }

  /** The checks forget the rows: these rules are accepted, but a full table cannot be served. */
  lemma {:induction false} RowsForgotten()
    ensures var rules := Rules(10, 10, 10);
            && RulesAccepted(104, rules.handSize, rules.capacity)
            && exists s: State ::
                 SeatsOk(s, rules) && |s.table.seats| == 20 && 5 + Needed(s.table.seats, rules.handSize, 20) > 104
  {
    AcceptedIff(104, 10, 10);
    EverySeatingFits(Rules(10, 10, 10), 5, 104, 20);
  }
}
