/** The order in which the players of a turn send their cards does not matter. */
module Order {
  import opened Turn
  import opened Game
  import opened SessionSpec

  datatype Answer = Answer(client: nat, visible: int)

  ghost predicate Seated(s: State, rules: Rules, answers: seq<Answer>) {
    forall k | 0 <= k < |answers| :: SeatedPlayer(s, rules, answers[k].client)
  }

  ghost predicate DistinctClients(answers: seq<Answer>) {
    forall j, k | 0 <= j < |answers| && 0 <= k < |answers| && answers[j].client == answers[k].client :: j == k
  }

  lemma {:induction false} StaysSeated(s: State, rules: Rules, a: Answer, client: nat)
    requires Shaped(s.table) && s.phase == Waiting && SeatedPlayer(s, rules, a.client)
    requires SeatedPlayer(s, rules, client)
    ensures SeatedPlayer(InfoReturn(s, rules, a.client, a.visible), rules, client)
    ensures SeatOf(InfoReturn(s, rules, a.client, a.visible).table.seats, client) == SeatOf(s.table.seats, client)
  {
    var seats, seats' := s.table.seats, InfoReturn(s, rules, a.client, a.visible).table.seats;
    assert forall j | 0 <= j < |seats| :: SeatHas(seats'[j], client) <==> SeatHas(seats[j], client);
  }

  /** The cards of the answers put in their slots, without resolving. */
  ghost function PutAll(s: State, rules: Rules, answers: seq<Answer>): (s': State)
    requires Shaped(s.table) && s.phase == Waiting && Seated(s, rules, answers)
    ensures Shaped(s'.table) && s'.phase == Waiting
    decreases |answers|
  {
    if answers == [] then s
    else
      SeatedAfter(s, rules, answers);
      PutAll(InfoReturn(s, rules, answers[0].client, answers[0].visible), rules, answers[1..])
  }

  lemma {:induction false} SeatedAfter(s: State, rules: Rules, answers: seq<Answer>)
    requires Shaped(s.table) && s.phase == Waiting && Seated(s, rules, answers) && answers != []
    ensures InfoReturn(s, rules, answers[0].client, answers[0].visible).phase == Waiting
    ensures Seated(InfoReturn(s, rules, answers[0].client, answers[0].visible), rules, answers[1..])
  {
    forall k | 0 <= k < |answers[1..]|
      ensures SeatedPlayer(InfoReturn(s, rules, answers[0].client, answers[0].visible), rules, answers[1..][k].client)
    {
      StaysSeated(s, rules, answers[0], answers[k + 1].client);
    }
  }

  /** The messages as the session handles them, one after the other. */
  ghost function HandleAll(s: State, rules: Rules, answers: seq<Answer>): State
    requires Shaped(s.table) && s.phase == Waiting && Seated(s, rules, answers)
    requires s.readyCount + |answers| <= s.active
    decreases |answers|
  {
    if answers == [] then s
    else if |answers| == 1 then Submit(s, rules, answers[0].client, answers[0].visible, true)
    else
      SeatedAfter(s, rules, answers);
      NotYet(s, rules, answers[0]);
      HandleAll(Submit(s, rules, answers[0].client, answers[0].visible, true), rules, answers[1..])
  }

  /** A card that cannot be the last one of the turn resolves nothing. */
  lemma {:induction false} NotYet(s: State, rules: Rules, a: Answer)
    requires Shaped(s.table) && s.phase == Waiting && SeatedPlayer(s, rules, a.client)
    requires s.readyCount + 1 < s.active
    ensures Submit(s, rules, a.client, a.visible, true) == InfoReturn(s, rules, a.client, a.visible)
    ensures InfoReturn(s, rules, a.client, a.visible).readyCount <= s.readyCount + 1
    ensures InfoReturn(s, rules, a.client, a.visible).active == s.active
  {
  }

  lemma {:induction false} HandleIsPut(s: State, rules: Rules, answers: seq<Answer>)
    requires Shaped(s.table) && s.phase == Waiting && Seated(s, rules, answers) && answers != []
    requires s.readyCount + |answers| <= s.active
    ensures HandleAll(s, rules, answers) == Resolve(PutAll(s, rules, answers), rules, true)
    decreases |answers|
  {
    var s1 := InfoReturn(s, rules, answers[0].client, answers[0].visible);
    SeatedAfter(s, rules, answers);
    if |answers| == 1 {
      assert PutAll(s1, rules, answers[1..]) == s1;
    } else {
      NotYet(s, rules, answers[0]);
      HandleIsPut(s1, rules, answers[1..]);
    }
  }

  /** Two players' cards go to different slots and leave different hands. */
  lemma {:induction false} InfoReturnsCommute(s: State, rules: Rules, a: Answer, b: Answer)
    requires Shaped(s.table) && s.phase == Waiting && a.client != b.client
    requires SeatedPlayer(s, rules, a.client) && SeatedPlayer(s, rules, b.client)
    ensures var sa, sb := InfoReturn(s, rules, a.client, a.visible), InfoReturn(s, rules, b.client, b.visible);
            && SeatedPlayer(sa, rules, b.client) && SeatedPlayer(sb, rules, a.client)
            && sa.phase == Waiting && sb.phase == Waiting
            && InfoReturn(sa, rules, b.client, b.visible) == InfoReturn(sb, rules, a.client, a.visible)
  {
    StaysSeated(s, rules, a, b.client);
    StaysSeated(s, rules, b, a.client);
    StaysSeated(s, rules, a, a.client);
    StaysSeated(s, rules, b, b.client);
    var i, j := SeatOf(s.table.seats, a.client), SeatOf(s.table.seats, b.client);
    var sa, sb := InfoReturn(s, rules, a.client, a.visible), InfoReturn(s, rules, b.client, b.visible);
    var sab, sba := InfoReturn(sa, rules, b.client, b.visible), InfoReturn(sb, rules, a.client, a.visible);
    assert i != j;
    assert sab.table.seats == sba.table.seats;
    assert sab.table.ready == sba.table.ready;
  }

  ghost function Put(s: State, rules: Rules, a: Answer): (s': State)
    requires Shaped(s.table) && s.phase == Waiting && SeatedPlayer(s, rules, a.client)
    ensures Shaped(s'.table) && s'.phase == Waiting
  {
    InfoReturn(s, rules, a.client, a.visible)
  }

  lemma {:induction false} PutCons(s: State, rules: Rules, a: Answer, rest: seq<Answer>)
    requires Shaped(s.table) && s.phase == Waiting && Seated(s, rules, [a] + rest)
    ensures SeatedPlayer(s, rules, a.client) && Seated(Put(s, rules, a), rules, rest)
    ensures PutAll(s, rules, [a] + rest) == PutAll(Put(s, rules, a), rules, rest)
  {
    var answers := [a] + rest;
    assert answers[0] == a && answers[1..] == rest;
    SeatedAfter(s, rules, answers);
  }

  function Without(answers: seq<Answer>, k: nat): seq<Answer>
    requires k < |answers|
  {
    answers[..k] + answers[k + 1..]
  }

  /** The answer at position k might as well have come first. */
  lemma {:induction false} ComesFirst(s: State, rules: Rules, answers: seq<Answer>, k: nat)
    requires Shaped(s.table) && s.phase == Waiting && Seated(s, rules, answers) && DistinctClients(answers)
    requires k < |answers|
    ensures Seated(s, rules, [answers[k]] + Without(answers, k))
    ensures PutAll(s, rules, answers) == PutAll(s, rules, [answers[k]] + Without(answers, k))
    decreases k
  {
    SameAnswers(s, rules, answers, k);
    if k == 0 {
      assert [answers[k]] + Without(answers, k) == answers;
    } else {
      var a, b, rest := answers[0], answers[k], answers[1..];
      var mid := Without(rest, k - 1);
      assert answers == [a] + rest && Without(answers, k) == [a] + mid && rest[k - 1] == b;
      assert DistinctClients(rest);
      PutCons(s, rules, a, rest);
      ComesFirst(Put(s, rules, a), rules, rest, k - 1);
      PutCons(Put(s, rules, a), rules, b, mid);
      PutCons(s, rules, b, [a] + mid);
      PutCons(Put(s, rules, b), rules, a, mid);
      InfoReturnsCommute(s, rules, a, b);
    }
  }

  lemma {:induction false} SameAnswers(s: State, rules: Rules, answers: seq<Answer>, k: nat)
    requires Seated(s, rules, answers) && k < |answers|
    ensures Seated(s, rules, [answers[k]] + Without(answers, k))
  {
    var moved := [answers[k]] + Without(answers, k);
    forall j | 0 <= j < |moved| ensures SeatedPlayer(s, rules, moved[j].client) {
      assert moved[j] == answers[if j == 0 then k else if j <= k then j - 1 else j];
    }
  }

  lemma {:induction false} AnyOrderPut(s: State, rules: Rules, as1: seq<Answer>, as2: seq<Answer>)
    requires Shaped(s.table) && s.phase == Waiting && Seated(s, rules, as1) && Seated(s, rules, as2)
    requires DistinctClients(as1) && DistinctClients(as2) && multiset(as1) == multiset(as2)
    ensures PutAll(s, rules, as1) == PutAll(s, rules, as2)
    decreases |as1|
  {
    if as1 == [] {
      assert |multiset(as2)| == 0;
    } else {
      var a, rest := as1[0], as1[1..];
      assert as1 == [a] + rest;
      var k := SameBag(a, rest, as2);
      ComesFirst(s, rules, as2, k);
      PutCons(s, rules, a, rest);
      PutCons(s, rules, a, Without(as2, k));
      RestDistinct(as2, k);
      RestDistinct(as1, 0);
      assert Without(as1, 0) == rest;
      AnyOrderPut(Put(s, rules, a), rules, rest, Without(as2, k));
    }
  }

  lemma {:induction false} SameBag(a: Answer, rest: seq<Answer>, as2: seq<Answer>) returns (k: nat)
    requires multiset([a] + rest) == multiset(as2)
    ensures k < |as2| && as2[k] == a && multiset(Without(as2, k)) == multiset(rest)
  {
    assert a in multiset([a] + rest);
    assert a in as2;
    k :| 0 <= k < |as2| && as2[k] == a;
    assert as2 == as2[..k] + [a] + as2[k + 1..];
    assert multiset([a] + rest) == multiset{a} + multiset(rest);
    assert multiset(as2) == multiset(as2[..k]) + multiset{a} + multiset(as2[k + 1..]);
    assert multiset(Without(as2, k)) == multiset(as2[..k]) + multiset(as2[k + 1..]);
    assert multiset(Without(as2, k)) == multiset(as2) - multiset{a} == multiset(rest);
  }

  lemma {:induction false} RestDistinct(answers: seq<Answer>, k: nat)
    requires DistinctClients(answers) && k < |answers|
    ensures DistinctClients(Without(answers, k))
  {
    var rest := Without(answers, k);
    forall i, j | 0 <= i < |rest| && 0 <= j < |rest| && rest[i].client == rest[j].client ensures i == j {
      assert rest[i] == answers[if i < k then i else i + 1];
      assert rest[j] == answers[if j < k then j else j + 1];
    }
  }

  /** Whatever the order of the answers of a turn, accepted or refused, the session ends up in the
      same state, the resolution of the turn included. */
  lemma {:induction false} SubmissionOrderIrrelevant(s: State, rules: Rules, as1: seq<Answer>, as2: seq<Answer>)
    requires Shaped(s.table) && s.phase == Waiting && Seated(s, rules, as1) && Seated(s, rules, as2)
    requires DistinctClients(as1) && DistinctClients(as2) && multiset(as1) == multiset(as2)
    requires s.readyCount + |as1| <= s.active && s.readyCount + |as2| <= s.active
    ensures HandleAll(s, rules, as1) == HandleAll(s, rules, as2)
  {
    if as1 == [] {
      assert |multiset(as2)| == 0;
    } else {
      assert as1[0] in multiset(as1);
      HandleIsPut(s, rules, as1);
      HandleIsPut(s, rules, as2);
      AnyOrderPut(s, rules, as1, as2);
    }
  }
}
