/** The bus from the server to a session: the ring shared by one producer and one consumer, and the
    eventfd that wakes the consumer up. Every atomic access and every copy of a slot is a step of
    its own, and the steps of the two threads interleave in any way.

    An atomic variable is the list of the values stored to it (its modification order, section
    5.1.2.4 of ISO/IEC 9899:2011). An acquire load by the other thread may return any of them that
    is not older than what this thread already knows: the value it last read, or what was stored
    before the last write to the eventfd that it has read. */
module Bus {
  import opened Options
  import opened Bits

  /** Where the producer stands in session_bus_push, and the local variables it holds there. */
  datatype Producer<T> =
    | Rests
    | HeadLoaded(x: T, head: nat)
    | Writing(x: T, head: nat, next: nat)
    | Written(x: T, next: nat)
    | Published

  /** Where the consumer stands in the loop of session_main. left is the count of the loop. */
  datatype Consumer<T> =
    | Waits
    | Draining(left: nat)
    | TailLoaded(left: nat, tail: nat)
    | Reading(left: nat, tail: nat)
    | Read(left: nat, tail: nat, x: Option<T>)

  /** slots: what the ring holds (None where a copy is under way). heads, tails: the stores to the
      two positions. signals: the counter of the eventfd. tailSeen, headSeen: the last store known
      to the thread that loads it. marked: the last store to head before the last signal. pushed,
      popped: everything that ever went in and came out. */
  datatype System<T> = System(
    slots: seq<Option<T>>, heads: seq<nat>, tails: seq<nat>, signals: nat,
    p: Producer<T>, tailSeen: nat, c: Consumer<T>, headSeen: nat, marked: nat,
    pushed: seq<T>, popped: seq<Option<T>>)

  /** view chooses the store that an acquire load returns. */
  datatype Step<T> = Push(x: T) | ProducerStep(view: nat) | ConsumerStep(view: nat) | ExtraSignal

  function Last(s: seq<nat>): nat
    requires |s| > 0
  {
    s[|s| - 1]
  }

  predicate WellFormed<T>(s: System<T>) {
    |s.slots| > 0 && |s.heads| > 0 && |s.tails| > 0
  }

  function Mask<T>(s: System<T>, x: nat): (slot: nat)
    requires WellFormed(s)
  {
    BitAnd(x, |s.slots| - 1)
  }

  /** A call of session_bus_push starts by loading the head, which only the producer stores. */
  function StartPush<T>(s: System<T>, x: T): System<T>
    requires WellFormed(s)
  {
    if s.p.Rests? then s.(p := HeadLoaded(x, Last(s.heads))) else s
  }

  /** Load the tail; give up when full, else begin to copy into the slot. */
  function LoadTail<T>(s: System<T>, view: nat): System<T>
    requires WellFormed(s) && s.p.HeadLoaded?
  {
    if !(s.tailSeen <= view < |s.tails|) then s
    else if Mask(s, s.p.head + 1) == s.tails[view] then s.(tailSeen := view, p := Rests)
    else s.(tailSeen := view, p := Writing(s.p.x, s.p.head, Mask(s, s.p.head + 1)),
            slots := Overwrite(s.slots, Mask(s, s.p.head), None))
  }

  function Overwrite<T>(slots: seq<Option<T>>, slot: nat, x: Option<T>): (r: seq<Option<T>>)
    ensures |r| == |slots|
  {
    if slot < |slots| then slots[slot := x] else slots
  }

  function StepProducer<T>(s: System<T>, view: nat): System<T>
    requires WellFormed(s)
  {
    match s.p
    case Rests => s
    case HeadLoaded(_, _) => LoadTail(s, view)
    case Writing(x, head, next) => s.(p := Written(x, next), slots := Overwrite(s.slots, Mask(s, head), Some(x)))
    case Written(x, next) => s.(p := Published, heads := s.heads + [next], pushed := s.pushed + [x])
    case Published => s.(p := Rests, signals := s.signals + 1, marked := |s.heads| - 1)
  }

  /** Read the eventfd: the counter becomes the count of the loop, and is reset. */
  function Wake<T>(s: System<T>): System<T> {
    s.(c := Draining(s.signals), signals := 0, headSeen := if s.headSeen < s.marked then s.marked else s.headSeen)
  }

  /** Load the head; leave the loop when empty, else begin to copy out of the slot. */
  function LoadHead<T>(s: System<T>, view: nat): System<T>
    requires WellFormed(s) && s.c.TailLoaded?
  {
    if !(s.headSeen <= view < |s.heads|) then s
    else s.(headSeen := view, c := if s.c.tail == s.heads[view] then Waits else Reading(s.c.left, s.c.tail))
  }

  function StepConsumer<T>(s: System<T>, view: nat): System<T>
    requires WellFormed(s)
  {
    match s.c
    case Waits => Wake(s)
    case Draining(left) => s.(c := if left == 0 then Waits else TailLoaded(left - 1, Last(s.tails)))
    case TailLoaded(_, _) => LoadHead(s, view)
    case Reading(left, tail) =>
      s.(c := Read(left, tail, if Mask(s, tail) < |s.slots| then s.slots[Mask(s, tail)] else None))
    case Read(left, tail, x) =>
      s.(c := Draining(left), tails := s.tails + [Mask(s, tail + 1)], popped := s.popped + [x])
  }

  function Next<T>(s: System<T>, step: Step<T>): (s': System<T>)
    requires WellFormed(s)
    ensures WellFormed(s')
  {
    match step
    case Push(x) => StartPush(s, x)
    case ProducerStep(view) => StepProducer(s, view)
    case ConsumerStep(view) => StepConsumer(s, view)
    case ExtraSignal => s.(signals := s.signals + 1)
  }

  function Run<T>(s: System<T>, steps: seq<Step<T>>): (s': System<T>)
    requires WellFormed(s)
    ensures WellFormed(s')
    decreases |steps|
  {
    if steps == [] then s else Next(Run(s, steps[..|steps| - 1]), steps[|steps| - 1])
  }

  function Initial<T>(capacity: nat): System<T> {
    System(seq(capacity, _ => None), [0], [0], 0, Rests, 0, Waits, 0, 0, [], [])
  }

  // ---------------------------------------------------------------- the invariant

  /** How many values were published, how many slots were given back. */
  function Heads<T>(s: System<T>): int { |s.heads| - 1 }
  function Tails<T>(s: System<T>): int { |s.tails| - 1 }

  /** How many more values the consumer takes before it reads the eventfd again. */
  function Remaining<T>(c: Consumer<T>): nat {
    match c
    case Waits => 0
    case Draining(left) => left
    case _ => c.left + 1
  }

  function InFlight<T>(p: Producer<T>): nat { if p.Published? then 1 else 0 }

  /** The stored positions are the counts, wrapped. */
  ghost predicate Wrapped(s: seq<nat>, capacity: nat)
    requires capacity > 0
  {
    forall k | 0 <= k < |s| :: s[k] == Wrap(k, capacity)
  }

  ghost predicate Counters<T>(s: System<T>) {
    && WellFormed(s) && PowerOfTwo(|s.slots|)
    && Wrapped(s.heads, |s.slots|) && Wrapped(s.tails, |s.slots|)
    && s.tailSeen <= Tails(s) <= s.headSeen <= Heads(s)
    && Heads(s) - s.tailSeen < |s.slots|
    && |s.pushed| == Heads(s) && |s.popped| == Tails(s)
  }

  ghost predicate ProducerOk<T>(s: System<T>)
    requires Counters(s)
  {
    var n := |s.slots|;
    match s.p
    case HeadLoaded(_, head) => head == Wrap(Heads(s), n)
    case Writing(_, head, next) =>
      head == Wrap(Heads(s), n) && next == Wrap(Heads(s) + 1, n) && Heads(s) + 1 - s.tailSeen < n
    case Written(x, next) =>
      next == Wrap(Heads(s) + 1, n) && Heads(s) + 1 - s.tailSeen < n && s.slots[Wrap(Heads(s), n)] == Some(x)
    case _ => true
  }

  ghost predicate ConsumerOk<T>(s: System<T>)
    requires Counters(s)
  {
    match s.c
    case TailLoaded(_, tail) => tail == Wrap(Tails(s), |s.slots|)
    case Reading(_, tail) => tail == Wrap(Tails(s), |s.slots|) && Tails(s) < s.headSeen
    case Read(_, tail, x) => tail == Wrap(Tails(s), |s.slots|) && Tails(s) < s.headSeen && x == Some(s.pushed[Tails(s)])
    case _ => true
  }

  ghost predicate Holds<T>(slots: seq<Option<T>>, from: nat, pushed: seq<T>)
    requires |slots| > 0
  {
    forall k | from <= k < |pushed| :: slots[Wrap(k, |slots|)] == Some(pushed[k])
  }

  /** Every value published and not yet taken is in its slot; every value taken is the one pushed. */
  ghost predicate Data<T>(s: System<T>)
    requires Counters(s)
  {
    && Holds(s.slots, Tails(s), s.pushed)
    && (forall k | 0 <= k < |s.popped| :: s.popped[k] == Some(s.pushed[k]))
  }

  /** Nothing is queued that no signal, no turn of the loop and no push under way stands for. */
  ghost predicate Signalled<T>(s: System<T>) {
    && Heads(s) <= s.headSeen + s.signals + InFlight(s.p)
    && Heads(s) <= Tails(s) + s.signals + Remaining(s.c) + InFlight(s.p)
    && s.marked + InFlight(s.p) == Heads(s)
  }

  ghost predicate Inv<T>(s: System<T>) {
    Counters(s) && ProducerOk(s) && ConsumerOk(s) && Data(s) && Signalled(s)
  }

  lemma {:induction false} MaskWraps<T>(s: System<T>, x: nat)
    requires Counters(s)
    ensures Mask(s, x) == Wrap(x, |s.slots|)
  {
    Bits.Mask(x, |s.slots|);
  }

  lemma {:induction false} InitialInv<T>(capacity: nat)
    requires PowerOfTwo(capacity)
    ensures Inv(Initial<T>(capacity))
  {
    Bits.Mask(0, capacity);
  }

  lemma {:induction false} WrapBoth(j: nat, k: nat, n: nat)
    requires n > 0 && j <= k < j + n
    ensures Wrap(j, n) == Wrap(k, n) <==> j == k
  {
    if j < k { WrapApart(j, k, n); }
  }

  lemma {:induction false} StartPushInv<T>(s: System<T>, x: T)
    requires Inv(s)
    ensures Inv(StartPush(s, x))
  {
  }

  lemma {:induction false} NextWraps(k: nat, n: nat)
    requires n > 0
    ensures Wrap(Wrap(k, n) + 1, n) == Wrap(k + 1, n)
    ensures Wrap(Wrap(k, n), n) == Wrap(k, n)
  {
    WrapNext(k, n);
    WrapNext(Wrap(k, n), n);
  }

  lemma {:induction false} Masks<T>(s: System<T>, k: nat)
    requires Counters(s)
    ensures Mask(s, Wrap(k, |s.slots|)) == Wrap(k, |s.slots|)
    ensures Mask(s, Wrap(k, |s.slots|) + 1) == Wrap(k + 1, |s.slots|)
  {
    NextWraps(k, |s.slots|);
    MaskWraps(s, Wrap(k, |s.slots|));
    MaskWraps(s, Wrap(k, |s.slots|) + 1);
  }

  /** The test the producer makes: with what it knows of the tail, every slot but one is taken. */
  lemma {:induction false} FullTest<T>(s: System<T>, view: nat)
    requires Counters(s) && s.tailSeen <= view < |s.tails|
    ensures Wrap(Heads(s) + 1, |s.slots|) == s.tails[view] <==> Heads(s) + 1 - view == |s.slots|
  {
    var h, n := Heads(s), |s.slots|;
    if h + 1 == view + n { WrapFull(view, n); } else { WrapBoth(view, h + 1, n); }
  }

  /** The slot of the next value holds nothing still to be taken. */
  lemma {:induction false} SlotIsFree<T>(slots: seq<Option<T>>, from: nat, pushed: seq<T>, x: Option<T>)
    requires |slots| > 0 && from <= |pushed| < from + |slots| && Holds(slots, from, pushed)
    ensures Holds(slots[Wrap(|pushed|, |slots|) := x], from, pushed)
  {
    forall k | from <= k < |pushed|
      ensures Wrap(k, |slots|) != Wrap(|pushed|, |slots|)
    {
      WrapApart(k, |pushed|, |slots|);
    }
  }

  lemma {:induction false} BeginWriteInv<T>(s: System<T>, s': System<T>, view: nat)
    requires Inv(s) && s.p.HeadLoaded? && s.tailSeen <= view < |s.tails| && Heads(s) + 1 - view < |s.slots|
    requires s' == s.(tailSeen := view, p := Writing(s.p.x, s.p.head, Wrap(Heads(s) + 1, |s.slots|)),
                      slots := s.slots[Wrap(Heads(s), |s.slots|) := None])
    ensures Inv(s')
  {
    SlotIsFree(s.slots, Tails(s), s.pushed, None);
  }

  /** The producer gives up exactly when, by the tail it has loaded, all slots but one are taken. */
  lemma {:induction false} GivesUpWhenFull<T>(s: System<T>, view: nat)
    requires Counters(s) && ProducerOk(s) && s.p.HeadLoaded? && s.tailSeen <= view < |s.tails|
    ensures LoadTail(s, view) ==
              if Heads(s) - view == |s.slots| - 1 then s.(tailSeen := view, p := Rests)
              else s.(tailSeen := view, p := Writing(s.p.x, s.p.head, Wrap(Heads(s) + 1, |s.slots|)),
                      slots := s.slots[Wrap(Heads(s), |s.slots|) := None])
  {
    Masks(s, Heads(s));
    FullTest(s, view);
  }

  lemma {:induction false} RefusedInv<T>(s: System<T>, view: nat)
    requires Inv(s) && s.tailSeen <= view < |s.tails| && !s.p.Published?
    ensures Inv(s.(tailSeen := view, p := Rests))
  {
  }

  lemma {:induction false} LoadTailInv<T>(s: System<T>, view: nat)
    requires Inv(s) && s.p.HeadLoaded?
    ensures Inv(LoadTail(s, view))
  {
    if s.tailSeen <= view < |s.tails| {
      GivesUpWhenFull(s, view);
      if Heads(s) - view == |s.slots| - 1 { RefusedInv(s, view); } else { BeginWriteInv(s, LoadTail(s, view), view); }
    }
  }

  lemma {:induction false} WriteInv<T>(s: System<T>, view: nat)
    requires Inv(s) && s.p.Writing?
    ensures Inv(StepProducer(s, view))
  {
    Masks(s, Heads(s));
    SlotIsFree(s.slots, Tails(s), s.pushed, Some(s.p.x));
  }

  lemma {:induction false} PublishInv<T>(s: System<T>, view: nat)
    requires Inv(s) && s.p.Written?
    ensures Inv(StepProducer(s, view))
  {
  }

  lemma {:induction false} StepProducerInv<T>(s: System<T>, view: nat)
    requires Inv(s)
    ensures Inv(StepProducer(s, view))
  {
    match s.p
    case HeadLoaded(_, _) => LoadTailInv(s, view);
    case Writing(_, _, _) => WriteInv(s, view);
    case Written(_, _) => PublishInv(s, view);
    case _ =>
  }

  lemma {:induction false} LoadHeadInv<T>(s: System<T>, view: nat)
    requires Inv(s) && s.c.TailLoaded?
    ensures Inv(LoadHead(s, view))
  {
    if s.headSeen <= view < |s.heads| { WrapBoth(Tails(s), view, |s.slots|); }
  }

  lemma {:induction false} ReadInv<T>(s: System<T>, view: nat)
    requires Inv(s) && s.c.Reading?
    ensures Inv(StepConsumer(s, view))
  {
    Masks(s, Tails(s));
  }

  lemma {:induction false} GiveBackInv<T>(s: System<T>, view: nat)
    requires Inv(s) && s.c.Read?
    ensures Inv(StepConsumer(s, view))
  {
    Masks(s, Tails(s));
    GivenBack(s, StepConsumer(s, view));
  }

  lemma {:induction false} GivenBack<T>(s: System<T>, s': System<T>)
    requires Inv(s) && s.c.Read?
    requires s' == s.(c := Draining(s.c.left), tails := s.tails + [Wrap(Tails(s) + 1, |s.slots|)],
             popped := s.popped + [s.c.x])
    ensures Inv(s')
  {
  }

  lemma {:induction false} StepConsumerInv<T>(s: System<T>, view: nat)
    requires Inv(s)
    ensures Inv(StepConsumer(s, view))
  {
    match s.c
    case TailLoaded(_, _) => LoadHeadInv(s, view);
    case Reading(_, _) => ReadInv(s, view);
    case Read(_, _, _) => GiveBackInv(s, view);
    case _ =>
  }

  /** As a queue: the value written goes in when the head is stored, the oldest one comes out when the
      tail is stored, and nothing else goes in or comes out. */
  ghost predicate QueueMoves<T>(s: System<T>, step: Step<T>, s': System<T>)
    requires Inv(s)
  {
    && s'.pushed == (if step.ProducerStep? && s.p.Written? then s.pushed + [s.p.x] else s.pushed)
    && s'.popped == if step.ConsumerStep? && s.c.Read? then s.popped + [Some(s.pushed[|s.popped|])] else s.popped
  }

  lemma {:induction false} NextMoves<T>(s: System<T>, step: Step<T>)
    requires Inv(s)
    ensures QueueMoves(s, step, Next(s, step))
  {
  }

  lemma {:induction false} NextInv<T>(s: System<T>, step: Step<T>)
    requires Inv(s)
    ensures Inv(Next(s, step)) && QueueMoves(s, step, Next(s, step))
  {
    NextMoves(s, step);
    match step
    case Push(x) => StartPushInv(s, x);
    case ProducerStep(view) => StepProducerInv(s, view);
    case ConsumerStep(view) => StepConsumerInv(s, view);
    case ExtraSignal =>
  }

  lemma {:induction false} RunInv<T>(capacity: nat, steps: seq<Step<T>>)
    requires PowerOfTwo(capacity)
    ensures |Initial<T>(capacity).slots| > 0 && Inv(Run(Initial(capacity), steps))
    decreases |steps|
  {
    InitialInv<T>(capacity);
    if steps != [] {
      RunInv(capacity, steps[..|steps| - 1]);
      NextInv(Run(Initial(capacity), steps[..|steps| - 1]), steps[|steps| - 1]);
    }
  }

  // ---------------------------------------------------------------- over all runs

  /** In every interleaving: what came out is a prefix of what went in, one slot always stays free,
      and a slot that is being written is neither unread nor being read. */
  lemma {:induction false} RingIsSafe<T>(capacity: nat, steps: seq<Step<T>>)
    requires PowerOfTwo(capacity)
    ensures |Initial<T>(capacity).slots| > 0
    ensures var s := Run(Initial(capacity), steps);
            && |s.popped| <= |s.pushed| < |s.popped| + capacity
            && (forall k | 0 <= k < |s.popped| :: s.popped[k] == Some(s.pushed[k]))
            && (s.p.Writing? ==> forall k | |s.popped| <= k < |s.pushed| :: Mask(s, s.p.head) != Mask(s, k))
            && (s.p.Writing? && s.c.Reading? ==> Mask(s, s.p.head) != Mask(s, s.c.tail))
  {
    RunInv(capacity, steps);
    SlotsKept(capacity, steps);
    var s := Run(Initial(capacity), steps);
    if s.p.Writing? {
      Masks(s, Heads(s));
      forall k | |s.popped| <= k < |s.pushed| ensures Mask(s, s.p.head) != Mask(s, k) {
        MaskWraps(s, k);
        WrapApart(k, Heads(s), |s.slots|);
      }
      if s.c.Reading? {
        Masks(s, Tails(s));
        WrapApart(Tails(s), Heads(s), |s.slots|);
      }
    }
  }

  lemma {:induction false} SlotsKept<T>(capacity: nat, steps: seq<Step<T>>)
    requires capacity > 0
    ensures |Run(Initial(capacity), steps).slots| == capacity
    decreases |steps|
  {
    if steps != [] { SlotsKept(capacity, steps[..|steps| - 1]); }
  }

  /** No wake-up is lost: while the consumer waits and no push is between storing and signalling, a
      value can only be queued when the eventfd is readable. */
  lemma {:induction false} NoLostWakeUp<T>(capacity: nat, steps: seq<Step<T>>)
    requires PowerOfTwo(capacity)
    ensures |Initial<T>(capacity).slots| > 0
    ensures var s := Run(Initial(capacity), steps);
            && |s.pushed| - |s.popped| <= s.signals + Remaining(s.c) + InFlight(s.p)
            && (s.c.Waits? && !s.p.Published? && |s.popped| < |s.pushed| ==> s.signals > 0)
  {
    RunInv(capacity, steps);
  }

  function Rank<T>(c: Consumer<T>): nat {
    match c
    case Waits => 0
    case Draining(_) => 5
    case TailLoaded(_, _) => 4
    case Reading(_, _) => 3
    case Read(_, _, _) => 2
  }

  /** The consumer alone, until it waits again. */
  function Drain<T>(s: System<T>): (s': System<T>)
    requires WellFormed(s) && s.headSeen < |s.heads|
    decreases Remaining(s.c), Rank(s.c)
  {
    if s.c.Waits? then s else Drain(StepConsumer(s, |s.heads| - 1))
  }

  lemma {:induction false} ConsumerKeeps<T>(s: System<T>, view: nat)
    requires WellFormed(s) && !s.c.Waits?
    ensures var s' := StepConsumer(s, view);
            s'.pushed == s.pushed && s'.signals == s.signals && s'.p == s.p && s'.heads == s.heads
  {
  }

  ghost predicate Drained<T>(s: System<T>, s': System<T>) {
    Inv(s') && s'.c.Waits? && s'.pushed == s.pushed && s'.signals == s.signals && s'.p == s.p
  }

  ghost predicate DrainedOnce<T>(s: System<T>, s': System<T>) {
    && Inv(s') && s'.pushed == s.pushed && s'.signals == s.signals && s'.p == s.p
    && (Remaining(s'.c) < Remaining(s.c) || (Remaining(s'.c) == Remaining(s.c) && Rank(s'.c) < Rank(s.c)))
  }

  lemma {:induction false} DrainOnce<T>(s: System<T>)
    requires WellFormed(s) && !s.c.Waits?
    ensures Inv(s) ==> DrainedOnce(s, StepConsumer(s, |s.heads| - 1))
  {
    if Inv(s) {
      StepConsumerInv(s, |s.heads| - 1);
      ConsumerKeeps(s, |s.heads| - 1);
    }
  }

  lemma {:induction false} DrainedFrom<T>(s: System<T>, s1: System<T>, s': System<T>)
    requires DrainedOnce(s, s1)
    ensures Drained(s1, s') ==> Drained(s, s')
  {
  }

  lemma {:induction false} DrainStep<T>(s: System<T>)
    requires WellFormed(s) && s.headSeen < |s.heads| && !s.c.Waits?
    ensures var s' := StepConsumer(s, |s.heads| - 1);
            WellFormed(s') && s'.headSeen < |s'.heads| && Drain(s) == Drain(s')
  {
  }

  lemma {:induction false} DrainInv<T>(s: System<T>)
    requires WellFormed(s) && s.headSeen < |s.heads|
    ensures Inv(s) ==> Drained(s, Drain(s))
    decreases Remaining(s.c), Rank(s.c)
  {
    if !s.c.Waits? && Inv(s) {
      var s1 := StepConsumer(s, |s.heads| - 1);
      DrainOnce(s);
      DrainStep(s);
      DrainInv(s1);
      DrainedFrom(s, s1, Drain(s1));
    }
  }

  /** The consumer alone gets there: woken up with no push under way, it takes everything before it
      waits again. */
  lemma {:induction false} DrainDelivers<T>(capacity: nat, steps: seq<Step<T>>)
    requires PowerOfTwo(capacity)
    ensures |Initial<T>(capacity).slots| > 0
    ensures var s := Run(Initial(capacity), steps);
            s.c.Waits? && s.p.Rests? ==>
              && Inv(Wake(s))
              && |Drain(Wake(s)).popped| == |s.pushed|
              && forall k | 0 <= k < |s.pushed| :: Drain(Wake(s)).popped[k] == Some(s.pushed[k])
  {
    RunInv(capacity, steps);
    var s := Run(Initial(capacity), steps);
    if s.c.Waits? && s.p.Rests? {
      StepConsumerInv(s, 0);
      DrainInv(Wake(s));
    }
  }

  /** The first goal values are known to the consumer, and are taken or about to be. */
  ghost predicate Promised<T>(s: System<T>, goal: nat) {
    goal <= s.headSeen && goal <= Tails(s) + Remaining(s.c)
  }

  lemma {:induction false} PromiseKept<T>(s: System<T>, step: Step<T>, goal: nat)
    requires Inv(s) && Promised(s, goal)
    ensures Promised(Next(s, step), goal) && s.pushed <= Next(s, step).pushed
  {
    match step
    case ConsumerStep(view) =>
      if s.c.TailLoaded? && s.headSeen <= view < |s.heads| { WrapBoth(Tails(s), view, |s.slots|); }
    case _ =>
  }

  lemma {:induction false} PromiseRun<T>(s: System<T>, steps: seq<Step<T>>, goal: nat)
    requires Inv(s) && Promised(s, goal)
    ensures Inv(Run(s, steps)) && Promised(Run(s, steps), goal) && s.pushed <= Run(s, steps).pushed
    decreases |steps|
  {
    if steps != [] {
      var before := steps[..|steps| - 1];
      PromiseRun(s, before, goal);
      NextInv(Run(s, before), steps[|steps| - 1]);
      PromiseKept(Run(s, before), steps[|steps| - 1], goal);
    }
  }

  /** In every interleaving: whatever was published and signalled when the consumer read the eventfd
      has been taken when it next waits. Only a push between storing and signalling may be left, and
      its signal is still to come. */
  lemma {:induction false} WakeUpDelivers<T>(capacity: nat, before: seq<Step<T>>, view: nat, after: seq<Step<T>>)
    requires PowerOfTwo(capacity)
    ensures |Initial<T>(capacity).slots| > 0
    ensures var s := Run(Initial(capacity), before);
            var s' := Run(Next(s, ConsumerStep(view)), after);
            var n := |s.pushed| - InFlight(s.p);
            s.c.Waits? && s'.c.Waits? ==>
              n <= |s'.popped| && forall k | 0 <= k < n :: s'.popped[k] == Some(s.pushed[k])
  {
    RunInv(capacity, before);
    var s := Run(Initial(capacity), before);
    if s.c.Waits? {
      var woken := Next(s, ConsumerStep(view));
      NextInv(s, ConsumerStep(view));
      PromiseRun(woken, after, s.marked);
      TakenSoFar(s, Run(woken, after), s.marked);
    }
  }

  lemma {:induction false} TakenSoFar<T>(s: System<T>, s': System<T>, n: nat)
    requires n <= |s.pushed| && s.pushed <= s'.pushed && Inv(s')
    ensures s'.c.Waits? && Promised(s', n) ==>
              n <= |s'.popped| && forall k | 0 <= k < n :: s'.popped[k] == Some(s.pushed[k])
  {
  }

  // ---------------------------------------------------------------- what a push does

  /** By the tail the producer knows in s, there was room for a value behind those pushed in s0. */
  ghost predicate RoomSeen<T>(s0: System<T>, s: System<T>) { |s0.pushed| + 1 - s.tailSeen < |s.slots| }

  /** How far a push of x that began in s0 has come. */
  ghost predicate UnderWay<T>(s0: System<T>, x: T, s: System<T>) {
    match s.p
    case Rests => false
    case HeadLoaded(y, _) => y == x && s.pushed == s0.pushed
    case Writing(y, _, _) => y == x && s.pushed == s0.pushed && RoomSeen(s0, s)
    case Written(y, _) => y == x && s.pushed == s0.pushed && RoomSeen(s0, s)
    case Published => s.pushed == s0.pushed + [x] && RoomSeen(s0, s)
  }

  /** The last step of the push leads from s to s': it gives up, when by the tail it has loaded all
      slots but one are taken; else x has been published, and this step signals it. */
  ghost predicate PushEnds<T>(s0: System<T>, x: T, s: System<T>, s': System<T>) {
    if |s0.pushed| - s'.tailSeen == |s.slots| - 1 then s'.pushed == s0.pushed && s'.signals == s.signals
    else s'.pushed == s0.pushed + [x] && s'.signals == s.signals + 1 && s'.marked == |s'.pushed|
  }

  lemma {:induction false} PushStep<T>(s0: System<T>, x: T, s: System<T>, step: Step<T>)
    requires Inv(s) && UnderWay(s0, x, s)
    ensures var s' := Next(s, step);
            |s'.slots| == |s.slots| && if s'.p.Rests? then PushEnds(s0, x, s, s') else UnderWay(s0, x, s')
  {
    NextInv(s, step);
    match step
    case ProducerStep(view) =>
      if s.p.HeadLoaded? && s.tailSeen <= view < |s.tails| { GivesUpWhenFull(s, view); }
    case _ =>
  }

  /** The producer does not rest before the last of these steps, nor after it. */
  ghost predicate Busy<T>(s: System<T>, steps: seq<Step<T>>)
    requires WellFormed(s)
    decreases |steps|
  {
    !Run(s, steps).p.Rests? && (steps != [] ==> Busy(s, steps[..|steps| - 1]))
  }

  lemma {:induction false} PushRun<T>(s0: System<T>, x: T, s: System<T>, steps: seq<Step<T>>)
    requires Inv(s) && UnderWay(s0, x, s) && Busy(s, steps)
    ensures var s' := Run(s, steps);
            Inv(s') && UnderWay(s0, x, s') && |s'.slots| == |s.slots|
    decreases |steps|
  {
    if steps != [] {
      var before, step := steps[..|steps| - 1], steps[|steps| - 1];
      PushRun(s0, x, s, before);
      PushStep(s0, x, Run(s, before), step);
      NextInv(Run(s, before), step);
    }
  }

  /** In every interleaving: a push, however many steps of the consumer come between its own, either
      gives up because the ring is full as far as it can see, or appends exactly x and signals once. */
  lemma {:induction false} PushPublishes<T>(capacity: nat, before: seq<Step<T>>, x: T, during: seq<Step<T>>,
                                            last: Step<T>)
    requires PowerOfTwo(capacity)
    ensures |Initial<T>(capacity).slots| > 0
    ensures var s0 := Run(Initial(capacity), before);
            var s := Run(Next(s0, Push(x)), during);
            s0.p.Rests? && Busy(Next(s0, Push(x)), during) && Next(s, last).p.Rests? ==>
              |s.slots| == capacity && PushEnds(s0, x, s, Next(s, last))
  {
    RunInv(capacity, before);
    SlotsKept(capacity, before);
    var s0 := Run(Initial(capacity), before);
    var s1 := Next(s0, Push(x));
    if s0.p.Rests? && Busy(s1, during) {
      NextInv(s0, Push(x));
      PushRun(s0, x, s1, during);
      PushStep(s0, x, Run(s1, during), last);
    }
  }

  function PushRank<T>(p: Producer<T>): nat {
    match p
    case Rests => 0
    case HeadLoaded(_, _) => 4
    case Writing(_, _, _) => 3
    case Written(_, _) => 2
    case Published => 1
  }

  /** The producer alone, until it rests. */
  function Finish<T>(s: System<T>): (s': System<T>)
    requires WellFormed(s) && s.tailSeen < |s.tails|
    ensures s'.p.Rests?
    decreases PushRank(s.p)
  {
    if s.p.Rests? then s else Finish(StepProducer(s, |s.tails| - 1))
  }

  /** What a finished push has done to a ring that nobody else touches. */
  ghost predicate Pushed<T>(s: System<T>, x: T, s': System<T>) {
    && Inv(s') && s'.p.Rests? && s'.c == s.c && s'.popped == s.popped && |s'.slots| == |s.slots|
    && if |s.pushed| - |s.popped| == |s.slots| - 1 then s'.pushed == s.pushed && s'.signals == s.signals
       else s'.pushed == s.pushed + [x] && s'.signals == s.signals + 1
  }

  /** The producer alone is somewhere in a push that began in s0. */
  ghost predicate AloneSince<T>(s0: System<T>, x: T, s: System<T>) {
    && Inv(s) && UnderWay(s0, x, s) && (s.p.HeadLoaded? || s.tailSeen == |s.popped|)
    && s.signals == s0.signals && s.popped == s0.popped && s.c == s0.c && |s.slots| == |s0.slots|
  }

  lemma {:induction false} AloneFrame<T>(s: System<T>)
    requires WellFormed(s) && s.tailSeen < |s.tails| && !s.p.Rests?
    ensures var s' := StepProducer(s, |s.tails| - 1);
            && PushRank(s'.p) < PushRank(s.p)
            && s'.popped == s.popped && s'.c == s.c && |s'.slots| == |s.slots|
            && s'.tailSeen == (if s.p.HeadLoaded? then |s.tails| - 1 else s.tailSeen)
            && s'.signals == if s.p.Published? then s.signals + 1 else s.signals
  {
  }

  lemma {:induction false} AloneStep<T>(s0: System<T>, x: T, s: System<T>)
    requires AloneSince(s0, x, s)
    ensures var s' := StepProducer(s, |s.tails| - 1);
            PushRank(s'.p) < PushRank(s.p) && if s'.p.Rests? then Pushed(s0, x, s') else AloneSince(s0, x, s')
  {
    AloneFrame(s);
    StepProducerInv(s, |s.tails| - 1);
    PushStep(s0, x, s, ProducerStep(|s.tails| - 1));
  }

  lemma {:induction false} FinishStep<T>(s: System<T>)
    requires WellFormed(s) && s.tailSeen < |s.tails| && !s.p.Rests?
    ensures var s' := StepProducer(s, |s.tails| - 1);
            WellFormed(s') && s'.tailSeen < |s'.tails| && Finish(s) == if s'.p.Rests? then s' else Finish(s')
  {
  }

  lemma {:induction false} FinishPushes<T>(s0: System<T>, x: T, s: System<T>)
    requires WellFormed(s) && s.tailSeen < |s.tails|
    ensures AloneSince(s0, x, s) ==> Pushed(s0, x, Finish(s))
    decreases PushRank(s.p)
  {
    if AloneSince(s0, x, s) {
      var s1 := StepProducer(s, |s.tails| - 1);
      AloneStep(s0, x, s);
      FinishStep(s);
      if !s1.p.Rests? { FinishPushes(s0, x, s1); }
    }
  }

  /** The producer alone gets there: the push is refused exactly when capacity - 1 values are queued;
      else x is the last value published, and the eventfd is signalled once. */
  lemma {:induction false} PushAlone<T>(capacity: nat, steps: seq<Step<T>>, x: T)
    requires PowerOfTwo(capacity)
    ensures |Initial<T>(capacity).slots| > 0
    ensures var s := Run(Initial(capacity), steps);
            s.p.Rests? ==> |s.slots| == capacity && Inv(s) && Pushed(s, x, Finish(Next(s, Push(x))))
  {
    RunInv(capacity, steps);
    SlotsKept(capacity, steps);
    var s := Run(Initial(capacity), steps);
    if s.p.Rests? {
      NextInv(s, Push(x));
      FinishPushes(s, x, Next(s, Push(x)));
    }
  }

  /** And the consumer, woken up by it, takes x as the last of all the values. */
  lemma {:induction false} PushThenDrain<T>(capacity: nat, steps: seq<Step<T>>, x: T)
    requires PowerOfTwo(capacity)
    ensures |Initial<T>(capacity).slots| > 0
    ensures var s := Run(Initial(capacity), steps);
            s.p.Rests? && s.c.Waits? && |s.pushed| - |s.popped| < capacity - 1 ==>
              Inv(s) &&
              var s' := Finish(Next(s, Push(x)));
              && Inv(s') && Inv(Wake(s')) && s'.signals > 0
              && |Drain(Wake(s')).popped| == |s.pushed| + 1
              && Drain(Wake(s')).popped[|s.pushed|] == Some(x)
  {
    PushAlone(capacity, steps, x);
    var s := Run(Initial(capacity), steps);
    if s.p.Rests? && s.c.Waits? && |s.pushed| - |s.popped| < capacity - 1 {
      var s' := Finish(Next(s, Push(x)));
      StepConsumerInv(s', 0);
      DrainInv(Wake(s'));
    }
  }

  lemma {:induction false} MarkGrows<T>(s: System<T>, steps: seq<Step<T>>)
    requires Inv(s)
    ensures Inv(Run(s, steps)) && s.marked <= Run(s, steps).marked && s.pushed <= Run(s, steps).pushed
    decreases |steps|
  {
    if steps != [] {
      var before, step := steps[..|steps| - 1], steps[|steps| - 1];
      MarkGrows(s, before);
      NextInv(Run(s, before), step);
      MarkStep(Run(s, before), step);
    }
  }

  lemma {:induction false} MarkStep<T>(s: System<T>, step: Step<T>)
    requires Inv(s)
    ensures s.marked <= Next(s, step).marked && s.pushed <= Next(s, step).pushed
  {
  }

  /** In every interleaving: a push that did not give up is taken. Whenever the consumer reads the
      eventfd after the signal and then waits again, x has come out in its place. */
  lemma {:induction false} PushIsTaken<T>(capacity: nat, before: seq<Step<T>>, x: T, during: seq<Step<T>>,
                                          last: Step<T>, between: seq<Step<T>>, view: nat, after: seq<Step<T>>)
    requires PowerOfTwo(capacity)
    ensures |Initial<T>(capacity).slots| > 0
    ensures var s0 := Run(Initial(capacity), before);
            var s1 := Next(Run(Next(s0, Push(x)), during), last);
            var s2 := Run(s1, between);
            var s3 := Run(Next(s2, ConsumerStep(view)), after);
            && s0.p.Rests? && Busy(Next(s0, Push(x)), during) && s1.p.Rests?
            && |s0.pushed| - s1.tailSeen < capacity - 1 && s2.c.Waits? && s3.c.Waits?
            ==> |s0.pushed| < |s3.popped| && s3.popped[|s0.pushed|] == Some(x)
  {
    PushPublishes(capacity, before, x, during, last);
    RunInv(capacity, before);
    var s0 := Run(Initial(capacity), before);
    if s0.p.Rests? && Busy(Next(s0, Push(x)), during) {
      NextInv(s0, Push(x));
      PushRun(s0, x, Next(s0, Push(x)), during);
      var s := Run(Next(s0, Push(x)), during);
      NextInv(s, last);
      PublishedIsTaken(s0, x, Next(s, last), between, view, after);
    }
  }

  lemma {:induction false} PublishedIsTaken<T>(s0: System<T>, x: T, s1: System<T>, between: seq<Step<T>>,
                                               view: nat, after: seq<Step<T>>)
    requires Inv(s1)
    ensures var s2 := Run(s1, between);
            var s3 := Run(Next(s2, ConsumerStep(view)), after);
            s1.pushed == s0.pushed + [x] && s1.marked == |s1.pushed| && s2.c.Waits? && s3.c.Waits? ==>
              |s0.pushed| < |s3.popped| && s3.popped[|s0.pushed|] == Some(x)
  {
    MarkGrows(s1, between);
    var s2 := Run(s1, between);
    if s2.c.Waits? {
      var woken := Next(s2, ConsumerStep(view));
      NextInv(s2, ConsumerStep(view));
      PromiseRun(woken, after, s2.marked);
      TakenSoFar(s2, Run(woken, after), s2.marked);
    }
  }
}
