/** The ring buffer used by one thread at a time: a bounded queue. One slot always stays free, so
    that a full ring can be told from an empty one. */
module Ring {
  import opened Bits

  const SUCCESS := 0
  const EINVAL := -1
  const EFULL := -3
  const EEMPTY := -4

  /** size_t arithmetic is modulo this. */
  const WORD := 0x1_0000_0000_0000_0000

  function WordMinus(a: nat, b: nat): (d: int)
    requires a < WORD && b < WORD
  {
    if a >= b then a - b else a + WORD - b
  }

  /** How many values lie between the positions tail and head. */
  function Distance(head: nat, tail: nat, n: nat): (d: nat)
    requires head < n && tail < n
    ensures d < n
    ensures Wrap(tail + d, n) == head
  {
    if head >= tail then head - tail
    else
      WrapFull(head, n);
      head + n - tail
  }

  lemma {:induction false} WordSize()
    ensures PowerOfTwo(WORD)
  {
    assert 4 == Pow2(2);
    Square(4);
    Square(16);
    Square(256);
    Square(0x1_0000);
    Square(0x1_0000_0000);
  }

  lemma {:induction false} Square(n: nat)
    requires PowerOfTwo(n)
    ensures PowerOfTwo(n * n)
  {
    var k: nat :| n == Pow2(k);
    Pow2Sum(k, k);
  }

  /** Masking the difference of two positions gives the way from the second to the first. */
  lemma {:induction false} MaskedDistance(head: nat, tail: nat, n: nat)
    requires PowerOfTwo(n) && n < WORD && head < n && tail < n
    ensures BitAnd(WordMinus(head, tail), n - 1) == Distance(head, tail, n)
  {
    Mask(WordMinus(head, tail), n);
    if head < tail {
      var k: nat :| n == Pow2(k);
      WordSize();
      var m: nat :| WORD == Pow2(m);
      Pow2Grows(k, m);
      WrapWord(head + n - tail, k, m - k);
      WrapFull(head + WORD - tail, n);
    }
  }

  /** The values in count slots from tail on, the oldest first. */
  ghost function Queue<T>(slots: seq<T>, tail: nat, count: nat): (q: seq<T>)
    requires |slots| > 0
    ensures |q| == count
  {
    seq(count, i requires i >= 0 => slots[Wrap(tail + i, |slots|)])
  }

  lemma {:induction false} QueuePush<T>(slots: seq<T>, tail: nat, head: nat, x: T)
    requires tail < |slots| && head < |slots| && Wrap(head + 1, |slots|) != tail
    ensures Distance(Wrap(head + 1, |slots|), tail, |slots|) == Distance(head, tail, |slots|) + 1
    ensures Queue(slots[head := x], tail, Distance(head, tail, |slots|) + 1)
            == Queue(slots, tail, Distance(head, tail, |slots|)) + [x]
  {
    var n, d := |slots|, Distance(head, tail, |slots|);
    WrapNext(head, n);
    var q, r := Queue(slots[head := x], tail, d + 1), Queue(slots, tail, d);
    forall i | 0 <= i < d + 1 ensures q[i] == (r + [x])[i] {
      if i < d { WrapApart(tail + i, tail + d, n); }
    }
  }

  lemma {:induction false} QueuePop<T>(slots: seq<T>, tail: nat, head: nat)
    requires tail < |slots| && head < |slots| && head != tail
    ensures Distance(head, Wrap(tail + 1, |slots|), |slots|) == Distance(head, tail, |slots|) - 1
    ensures Queue(slots, tail, Distance(head, tail, |slots|))
            == [slots[tail]] + Queue(slots, Wrap(tail + 1, |slots|), Distance(head, tail, |slots|) - 1)
  {
    var n, d := |slots|, Distance(head, tail, |slots|);
    var q, r := Queue(slots, tail, d), Queue(slots, Wrap(tail + 1, n), d - 1);
    WrapNext(tail, n);
    forall i | 0 <= i < d ensures q[i] == ([slots[tail]] + r)[i] {
      if i > 0 && tail + 1 == n { WrapFull(i - 1, n); }
    }
  }

  class RingBuffer<T(0)> {
    var slots: array<T>
    var capacity: nat
    var mask: nat
    var head: nat
    var tail: nat

    ghost predicate Valid()
      reads this
    {
      && PowerOfTwo(capacity) && 0 < capacity == slots.Length && capacity < WORD
      && mask == capacity - 1 && head < capacity && tail < capacity
    }

    /** The queued values, the oldest first. */
    ghost function Contents(): (s: seq<T>)
      reads this, slots
      requires Valid()
    {
      Queue(slots[..], tail, Distance(head, tail, capacity))
    }

    /** A ring that buffer_init was not called on. */
    constructor ()
    {
      slots := new T[0];
      capacity, mask, head, tail := 0, 0, 0, 0;
    }

    /** buffer_init accepts exactly the powers of two. */
    method Init(size: nat, elementSize: nat) returns (code: int)
      requires size < WORD
      modifies this
      ensures code == SUCCESS || code == EINVAL
      ensures code == SUCCESS <==> PowerOfTwo(size) && elementSize != 0
      ensures code == SUCCESS ==> Valid() && capacity == size && fresh(slots) && Contents() == []
      ensures code != SUCCESS ==> unchanged(this)
    {
      if size == 0 || elementSize == 0 { return EINVAL; }
      PowerOfTwoTest(size);
      if BitAnd(size, size - 1) != 0 { return EINVAL; }
      slots := new T[size];
      capacity, mask, head, tail := size, size - 1, 0, 0;
      return SUCCESS;
    }

    method IsEmpty() returns (empty: bool)
      requires Valid()
      ensures empty <==> Contents() == []
    {
      empty := head == tail;
    }

    method IsFull() returns (full: bool)
      requires Valid()
      ensures full <==> |Contents()| == capacity - 1
    {
      Mask(head + 1, capacity);
      full := BitAnd(head + 1, mask) == tail;
    }

    method Size() returns (n: nat)
      requires Valid()
      ensures n == |Contents()|
    {
      MaskedDistance(head, tail, capacity);
      n := BitAnd(WordMinus(head, tail), mask);
    }

    /** Refused exactly when capacity - 1 values are queued. */
    method Push(x: T) returns (code: int)
      requires Valid()
      modifies this`head, slots
      ensures Valid() && capacity == old(capacity)
      ensures code == if |old(Contents())| == capacity - 1 then EFULL else SUCCESS
      ensures Contents() == if code == SUCCESS then old(Contents()) + [x] else old(Contents())
    {
      Mask(head + 1, capacity);
      Mask(head, capacity);
      var next := BitAnd(head + 1, mask);
      if next == tail { return EFULL; }
      ghost var before := slots[..];
      slots[BitAnd(head, mask)] := x;
      assert slots[..] == before[head := x];
      QueuePush(before, tail, head, x);
      head := next;
      return SUCCESS;
    }

    method Pop() returns (code: int, x: T)
      requires Valid()
      modifies this`tail
      ensures Valid()
      ensures code == if old(Contents()) == [] then EEMPTY else SUCCESS
      ensures code == SUCCESS ==> [x] + Contents() == old(Contents())
      ensures code != SUCCESS ==> Contents() == old(Contents())
    {
      x := *;
      if tail == head { return EEMPTY, x; }
      Mask(tail, capacity);
      Mask(tail + 1, capacity);
      QueuePop(slots[..], tail, head);
      x := slots[BitAnd(tail, mask)];
      tail := BitAnd(tail + 1, mask);
      return SUCCESS, x;
    }

    method Peek() returns (code: int, x: T)
      requires Valid()
      ensures code == if Contents() == [] then EEMPTY else SUCCESS
      ensures code == SUCCESS ==> x == Contents()[0]
    {
      x := *;
      if tail == head { return EEMPTY, x; }
      Mask(tail, capacity);
      return SUCCESS, slots[BitAnd(tail, mask)];
    }
  }
}
