/** The growing table from small integers to pointers. Its capacity is a uint16_t. */
module FdMap {
  import opened Options

  const UINT16: nat := 0x1_0000

  class Table<T> {
    var buffer: array<Option<T>>
    var capacity: nat

    ghost predicate Valid()
      reads this
    {
      capacity < UINT16 && capacity <= buffer.Length
    }

    /** What is found under i: fd_map_get. */
    ghost function At(i: int): Option<T>
      reads this, buffer
      requires Valid()
    {
      if 0 <= i < capacity then buffer[i] else None
    }

    constructor (initial: nat)
      requires initial < UINT16
      ensures Valid() && fresh(buffer) && capacity == (if initial > 0 then initial else 64)
      ensures forall i :: At(i) == None
    {
      var size := if initial > 0 then initial else 64;
      capacity := size;
      buffer := new Option<T>[size](_ => None);
    }

    method Get(fd: int) returns (r: Option<T>)
      requires Valid()
      ensures r == At(fd)
    {
      if fd < 0 || fd >= capacity { return None; }
      return buffer[fd];
    }

    /** The capacity after fd was set: growing to twice fd + 1 is cut to 16 bits. */
    static function Grown(fd: nat, capacity: nat): nat {
      if fd < capacity then capacity else (fd + 1) * 2 % UINT16
    }

    /** What lies within the new capacity is kept, the rest is out of reach. */
    method Set(fd: int, x: Option<T>) returns (code: int)
      requires Valid()
      modifies this, buffer
      ensures Valid() && (buffer == old(buffer) || fresh(buffer))
      ensures fd < 0 ==> code == -1 && capacity == old(capacity) && forall i :: At(i) == old(At(i))
      ensures fd >= 0 ==> code == 0 && capacity == Grown(fd, old(capacity))
      ensures fd >= 0 ==> forall i ::
                At(i) == if !(0 <= i < capacity) then None else if i == fd then x else old(At(i))
    {
      if fd < 0 { return -1; }
      if fd >= capacity {
        var size := (fd + 1) * 2;
        var larger := new Option<T>[size](_ => None);
        forall i | 0 <= i < capacity { larger[i] := buffer[i]; }
        buffer, capacity := larger, size % UINT16;
      }
      buffer[fd] := x;
      return 0;
    }

    /** Nothing is removed from index 0. */
    method Remove(fd: int)
      requires Valid()
      modifies buffer
      ensures forall i :: At(i) == if i == fd && fd > 0 then None else old(At(i))
    {
      if 0 < fd < capacity {
        buffer[fd] := None;
      }
    }

    /** The first free index from 1 on. The last index of the table is never looked at once next has
        reached the capacity. */
    method FirstNull(next: int) returns (id: int)
      requires Valid()
      ensures var bound := if next >= capacity then capacity - 1 else next;
              && (id == -1 ==> forall i | 1 <= i < bound :: At(i) != None)
              && (id != -1 ==> 1 <= id < bound && At(id) == None && forall i | 1 <= i < id :: At(i) != None)
    {
      var bound := if next >= capacity then capacity - 1 else next;
      var i := 1;
      while i < bound
        invariant 1 <= i && (i <= bound || i == 1)
        invariant forall k | 1 <= k < i :: k < bound ==> At(k) != None
      {
        if buffer[i].None? { return i; }
        i := i + 1;
      }
      return -1;
    }
  }

  /** An index can be set and found again if and only if it is within the capacity or below 32767;
      growing for any other one cuts the capacity below it. */
  lemma {:induction false} KeptIff(fd: nat, capacity: nat)
    requires capacity < UINT16
    ensures fd < Table<int>.Grown(fd, capacity) <==> fd < capacity || fd < 32767
  {
    var size := (fd + 1) * 2;
    if fd < 32767 {
      assert size % UINT16 == size;
    } else if fd < 65535 {
      assert size % UINT16 == size - UINT16;
    }
  }
}
