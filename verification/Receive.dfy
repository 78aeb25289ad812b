/** Re-assembly: the receive buffer of a connection, one frame taken out of it, and the loop that
    empties the socket. */
module Receive {
  import opened Protocol

  /** The payload as the caller finds it. It is handed a pointer into the buffer, and the bytes that
      follow the frame have been moved to the front over it. */
  ghost function Seen(d: seq<Byte>): (p: seq<Byte>)
    requires FrontOf(d).Whole?
    ensures |p| == FrontOf(d).header.length
  {
    var rest := AfterFirst(d);
    seq(FrontOf(d).header.length, i requires 0 <= i < FrontOf(d).header.length =>
      if HEADER_SIZE + i < |rest| then rest[HEADER_SIZE + i] else d[HEADER_SIZE + i])
  }

  /** Byte i is the one sent when the bytes that follow do not reach it. */
  lemma {:induction false} TailIsIntact(d: seq<Byte>, i: nat)
    requires FrontOf(d).Whole? && i < FrontOf(d).header.length && HEADER_SIZE + i >= |AfterFirst(d)|
    ensures Seen(d)[i] == FirstPacket(d).payload[i]
  {
  }

  /** With n bytes in the buffer and a payload of this length in front, the payload arrives intact
      whatever the bytes are, if and only if it is empty or no more than six bytes follow. */
  lemma {:induction false} IntactIff(length: nat, n: nat)
    requires HEADER_SIZE + length <= n <= MAX_SIZE
    ensures (forall d: seq<Byte> | |d| == n && FrontOf(d).Whole? && FrontOf(d).header.length == length ::
               Seen(d) == FirstPacket(d).payload)
            <==> length == 0 || n - (HEADER_SIZE + length) <= HEADER_SIZE
  {
    if length == 0 || n - (HEADER_SIZE + length) <= HEADER_SIZE {
      forall d: seq<Byte> | |d| == n && FrontOf(d).Whole? && FrontOf(d).header.length == length
        ensures Seen(d) == FirstPacket(d).payload
      {
        assert forall i | 0 <= i < length :: Seen(d)[i] == FirstPacket(d).payload[i];
      }
    } else {
      var d := Overwritten(length, n);
      assert Seen(d)[0] != FirstPacket(d).payload[0];
    }
  }

  /** Two frames, the first with zeros and the second with ones: the first is found to hold ones. */
  lemma {:induction false} Overwritten(length: nat, n: nat) returns (d: seq<Byte>)
    requires 0 < length && HEADER_SIZE + length + HEADER_SIZE < n <= MAX_SIZE
    ensures |d| == n && FrontOf(d).Whole? && FrontOf(d).header.length == length
    ensures Seen(d)[0] == 1 && FirstPacket(d).payload[0] == 0
  {
    var first := Packet(22, seq(length, _ => 0));
    var second := Packet(22, seq(n - HEADER_SIZE - length - HEADER_SIZE, _ => 1));
    d := Bytes(first) + Bytes(second);
    ParsePacket(first, Bytes(second));
    assert FrontOf(d).Whole?;
    var packets := Parse(d).packets;
    assert FirstPacket(d) == packets[0] == first;
    assert |FirstPacket(d).payload| == FrontOf(d).header.length;
    assert AfterFirst(d) == Bytes(second);
    assert Bytes(second)[HEADER_SIZE] == second.payload[0];
  }

  datatype Delivery = Delivery(header: Header, payload: seq<Byte>)

  /** What the extraction loop hands to the handler. */
  ghost function Deliver(d: seq<Byte>): seq<Delivery>
    decreases |d|
  {
    if FrontOf(d).Whole? then [Delivery(FrontOf(d).header, Seen(d))] + Deliver(AfterFirst(d)) else []
  }

  /** Kinds and lengths are those of the packets in the stream. */
  ghost predicate SameFrames(got: seq<Delivery>, packets: seq<Packet>) {
    && |got| == |packets|
    && forall k | 0 <= k < |got| ::
         got[k].header.kind == packets[k].kind && |got[k].payload| == got[k].header.length == |packets[k].payload|
  }

  lemma {:induction false} DeliverFrames(d: seq<Byte>)
    ensures SameFrames(Deliver(d), Parse(d).packets)
    decreases |d|
  {
    if FrontOf(d).Whole? {
      DeliverFrames(AfterFirst(d));
      var first := [Delivery(FrontOf(d).header, Seen(d))];
      forall k | 0 <= k < |Deliver(d)|
        ensures var p := Parse(d).packets[k];
                && Deliver(d)[k].header.kind == p.kind
                && |Deliver(d)[k].payload| == Deliver(d)[k].header.length == |p.payload|
      {
        if k > 0 { assert Deliver(d)[k] == Deliver(AfterFirst(d))[k - 1]; }
      }
    }
  }

  /** Of the bytes d the deliveries in got are done, and rest is still in the buffer. */
  ghost predicate Extracting(d: seq<Byte>, got: seq<Delivery>, rest: seq<Byte>) {
    Deliver(d) == got + Deliver(rest) && Parse(d).broken == Parse(rest).broken && Parse(d).rest == Parse(rest).rest
  }

  lemma {:induction false} ExtractingNext(d: seq<Byte>, got: seq<Delivery>, rest: seq<Byte>)
    requires Extracting(d, got, rest) && FrontOf(rest).Whole?
    ensures Extracting(d, got + [Delivery(FrontOf(rest).header, Seen(rest))], AfterFirst(rest))
  {
    var first := [Delivery(FrontOf(rest).header, Seen(rest))];
    assert got + (first + Deliver(AfterFirst(rest))) == (got + first) + Deliver(AfterFirst(rest));
  }

  lemma {:induction false} ExtractingDone(d: seq<Byte>, got: seq<Delivery>, rest: seq<Byte>)
    requires Extracting(d, got, rest) && !FrontOf(rest).Whole?
    ensures got == Deliver(d) && Parse(d).broken == FrontOf(rest).Broken? && Parse(d).rest == rest
  {
  }

  lemma {:induction false} MoveOver<T>(held: seq<T>, taken: seq<T>, left: seq<T>, n: nat)
    requires n <= |left|
    ensures (held + taken) + left[..n] == held + (taken + left[..n])
    ensures taken + left == (taken + left[..n]) + left[n..]
  {
  }

  function Min(a: nat, b: nat): nat { if a <= b then a else b }

  /** What a call of recv answers when there is something to read: how much it brings, EINTR, or an
      error. A call on an empty socket answers EAGAIN, or the end, unless it is one of the others. */
  datatype RecvResult = Received(n: nat) | Interrupted | RecvFailed

  /** An error comes before the buffer is full and before a call finds the socket empty. */
  function Fails(answers: seq<RecvResult>, room: nat, bytes: nat): bool
    decreases |answers|
  {
    if room == 0 || answers == [] then false
    else
      match answers[0]
      case Interrupted => Fails(answers[1..], room, bytes)
      case RecvFailed => true
      case Received(n) =>
        var taken := Min(Min(room, bytes), n);
        bytes != 0 && Fails(answers[1..], room - taken, bytes - taken)
  }

  lemma {:induction false} FailsOnlyIfAnswered(answers: seq<RecvResult>, room: nat, bytes: nat)
    ensures Fails(answers, room, bytes) ==> RecvFailed in answers
    decreases |answers|
  {
    if room != 0 && answers != [] {
      FailsOnlyIfAnswered(answers[1..], room, bytes);
      if answers[0].Received? {
        var taken := Min(Min(room, bytes), answers[0].n);
        FailsOnlyIfAnswered(answers[1..], room - taken, bytes - taken);
      }
    }
  }

  class Receiver {
    const buf: array<Byte>
    var have: nat

    ghost predicate Valid()
      reads this
    {
      buf.Length == MAX_SIZE && have <= MAX_SIZE
    }

    ghost function Held(): seq<Byte>
      reads this, buf
      requires Valid()
    {
      buf[..have]
    }

    /** rx_init */
    constructor ()
      ensures Valid() && fresh(buf) && Held() == []
    {
      buf := new Byte[MAX_SIZE](_ => 0);
      have := 0;
    }

    /** rx_try_extract_frame: 0 when the frame is not complete, -1 when it is none, 1 with the header
        and the place of the payload in the buffer. */
    method TryExtract() returns (code: int, header: Header, at: nat, length: nat)
      requires Valid()
      modifies this, buf
      ensures Valid() && -1 <= code <= 1
      ensures code == 0 <==> old(FrontOf(Held())).Partial?
      ensures code == -1 <==> old(FrontOf(Held())).Broken?
      ensures code == 1 ==>
                && header == old(FrontOf(Held())).header && length == header.length && at + length <= MAX_SIZE
                && Held() == old(AfterFirst(Held()))
                && buf[at..at + length] == old(Seen(Held()))
      ensures code != 1 ==> have == old(have) && buf[..] == old(buf[..])
    {
      header, at, length := Header(0, 0, 0, 0), 0, 0;
      if have < HEADER_SIZE { return 0, header, at, length; }
      ghost var d := Held();
      var peeked := Peek(buf[..have]);
      if peeked.Rejected? { return -1, header, at, length; }
      var total := HEADER_SIZE + peeked.header.length;
      if have < total { return 0, header, at, length; }
      header, at, length := peeked.header, HEADER_SIZE, peeked.header.length;
      var remain := have - total;
      forall i | 0 <= i < remain { buf[i] := buf[total + i]; }
      have := remain;
      assert Held() == AfterFirst(d);
      assert buf[at..at + length] == Seen(d);
      return 1, header, at, length;
    }

    /** One call of recv that brings these bytes. */
    method Append(bytes: seq<Byte>)
      requires Valid() && have + |bytes| <= MAX_SIZE
      modifies this, buf
      ensures Valid() && Held() == old(Held()) + bytes
    {
      forall i | 0 <= i < |bytes| { buf[have + i] := bytes[i]; }
      have := have + |bytes|;
    }

    /** The receive loop of handle_read: it ends when the socket has no more bytes (EAGAIN, or the other
        side has closed), when the buffer is full, or when recv fails. However the reads are cut, the
        buffer takes what fits and the socket keeps the rest. */
    method Fill(backlog: seq<Byte>, answers: seq<RecvResult>) returns (failed: bool, left: seq<Byte>)
      requires Valid()
      modifies this, buf
      ensures Valid()
      ensures failed == Fails(answers, MAX_SIZE - old(have), |backlog|)
      ensures !failed ==>
                var n := Min(MAX_SIZE - old(have), |backlog|);
                Held() == old(Held()) + backlog[..n] && left == backlog[n..]
    {
      var calls := 0;
      left := backlog;
      ghost var held := Held();
      ghost var taken: seq<Byte> := [];
      while have < MAX_SIZE
        invariant Valid() && Held() == held + taken && backlog == taken + left && calls <= |answers|
        invariant Fails(answers[calls..], MAX_SIZE - have, |left|) == Fails(answers, MAX_SIZE - old(have), |backlog|)
        decreases |left|, |answers| - calls
      {
        var wanted := Min(MAX_SIZE - have, |left|);
        if calls < |answers| {
          var answer := answers[calls];
          assert answers[calls..][0] == answer && answers[calls..][1..] == answers[calls + 1..];
          calls := calls + 1;
          if answer == Interrupted { continue; }
          if answer == RecvFailed { return true, left; }
          wanted := Min(wanted, answer.n);
        }
        if left == [] { break; }
        Append(left[..wanted]);
        MoveOver(held, taken, left, wanted);
        taken := taken + left[..wanted];
        left := left[wanted..];
      }
      failed := false;
    }

    /** The extraction loop of handle_read. */
    method Extract() returns (sound: bool, got: seq<Delivery>)
      requires Valid()
      modifies this, buf
      ensures Valid()
      ensures got == Deliver(old(Held())) && sound == !Parse(old(Held())).broken
      ensures sound ==> Held() == Parse(old(Held())).rest
    {
      got := [];
      ghost var d := Held();
      while true
        invariant Valid()
        invariant Extracting(d, got, Held())
        decreases have
      {
        ghost var before := Held();
        var code, header, at, length := TryExtract();
        if code != 1 {
          ExtractingDone(d, got, before);
          return code == 0, got;
        }
        ExtractingNext(d, got, before);
        got := got + [Delivery(header, buf[at..at + length])];
      }
    }

    /** handle_read. Readiness is edge-triggered: the socket is read once for every arrival. ended:
        the other side has closed. If recv fails or the end is seen nothing is handed over and the
        connection is closed; otherwise it stays open exactly when the stream is sound, and then the
        buffer is not full. */
    method HandleRead(backlog: seq<Byte>, ended: bool, answers: seq<RecvResult>)
      returns (open: bool, got: seq<Delivery>, left: seq<Byte>)
      requires Valid()
      modifies this, buf
      ensures Valid()
      ensures var fails := Fails(answers, MAX_SIZE - old(have), |backlog|);
              var d := old(Held()) + backlog[..Min(MAX_SIZE - old(have), |backlog|)];
              if fails || (ended && |d| < MAX_SIZE) then !open && got == []
              else
                && got == Deliver(d) && open == !Parse(d).broken
                && (open ==> Held() == Parse(d).rest && have < MAX_SIZE)
      ensures !Fails(answers, MAX_SIZE - old(have), |backlog|) ==> (left == [] <==> old(have) + |backlog| <= MAX_SIZE)
    {
      var failed: bool;
      failed, left := Fill(backlog, answers);
      if failed || (have < MAX_SIZE && ended) { return false, [], left; }
      ghost var d := Held();
      open, got := Extract();
      if open {
        ParseLeavesRoom(d);
        open := have < MAX_SIZE;
      }
    }
  }
}
