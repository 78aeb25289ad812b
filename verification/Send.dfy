/** The output queue of a connection: whole packets are accepted or refused, and go out as the
    socket takes them. */
module Send {
  import opened Protocol

  const WATERMARK: nat := 0x10_0000

  datatype Chunk = Chunk(data: seq<Byte>, off: nat)

  /** What a call of send() answers. Sent(0) counts as a failure. */
  datatype SendResult = Sent(n: nat) | Interrupted | WouldBlock | Failed

  /** The peer's side of a connection: the answers that send() will give as far as the offered bytes
      allow, and the bytes that it has taken since the connection began. */
  class Socket {
    var answers: seq<SendResult>
    ghost var taken: seq<Byte>

    constructor (answers: seq<SendResult>)
      ensures this.answers == answers && taken == []
    {
      this.answers, taken := answers, [];
    }

    /** send() takes the first of the bytes offered. Without a further answer it would block. */
    method Send(bytes: seq<Byte>) returns (r: SendResult)
      modifies this
      ensures old(answers) == [] ==> r == WouldBlock && answers == []
      ensures old(answers) != [] ==> r == Cut(old(answers)[0], |bytes|) && answers == old(answers)[1..]
      ensures taken == if r.Sent? then old(taken) + bytes[..r.n] else old(taken)
    {
      if answers == [] { return WouldBlock; }
      r := Cut(answers[0], |bytes|);
      answers := answers[1..];
      if r.Sent? { taken := taken + bytes[..r.n]; }
    }
  }

  /** No more is taken than is offered. */
  function Cut(r: SendResult, offered: nat): (cut: SendResult)
    ensures cut.Sent? ==> cut.n <= offered
  {
    if r.Sent? && r.n > offered then Sent(offered) else r
  }

  function Left(c: Chunk): seq<Byte> { if c.off <= |c.data| then c.data[c.off..] else [] }

  /** The bytes still to go out, the first ones first. */
  function Pending(chunks: seq<Chunk>): seq<Byte> {
    if chunks == [] then [] else Left(chunks[0]) + Pending(chunks[1..])
  }

  lemma {:induction false} PendingAppend(chunks: seq<Chunk>, c: Chunk)
    ensures Pending(chunks + [c]) == Pending(chunks) + Left(c)
  {
    if chunks == [] {
      assert (chunks + [c])[1..] == [];
    } else {
      var rest := chunks[1..];
      assert (chunks + [c])[1..] == rest + [c];
      PendingAppend(rest, c);
      assert Left(chunks[0]) + (Pending(rest) + Left(c)) == (Left(chunks[0]) + Pending(rest)) + Left(c);
    }
  }

  /** What was sent and what is pending is the stream of the packets, and queued counts the latter. */
  ghost predicate Refines(chunks: seq<Chunk>, queued: int, sent: seq<Byte>, stream: seq<Byte>) {
    queued == |Pending(chunks)| <= WATERMARK && sent + Pending(chunks) == stream
  }

  function Advanced(c: Chunk, n: nat): Chunk { c.(off := c.off + n) }

  lemma {:induction false} PendingCons(c: Chunk, rest: seq<Chunk>)
    ensures Pending([c] + rest) == Left(c) + Pending(rest)
  {
    assert ([c] + rest)[1..] == rest;
  }

  lemma {:induction false} Advance(c: Chunk, rest: seq<Chunk>, n: nat, queued: int, sent: seq<Byte>, stream: seq<Byte>)
    requires c.off + n <= |c.data| && Refines([c] + rest, queued, sent, stream)
    ensures Refines([Advanced(c, n)] + rest, queued - n, sent + c.data[c.off..][..n], stream)
  {
    PendingCons(c, rest);
    PendingCons(Advanced(c, n), rest);
    var now, later, after := c.data[c.off..][..n], Left(Advanced(c, n)), Pending(rest);
    assert Left(c) == now + later;
    Reassociate(sent, now, later, after);
  }

  lemma {:induction false} Append(chunks: seq<Chunk>, queued: int, sent: seq<Byte>, stream: seq<Byte>, data: seq<Byte>)
    requires Refines(chunks, queued, sent, stream) && queued + |data| <= WATERMARK
    ensures Refines(chunks + [Chunk(data, 0)], queued + |data|, sent, stream + data)
  {
    PendingAppend(chunks, Chunk(data, 0));
    assert sent + (Pending(chunks) + data) == (sent + Pending(chunks)) + data;
  }

  lemma {:induction false} DropFirst(c: Chunk, rest: seq<Chunk>, queued: int, sent: seq<Byte>, stream: seq<Byte>)
    requires c.off == |c.data| && Refines([c] + rest, queued, sent, stream)
    ensures Refines(rest, queued, sent, stream)
  {
    PendingCons(c, rest);
    assert Left(c) + Pending(rest) == Pending(rest);
  }

  lemma {:induction false} Reassociate<T>(a: seq<T>, b: seq<T>, c: seq<T>, d: seq<T>)
    ensures a + ((b + c) + d) == (a + b) + (c + d)
  {
  }

  predicate Refuses(r: SendResult) { r.Failed? || r == Sent(0) }

  predicate Stopping(r: SendResult) { Refuses(r) || r.WouldBlock? }

  /** None of these answers ends the writing. */
  ghost predicate NoStop(answers: seq<SendResult>, from: nat, to: nat)
    requires from <= to <= |answers|
  {
    forall k | from <= k < to :: !Stopping(answers[k])
  }

  /** The last of these answers ends it, or there are no more. */
  ghost predicate Stops(answers: seq<SendResult>, from: nat, to: nat)
    requires from <= to <= |answers|
  {
    if from < to && Stopping(answers[to - 1]) then NoStop(answers, from, to - 1)
    else to == |answers| && NoStop(answers, from, to)
  }

  /** How many bytes are taken of chunks with so many bytes left: each answer is about the first chunk
      that is not yet gone, until one stops the writing. */
  function Taken(left: seq<nat>, answers: seq<SendResult>): nat
    decreases |answers|
  {
    if left == [] || answers == [] || Stopping(answers[0]) then 0
    else if answers[0].Interrupted? then Taken(left, answers[1..])
    else if answers[0].n < left[0] then
      answers[0].n + Taken([left[0] - answers[0].n] + left[1..], answers[1..])
    else left[0] + Taken(left[1..], answers[1..])
  }

  function Total(left: seq<nat>): nat {
    if left == [] then 0 else left[0] + Total(left[1..])
  }

  /** One answer for each chunk, large enough for it: everything is taken. */
  lemma {:induction false} AllTaken(left: seq<nat>, answers: seq<SendResult>)
    requires |left| <= |answers|
    requires forall k | 0 <= k < |left| :: left[k] > 0 && answers[k].Sent? && answers[k].n >= left[k]
    ensures Taken(left, answers) == Total(left)
  {
    if left != [] { AllTaken(left[1..], answers[1..]); }
  }

  /** How many bytes each chunk has left. */
  function Lengths(chunks: seq<Chunk>): (left: seq<nat>)
    ensures |left| == |chunks|
  {
    seq(|chunks|, k requires 0 <= k < |chunks| => |Left(chunks[k])|)
  }

  lemma {:induction false} LengthsCons(c: Chunk, rest: seq<Chunk>)
    ensures Lengths([c] + rest) == [|Left(c)|] + Lengths(rest)
  {
  }

  lemma {:induction false} LengthsAppend(chunks: seq<Chunk>, data: seq<Byte>)
    ensures Lengths(chunks + [Chunk(data, 0)]) == Lengths(chunks) + [|data|]
  {
  }

  /** What is left to write when the first chunk may be gone. */
  function Ahead(c: Chunk, rest: seq<Chunk>): seq<Chunk> { if c.off < |c.data| then [c] + rest else rest }

  /** One call of send() with the rest of the first chunk. */
  lemma {:induction false} TakenOnce(c: Chunk, rest: seq<Chunk>, answers: seq<SendResult>)
    requires c.off < |c.data| && answers != []
    ensures var r := Cut(answers[0], |c.data| - c.off);
            && Stopping(r) == Stopping(answers[0])
            && Taken(Lengths([c] + rest), answers)
               == if Stopping(r) then 0
                  else if r.Interrupted? then Taken(Lengths([c] + rest), answers[1..])
                  else r.n + Taken(Lengths(Ahead(Advanced(c, r.n), rest)), answers[1..])
  {
    LengthsCons(c, rest);
    var r := Cut(answers[0], |c.data| - c.off);
    if r.Sent? { LengthsCons(Advanced(c, r.n), rest); }
    assert ([|Left(c)|] + Lengths(rest))[1..] == Lengths(rest);
  }

  /** What a call of send() with the rest of the first chunk does to the queue. */
  lemma {:induction false} RestSent(c: Chunk, rest: seq<Chunk>, queued: int, taken: seq<Byte>, stream: seq<Byte>,
                                    answers: seq<SendResult>, r: SendResult)
    requires c.off < |c.data| && Refines([c] + rest, queued, taken, stream)
    requires if answers == [] then r == WouldBlock else r == Cut(answers[0], |c.data| - c.off)
    ensures Stopping(r) ==> Taken(Lengths([c] + rest), answers) == 0
    ensures r.Interrupted? ==> Taken(Lengths([c] + rest), answers) == Taken(Lengths(Ahead(c, rest)), answers[1..])
    ensures r.Sent? && r.n > 0 ==>
              && Refines([Advanced(c, r.n)] + rest, queued - r.n, taken + c.data[c.off..][..r.n], stream)
              && Taken(Lengths([c] + rest), answers)
                 == r.n + Taken(Lengths(Ahead(Advanced(c, r.n), rest)), answers[1..])
  {
    if answers != [] { TakenOnce(c, rest, answers); }
    if r.Sent? {
      Advance(c, rest, r.n, queued, taken, stream);
    }
  }

  /** One call of send(), as far as the writing goes. */
  ghost predicate Answered(before: seq<SendResult>, after: seq<SendResult>, r: SendResult) {
    if before == [] then r == WouldBlock && after == []
    else after == before[1..] && Stopping(r) == Stopping(before[0]) && Refuses(r) == Refuses(before[0])
  }

  /** Of all the answers so many were given, those left are next; r stands for the last one, and only it
      may have stopped the writing. */
  ghost predicate Given(all: seq<SendResult>, used: nat, next: seq<SendResult>, r: SendResult) {
    && used <= |all| && next == all[used..]
    && (if Stopping(r) then Stops(all, 0, used) else NoStop(all, 0, used))
    && (Refuses(r) <==> used > 0 && Refuses(all[used - 1]))
  }

  lemma {:induction false} GivenNext(all: seq<SendResult>, used: nat, before: seq<SendResult>, r: SendResult,
                                     after: seq<SendResult>, r': SendResult)
    requires Given(all, used, before, r) && !Stopping(r) && Answered(before, after, r')
    ensures Given(all, if before == [] then used else used + 1, after, r')
  {
    if before != [] { assert all[used..][1..] == all[used + 1..]; }
  }

  /** The answers given to the first chunk, and then those given to the next one. */
  lemma {:induction false} GivenBoth(all: seq<SendResult>, used: nat, next: seq<SendResult>, r: SendResult,
                                     more: nat, last: seq<SendResult>, r': SendResult)
    requires Given(all, used, next, r) && !Stopping(r) && Given(next, more, last, r')
    ensures Given(all, used + more, last, r')
  {
    assert all[used..][more..] == all[used + more..];
    assert forall k | used <= k < used + more :: all[k] == next[k - used];
  }

  predicate AllFit(packets: seq<Packet>) { forall k | 0 <= k < |packets| :: Fits(packets[k]) }

  ghost predicate Unfinished(chunks: seq<Chunk>) { forall k | 0 <= k < |chunks| :: chunks[k].off < |chunks[k].data| }

  class Sender {
    const socket: Socket
    var chunks: seq<Chunk>
    var queued: nat
    var wantEpollout: bool
    var open: bool
    /** The packets accepted since the connection began. */
    ghost var packets: seq<Packet>

    /** The queue is a first-in-first-out queue of bytes: what the socket has taken and what is pending
        is the stream of the accepted packets. */
    ghost predicate Open()
      reads this, socket
    {
      && open && AllFit(packets)
      && Unfinished(chunks)
      && Refines(chunks, queued, socket.taken, Stream(packets))
    }

    /** Between calls the socket is watched for room exactly when something is pending. */
    ghost predicate Idle()
      reads this, socket
    {
      Open() && (wantEpollout <==> chunks != [])
    }

    ghost predicate Closed()
      reads this, socket
    {
      !open && AllFit(packets) && socket.taken <= Stream(packets) && chunks == [] && queued == 0
    }

    /** tx_init */
    constructor (answers: seq<SendResult>)
      ensures Idle() && chunks == [] && packets == []
      ensures fresh(socket) && socket.answers == answers && socket.taken == []
    {
      chunks, queued, wantEpollout, open := [], 0, false, true;
      packets := [];
      socket := new Socket(answers);
    }

    /** cleanup_connection: what is pending is dropped. */
    method Close()
      requires open && AllFit(packets) && socket.taken <= Stream(packets)
      modifies this
      ensures Closed() && packets == old(packets)
    {
      chunks, queued, open := [], 0, false;
    }

    /** The chunks are not yet all gone, and together with what was taken they are the stream. */
    ghost predicate Flowing(stream: seq<Byte>)
      reads this, socket
    {
      Unfinished(chunks) && Refines(chunks, queued, socket.taken, stream)
    }

    /** How many bytes the socket will have taken when the writing stops. */
    ghost function Goal(): nat
      reads this, socket
    {
      |socket.taken| + Taken(Lengths(chunks), socket.answers)
    }

    /** One call of send(), with all that is left of the first chunk. */
    method SendRest(c: Chunk, ghost rest: seq<Chunk>, ghost stream: seq<Byte>) returns (r: SendResult, c': Chunk)
      requires chunks == [c] + rest && c.off < |c.data| && Refines(chunks, queued, socket.taken, stream)
      modifies this`chunks, this`queued, socket
      ensures Answered(old(socket.answers), socket.answers, r)
      ensures c'.data == c.data && c.off <= c'.off <= |c.data| && chunks == [c'] + rest
      ensures Refines(chunks, queued, socket.taken, stream) && old(socket.taken) <= socket.taken
      ensures Stopping(r) ==> c' == c && |socket.taken| == old(Goal())
      ensures !Stopping(r) ==>
                old(Goal()) == |socket.taken| + Taken(Lengths(Ahead(c', rest)), socket.answers)
    {
      ghost var before, given := socket.taken, socket.answers;
      c' := c;
      r := socket.Send(c.data[c.off..]);
      RestSent(c, rest, queued, before, stream, given, r);
      if r.Sent? && r.n > 0 {
        c' := Advanced(c, r.n);
        chunks := [c'] + chunks[1..];
        queued := queued - r.n;
      }
    }

    /** The first chunk, as far as the socket takes it; then it is removed. Returns the answer to the last
        call. used: how many of the answers were given. */
    method WriteFirst(ghost stream: seq<Byte>) returns (r: SendResult, ghost used: nat)
      requires chunks != [] && Flowing(stream)
      modifies this`chunks, this`queued, socket
      ensures Flowing(stream) && old(socket.taken) <= socket.taken
      ensures if Stopping(r) then chunks != [] && |socket.taken| == old(Goal())
              else chunks == old(chunks[1..]) && Goal() == old(Goal())
      ensures Given(old(socket.answers), used, socket.answers, r)
    {
      ghost var all, goal, rest := socket.answers, Goal(), chunks[1..];
      var c := chunks[0];
      r, used := Interrupted, 0;
      while c.off < |c.data|
        invariant chunks == [c] + rest && c.off <= |c.data| && Unfinished(rest)
        invariant Refines(chunks, queued, socket.taken, stream) && old(socket.taken) <= socket.taken
        invariant Given(all, used, socket.answers, r) && !Stopping(r)
        invariant goal == |socket.taken| + Taken(Lengths(Ahead(c, rest)), socket.answers)
        decreases |socket.answers|
      {
        ghost var given, last := socket.answers, r;
        r, c := SendRest(c, rest, stream);
        GivenNext(all, used, given, last, socket.answers, r);
        if given != [] { used := used + 1; }
        if Stopping(r) { return; }
      }
      DropFirst(c, rest, queued, socket.taken, stream);
      chunks := chunks[1..];
    }

    /** The outer loop of handle_write: one chunk after the other, until none is left or an answer stops
        the writing. */
    method WriteAll(ghost stream: seq<Byte>) returns (r: SendResult, ghost used: nat)
      requires Flowing(stream)
      modifies this`chunks, this`queued, socket
      ensures Flowing(stream) && old(socket.taken) <= socket.taken && |socket.taken| == old(Goal())
      ensures Given(old(socket.answers), used, socket.answers, r)
      ensures (Stopping(r) <==> chunks != []) && (old(chunks) == [] ==> chunks == [])
    {
      ghost var all, goal := socket.answers, Goal();
      r, used := Interrupted, 0;
      while !Stopping(r) && chunks != []
        invariant Flowing(stream) && old(socket.taken) <= socket.taken
        invariant Given(all, used, socket.answers, r)
        invariant if Stopping(r) then chunks != [] && |socket.taken| == goal else Goal() == goal
        invariant old(chunks) == [] ==> chunks == []
        decreases !Stopping(r), |chunks|
      {
        ghost var given, last, more := socket.answers, r, 0;
        r, more := WriteFirst(stream);
        GivenBoth(all, used, given, last, more, socket.answers, r);
        used := used + more;
      }
    }

    /** handle_write: the chunks go out in order until none is left, the socket is full or it fails. A
        failure closes the connection. used: how many answers of send() were given. */
    method HandleWrite() returns (code: int, ghost used: nat)
      requires Open()
      modifies this, socket
      ensures packets == old(packets) && old(socket.taken) <= socket.taken && |socket.taken| == old(Goal())
      ensures used <= |old(socket.answers)| && socket.answers == old(socket.answers)[used..]
      ensures code == 0 ==>
                Open() && wantEpollout == (old(wantEpollout) && chunks != []) && (old(chunks) == [] ==> chunks == [])
      ensures code == 0 && chunks == [] ==> NoStop(old(socket.answers), 0, used)
      ensures code == 0 && chunks != [] ==>
                Stops(old(socket.answers), 0, used) && (used == 0 || !Refuses(old(socket.answers)[used - 1]))
      ensures code != 0 ==>
                && code == -1 && Closed() && Stops(old(socket.answers), 0, used)
                && used > 0 && Refuses(old(socket.answers)[used - 1])
    {
      var r: SendResult;
      r, used := WriteAll(Stream(packets));
      if Stopping(r) {
        if r.WouldBlock? { return 0, used; }
        Close();
        return -1, used;
      }
      wantEpollout := false;
      return 0, used;
    }

    /** A new chunk behind the others. */
    method AddChunk(data: seq<Byte>, ghost p: Packet)
      requires Open() && Fits(p) && data == Bytes(p) && queued + |data| <= WATERMARK
      modifies this`chunks, this`queued, this`packets
      ensures Open() && packets == old(packets) + [p]
      ensures chunks != [] && Lengths(chunks) == Lengths(old(chunks)) + [|data|]
    {
      StreamAppend(packets, p);
      Append(chunks, queued, socket.taken, Stream(packets), data);
      LengthsAppend(chunks, data);
      chunks := chunks + [Chunk(data, 0)];
      queued := queued + |data|;
      packets := packets + [p];
    }

    /** enqueue_message, given the bytes of a packet: refused when they would exceed the watermark. */
    method Enqueue(data: seq<Byte>, ghost p: Packet) returns (code: int)
      requires Idle() && Fits(p) && data == Bytes(p)
      modifies this, socket
      ensures old(socket.taken) <= socket.taken
      ensures old(queued) + |data| > WATERMARK ==> code == -1 && unchanged(this) && unchanged(socket)
      ensures old(queued) + |data| <= WATERMARK ==>
                && packets == old(packets) + [p]
                && |socket.taken| == |old(socket.taken)| + Taken(Lengths(old(chunks)) + [|data|], old(socket.answers))
                && if code == 0 then Idle() else Closed()
      ensures code == 0 || code == -1
    {
      if queued + |data| > WATERMARK { return -1; }
      AddChunk(data, p);
      ghost var used: nat;
      code, used := HandleWrite();
      if code < 0 { return -1; }
      if chunks != [] && !wantEpollout { wantEpollout := true; }
    }

    /** send_packet: a packet that is too long for the protocol is refused as well. */
    method SendPacket(kind: Byte, payload: seq<Byte>) returns (code: int)
      requires Idle() && |payload| < 65536
      modifies this, socket
      ensures old(socket.taken) <= socket.taken
      ensures var accepted := Fits(Packet(kind, payload)) && old(queued) + HEADER_SIZE + |payload| <= WATERMARK;
              if accepted then
                && packets == old(packets) + [Packet(kind, payload)]
                && |socket.taken| == |old(socket.taken)|
                   + Taken(Lengths(old(chunks)) + [HEADER_SIZE + |payload|], old(socket.answers))
                && if code == 0 then Idle() else Closed()
              else code == -1 && unchanged(this) && unchanged(socket)
      ensures code == 0 || code == -1
    {
      if HEADER_SIZE + |payload| > MAX_SIZE { return -1; }
      var header := Encode(kind, |payload|);
      if header.None? { return -1; }
      code := Enqueue(header.value + payload, Packet(kind, payload));
    }
  }
}
