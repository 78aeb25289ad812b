/** From the output queue of one side to the handler of the other. */
module Wire {
  import opened Protocol
  import opened Receive
  import opened Send

  /** What follows frame k in the buffer d. */
  ghost function Following(d: seq<Byte>, k: nat): seq<Byte>
    requires k < |Deliver(d)|
    decreases k
  {
    if k == 0 then AfterFirst(d) else Following(AfterFirst(d), k - 1)
  }

  /** In one extraction loop, byte i of payload k is the one sent when what follows does not reach it. */
  lemma {:induction false} DeliveredByte(d: seq<Byte>, k: nat, i: nat)
    requires k < |Deliver(d)| && i < |Deliver(d)[k].payload| && HEADER_SIZE + i >= |Following(d, k)|
    ensures |Parse(d).packets| == |Deliver(d)| && i < |Parse(d).packets[k].payload|
    ensures Deliver(d)[k].payload[i] == Parse(d).packets[k].payload[i]
    decreases k
  {
    DeliverFrames(d);
    if k == 0 {
      TailIsIntact(d, i);
    } else {
      assert Deliver(d)[k] == Deliver(AfterFirst(d))[k - 1];
      DeliveredByte(AfterFirst(d), k - 1, i);
    }
  }

  /** Everything handed to the handler by successive reads, each starting with the rest of the one before. */
  ghost function Handed(chunks: seq<seq<Byte>>): seq<Delivery>
    decreases |chunks|
  {
    if chunks == [] then []
    else
      var before := chunks[..|chunks| - 1];
      Handed(before) + (if Receives(before).broken then [] else Deliver(Receives(before).rest + chunks[|chunks| - 1]))
  }

  lemma {:induction false} SameFramesAppend(got: seq<Delivery>, more: seq<Delivery>, packets: seq<Packet>,
                                            others: seq<Packet>)
    requires SameFrames(got, packets) && SameFrames(more, others)
    ensures SameFrames(got + more, packets + others)
  {
  }

  lemma {:induction false} HandedFrames(chunks: seq<seq<Byte>>)
    ensures SameFrames(Handed(chunks), Receives(chunks).packets)
    decreases |chunks|
  {
    if chunks != [] {
      var before := chunks[..|chunks| - 1];
      HandedFrames(before);
      if Receives(before).broken {
        assert Handed(chunks) == Handed(before);
      } else {
        var d := Receives(before).rest + chunks[|chunks| - 1];
        DeliverFrames(d);
        SameFramesAppend(Handed(before), Deliver(d), Receives(before).packets, Parse(d).packets);
      }
    }
  }

  /** Whatever was sent of the stream of the accepted packets, and however what has arrived of it was
      cut into reads, the stream never looks broken, the buffer never stays full, and the handler is
      handed the first packets in order, with their kinds and lengths; when all has arrived it has
      been handed all of them. */
  lemma {:induction false} EndToEnd(packets: seq<Packet>, sent: seq<Byte>, arrived: seq<seq<Byte>>)
    requires AllFit(packets) && sent <= Stream(packets) && Joined(arrived) <= sent
    ensures !Receives(arrived).broken && |Receives(arrived).rest| < MAX_SIZE
    ensures |Handed(arrived)| <= |packets| && SameFrames(Handed(arrived), packets[..|Handed(arrived)|])
    ensures Joined(arrived) == Stream(packets) ==> |Handed(arrived)| == |packets| && Receives(arrived).rest == []
  {
    CutsIrrelevant(arrived);
    PrefixOfStream(packets, Joined(arrived));
    HandedFrames(arrived);
    assert Receives(arrived).packets == packets[..|Handed(arrived)|];
    if Joined(arrived) == Stream(packets) { StreamRoundTrip(packets); }
  }

  lemma {:induction false} OneMoreRead(chunks: seq<seq<Byte>>, chunk: seq<Byte>)
    ensures Handed(chunks) <= Handed(chunks + [chunk])
    ensures Joined(chunks) <= Joined(chunks + [chunk])
  {
    var all := chunks + [chunk];
    assert all[..|all| - 1] == chunks;
  }

  lemma {:induction false} PrefixOfPrefix<T>(a: seq<T>, b: seq<T>, c: seq<T>)
    requires a <= b <= c
    ensures a <= c
  {
  }

  lemma {:induction false} HandedGrows(chunks: seq<seq<Byte>>, more: seq<seq<Byte>>)
    ensures Handed(chunks) <= Handed(chunks + more)
    ensures Joined(chunks) <= Joined(chunks + more)
    decreases |more|
  {
    if more == [] {
      assert chunks + more == chunks;
    } else {
      var fewer, last := more[..|more| - 1], more[|more| - 1];
      assert chunks + more == (chunks + fewer) + [last];
      HandedGrows(chunks, fewer);
      OneMoreRead(chunks + fewer, last);
      PrefixOfPrefix(Handed(chunks), Handed(chunks + fewer), Handed(chunks + more));
      PrefixOfPrefix(Joined(chunks), Joined(chunks + fewer), Joined(chunks + more));
    }
  }

  /** The stream so far never looked broken, and its packets are the first ones sent. */
  lemma {:induction false} SoFar(packets: seq<Packet>, arrived: seq<seq<Byte>>)
    requires AllFit(packets) && Joined(arrived) <= Stream(packets)
    ensures !Receives(arrived).broken && Receives(arrived).packets <= packets
    ensures |Handed(arrived)| == |Receives(arrived).packets|
  {
    CutsIrrelevant(arrived);
    PrefixOfStream(packets, Joined(arrived));
    HandedFrames(arrived);
  }

  /** A last read after the reads before it. */
  lemma {:induction false} LastRead(before: seq<seq<Byte>>, chunk: seq<Byte>)
    requires !Receives(before).broken
    ensures var d := Receives(before).rest + chunk;
            && Receives(before + [chunk]).packets == Receives(before).packets + Parse(d).packets
            && Handed(before + [chunk]) == Handed(before) + Deliver(d)
  {
    var now := before + [chunk];
    assert now[..|now| - 1] == before;
  }

  /** Byte i of the k-th frame in d is exact: what follows it in the buffer does not reach that far. */
  ghost predicate Untouched(d: seq<Byte>, k: nat, i: nat) {
    k < |Deliver(d)| && i < |Deliver(d)[k].payload| && HEADER_SIZE + i >= |Following(d, k)|
  }

  ghost predicate ByteArrives(got: seq<Delivery>, packets: seq<Packet>, j: nat, i: nat) {
    && j < |got| && j < |packets| && i < |got[j].payload| && i < |packets[j].payload|
    && got[j].payload[i] == packets[j].payload[i]
  }

  lemma {:induction false} ByteBehind(got: seq<Delivery>, more: seq<Delivery>, first: seq<Packet>, next: seq<Packet>,
                                      packets: seq<Packet>, k: nat, i: nat)
    requires |got| == |first| && first + next <= packets && ByteArrives(more, next, k, i)
    ensures ByteArrives(got + more, packets, |got| + k, i)
  {
    assert (first + next)[|got| + k] == next[k];
  }

  lemma {:induction false} LastReadByte(packets: seq<Packet>, before: seq<seq<Byte>>, chunk: seq<Byte>, d: seq<Byte>,
                                        k: nat, i: nat)
    requires AllFit(packets) && Joined(before + [chunk]) <= Stream(packets) && Joined(before) <= Stream(packets)
    requires d == Receives(before).rest + chunk && Untouched(d, k, i)
    ensures ByteArrives(Handed(before + [chunk]), packets, |Handed(before)| + k, i)
  {
    SoFar(packets, before);
    SoFar(packets, before + [chunk]);
    LastRead(before, chunk);
    DeliveredByte(d, k, i);
    ByteBehind(Handed(before), Deliver(d), Receives(before).packets, Parse(d).packets, packets, k, i);
  }

  /** One of the reads starts with the rest of the reads before it, and hands over the frames n,
      n + 1, ... of the stream, where n frames came before. Byte i of the k-th of them is the one sent,
      if what follows this frame in the buffer does not reach it, whatever is read later. */
  lemma {:induction false} EndToEndByte(packets: seq<Packet>, sent: seq<Byte>, before: seq<seq<Byte>>, chunk: seq<Byte>,
                                        later: seq<seq<Byte>>, d: seq<Byte>, k: nat, i: nat)
    requires AllFit(packets) && sent <= Stream(packets) && Joined((before + [chunk]) + later) <= sent
    requires d == Receives(before).rest + chunk && Untouched(d, k, i)
    ensures ByteArrives(Handed((before + [chunk]) + later), packets, |Handed(before)| + k, i)
  {
    HandedGrows(before, [chunk]);
    HandedGrows(before + [chunk], later);
    LastReadByte(packets, before, chunk, d, k, i);
  }
}
