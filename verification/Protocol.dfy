/** The six bytes in front of every packet, in network byte order, and the frames of a stream. */
module Protocol {
  import opened Options

  newtype Byte = b: int | 0 <= b < 256

  const MAGIC := 0x5053
  const VERSION: Byte := 1
  const HEADER_SIZE := 6
  const MAX_SIZE := 4090

  datatype Header = Header(magic: nat, version: Byte, kind: Byte, length: nat)

  /** ntohs on two bytes of the wire, and htons. */
  function Short(high: Byte, low: Byte): nat { high as int * 256 + low as int }

  function ShortBytes(n: nat): seq<Byte>
    requires n < 65536
  {
    [(n / 256) as Byte, (n % 256) as Byte]
  }

  lemma {:induction false} ShortRoundTrip(n: nat, high: Byte, low: Byte)
    ensures n < 65536 ==> Short(ShortBytes(n)[0], ShortBytes(n)[1]) == n
    ensures ShortBytes(Short(high, low)) == [high, low]
  {
  }

  /** protocol_header_encode; None when the packet would be too long. */
  function Encode(kind: Byte, length: nat): Option<seq<Byte>>
    requires length < 65536
  {
    if length + HEADER_SIZE > MAX_SIZE then None
    else Some(ShortBytes(MAGIC) + [VERSION, kind] + ShortBytes(length))
  }

  function Decode(bytes: seq<Byte>): Header
    requires |bytes| >= HEADER_SIZE
  {
    Header(Short(bytes[0], bytes[1]), bytes[2], bytes[3], Short(bytes[4], bytes[5]))
  }

  predicate Validate(h: Header) {
    h.magic == MAGIC && h.version == VERSION && h.length + HEADER_SIZE <= MAX_SIZE
  }

  /** try_peek_header: too few bytes, a header that is not accepted, or the header. */
  datatype Peeked = TooShort | Rejected | Accepted(header: Header)

  function Peek(buffer: seq<Byte>): Peeked {
    if |buffer| < HEADER_SIZE then TooShort
    else if !Validate(Decode(buffer)) then Rejected
    else Accepted(Decode(buffer))
  }

  /** What is encoded is read back, whatever follows it. */
  lemma {:induction false} EncodedIsAccepted(kind: Byte, length: nat, rest: seq<Byte>)
    requires length + HEADER_SIZE <= MAX_SIZE
    ensures |Encode(kind, length).value| == HEADER_SIZE
    ensures Peek(Encode(kind, length).value + rest) == Accepted(Header(MAGIC, VERSION, kind, length))
  {
    ShortRoundTrip(MAGIC, 0, 0);
    ShortRoundTrip(length, 0, 0);
    var bytes := Encode(kind, length).value + rest;
    assert bytes[4] == ShortBytes(length)[0] && bytes[5] == ShortBytes(length)[1];
  }

  /** The header on the wire: 'P', 'S', the version, the kind, and the length with its high byte first. */
  lemma {:induction false} EncodeBytes(kind: Byte, high: Byte, low: Byte)
    requires high as int * 256 + low as int <= 4084
    ensures Encode(kind, high as int * 256 + low as int) == Some([0x50, 0x53, 1, kind, high, low])
  {
    ShortRoundTrip(0, high, low);
    assert ShortBytes(MAGIC) == [0x50, 0x53];
    var bytes := ShortBytes(MAGIC) + [VERSION, kind] + ShortBytes(Short(high, low));
    assert bytes == [0x50, 0x53, VERSION, kind, high, low];
  }

  /** Only what encodes to these very bytes is accepted. */
  lemma {:induction false} AcceptedIsEncoded(buffer: seq<Byte>)
    requires Peek(buffer).Accepted?
    ensures var h := Peek(buffer).header;
            h.length + HEADER_SIZE <= MAX_SIZE && Encode(h.kind, h.length) == Some(buffer[..HEADER_SIZE])
  {
    EncodeBytes(buffer[3], buffer[4], buffer[5]);
    assert buffer[0] == 0x50 && buffer[1] == 0x53 by { ShortRoundTrip(0, buffer[0], buffer[1]); }
    assert buffer[..HEADER_SIZE] == [buffer[0], buffer[1], buffer[2], buffer[3], buffer[4], buffer[5]];
  }

  // ---------------------------------------------------------------- frames

  datatype Packet = Packet(kind: Byte, payload: seq<Byte>)

  predicate Fits(p: Packet) { HEADER_SIZE + |p.payload| <= MAX_SIZE }

  function Bytes(p: Packet): (b: seq<Byte>)
    requires Fits(p)
    ensures |b| == HEADER_SIZE + |p.payload|
  {
    EncodedIsAccepted(p.kind, |p.payload|, []);
    Encode(p.kind, |p.payload|).value + p.payload
  }

  function Stream(ps: seq<Packet>): seq<Byte>
    requires forall k | 0 <= k < |ps| :: Fits(ps[k])
  {
    if ps == [] then [] else Bytes(ps[0]) + Stream(ps[1..])
  }

  /** What the first bytes of a buffer are: not yet a whole frame, not a frame, or a frame. */
  datatype Front = Partial | Broken | Whole(header: Header)

  function FrontOf(d: seq<Byte>): (f: Front)
    ensures f.Whole? ==> Validate(f.header) && HEADER_SIZE + f.header.length <= |d|
    ensures f.Partial? ==> |d| < MAX_SIZE
  {
    match Peek(d)
    case TooShort => Partial
    case Rejected => Broken
    case Accepted(h) => if |d| < HEADER_SIZE + h.length then Partial else Whole(h)
  }

  function FirstPacket(d: seq<Byte>): Packet
    requires FrontOf(d).Whole?
  {
    Packet(FrontOf(d).header.kind, d[HEADER_SIZE..HEADER_SIZE + FrontOf(d).header.length])
  }

  function AfterFirst(d: seq<Byte>): (r: seq<Byte>)
    requires FrontOf(d).Whole?
    ensures |r| < |d|
  {
    d[HEADER_SIZE + FrontOf(d).header.length..]
  }

  /** The packets of a stream: those completed so far, what is left over, and whether it is broken there. */
  datatype Parsed = Parsed(packets: seq<Packet>, rest: seq<Byte>, broken: bool)

  function Parse(d: seq<Byte>): (r: Parsed)
    ensures |r.rest| <= |d|
    decreases |d|
  {
    match FrontOf(d)
    case Partial => Parsed([], d, false)
    case Broken => Parsed([], d, true)
    case Whole(_) =>
      var r := Parse(AfterFirst(d));
      r.(packets := [FirstPacket(d)] + r.packets)
  }

  /** After the extraction there is always room in the buffer, unless the stream is broken. */
  lemma {:induction false} ParseLeavesRoom(d: seq<Byte>)
    requires !Parse(d).broken
    ensures |Parse(d).rest| < MAX_SIZE
    decreases |d|
  {
    match FrontOf(d)
    case Whole(_) => ParseLeavesRoom(AfterFirst(d));
    case _ =>
  }

  lemma {:induction false} FrontStable(a: seq<Byte>, b: seq<Byte>)
    requires !FrontOf(a).Partial?
    ensures FrontOf(a + b) == FrontOf(a)
  {
    assert Decode(a + b) == Decode(a);
  }

  lemma {:induction false} FirstStable(a: seq<Byte>, b: seq<Byte>)
    requires FrontOf(a).Whole?
    ensures FrontOf(a + b).Whole? && FirstPacket(a + b) == FirstPacket(a) && AfterFirst(a + b) == AfterFirst(a) + b
  {
    FrontStable(a, b);
  }

  /** The outcome r of a parse, and what came of its rest with more bytes behind it. */
  function Continue(r: Parsed, more: Parsed): Parsed {
    if r.broken then r else more.(packets := r.packets + more.packets)
  }

  function Prepend(p: Packet, r: Parsed): Parsed { r.(packets := [p] + r.packets) }

  lemma {:induction false} ContinuePrepend(p: Packet, r: Parsed, more: Parsed)
    ensures Continue(Prepend(p, r), more) == Prepend(p, Continue(r, more))
  {
    assert [p] + (r.packets + more.packets) == ([p] + r.packets) + more.packets;
  }

  lemma {:induction false} ContinueNothing(more: Parsed, d: seq<Byte>)
    ensures Continue(Parsed([], d, false), more) == more
  {
    assert [] + more.packets == more.packets;
  }

  lemma {:induction false} ParseFirst(d: seq<Byte>)
    requires FrontOf(d).Whole?
    ensures Parse(d) == Prepend(FirstPacket(d), Parse(AfterFirst(d)))
  {
  }

  /** What two parses agree on: the packets, the verdict, and the rest of a sound stream. */
  predicate SameParse(a: Parsed, b: Parsed) {
    a.packets == b.packets && a.broken == b.broken && (!a.broken ==> a.rest == b.rest)
  }

  /** Where the stream is cut does not matter: parsing a, keeping the rest and adding b gives the
      packets of a + b. */
  lemma {:induction false} ParseIncremental(a: seq<Byte>, b: seq<Byte>)
    ensures SameParse(Parse(a + b), Continue(Parse(a), Parse(Parse(a).rest + b)))
    decreases |a|
  {
    match FrontOf(a)
    case Partial =>
      ContinueNothing(Parse(a + b), a);
    case Broken =>
      FrontStable(a, b);
    case Whole(_) =>
      FirstStable(a, b);
      ParseFirst(a);
      ParseFirst(a + b);
      var r := Parse(AfterFirst(a));
      ParseIncremental(AfterFirst(a), b);
      ContinuePrepend(FirstPacket(a), r, Parse(r.rest + b));
  }

  lemma {:induction false} ParsePacket(p: Packet, rest: seq<Byte>)
    requires Fits(p)
    ensures Parse(Bytes(p) + rest) == Parse(rest).(packets := [p] + Parse(rest).packets)
  {
    var head := Encode(p.kind, |p.payload|).value;
    var d := Bytes(p) + rest;
    assert d == head + (p.payload + rest);
    EncodedIsAccepted(p.kind, |p.payload|, p.payload + rest);
    assert FirstPacket(d).payload == p.payload;
    assert AfterFirst(d) == rest;
  }

  /** The packets sent are the packets received. */
  lemma {:induction false} StreamRoundTrip(ps: seq<Packet>)
    requires forall k | 0 <= k < |ps| :: Fits(ps[k])
    ensures Parse(Stream(ps)) == Parsed(ps, [], false)
  {
    if ps != [] {
      StreamRoundTrip(ps[1..]);
      ParsePacket(ps[0], Stream(ps[1..]));
      assert [ps[0]] + ps[1..] == ps;
    }
  }

  lemma {:induction false} StreamAppend(ps: seq<Packet>, p: Packet)
    requires (forall k | 0 <= k < |ps| :: Fits(ps[k])) && Fits(p)
    ensures Stream(ps + [p]) == Stream(ps) + Bytes(p)
  {
    if ps == [] {
      assert (ps + [p])[1..] == [];
    } else {
      assert (ps + [p])[1..] == ps[1..] + [p];
      StreamAppend(ps[1..], p);
    }
  }

  /** Of a stream cut anywhere the receiver has exactly the packets that are complete. */
  lemma {:induction false} PrefixOfStream(ps: seq<Packet>, sent: seq<Byte>)
    requires (forall k | 0 <= k < |ps| :: Fits(ps[k])) && sent <= Stream(ps)
    ensures !Parse(sent).broken && Parse(sent).packets <= ps
    ensures sent == Stream(Parse(sent).packets) + Parse(sent).rest
    ensures sent == Stream(ps) ==> Parse(sent).packets == ps
    decreases |ps|
  {
    StreamRoundTrip(ps);
    var later := Stream(ps)[|sent|..];
    assert Stream(ps) == sent + later;
    ParseIncremental(sent, later);
    ParseIsStream(sent);
  }

  lemma {:induction false} FirstIsBytes(d: seq<Byte>)
    requires FrontOf(d).Whole?
    ensures Fits(FirstPacket(d)) && d == Bytes(FirstPacket(d)) + AfterFirst(d)
  {
    AcceptedIsEncoded(d);
    var total := HEADER_SIZE + FrontOf(d).header.length;
    assert Bytes(FirstPacket(d)) == d[..HEADER_SIZE] + d[HEADER_SIZE..total] == d[..total];
  }

  lemma {:induction false} ParseIsStream(d: seq<Byte>)
    ensures forall k | 0 <= k < |Parse(d).packets| :: Fits(Parse(d).packets[k])
    ensures d == Stream(Parse(d).packets) + Parse(d).rest
    decreases |d|
  {
    match FrontOf(d)
    case Whole(_) =>
      ParseIsStream(AfterFirst(d));
      FirstIsBytes(d);
      assert Parse(d).packets[1..] == Parse(AfterFirst(d)).packets;
    case _ =>
  }

  /** Any way of cutting the stream into receives. */
  function Receives(chunks: seq<seq<Byte>>): Parsed
    decreases |chunks|
  {
    if chunks == [] then Parsed([], [], false)
    else
      var before := Receives(chunks[..|chunks| - 1]);
      if before.broken then before
      else
        var r := Parse(before.rest + chunks[|chunks| - 1]);
        r.(packets := before.packets + r.packets)
  }

  function Joined(chunks: seq<seq<Byte>>): seq<Byte>
    decreases |chunks|
  {
    if chunks == [] then [] else Joined(chunks[..|chunks| - 1]) + chunks[|chunks| - 1]
  }

  lemma {:induction false} CutsIrrelevant(chunks: seq<seq<Byte>>)
    ensures Receives(chunks).packets == Parse(Joined(chunks)).packets
    ensures Receives(chunks).broken == Parse(Joined(chunks)).broken
    ensures !Receives(chunks).broken ==>
              Receives(chunks).rest == Parse(Joined(chunks)).rest && |Receives(chunks).rest| < MAX_SIZE
    decreases |chunks|
  {
    if chunks != [] {
      var before := chunks[..|chunks| - 1];
      CutsIrrelevant(before);
      ParseIncremental(Joined(before), chunks[|chunks| - 1]);
    }
    if !Parse(Joined(chunks)).broken { ParseLeavesRoom(Joined(chunks)); }
  }
}
