/** The read loop of a connection: one parser, fed with whatever chunks the socket delivers,
    handing each packet to the processor until something closes the connection. */
module Streams {
  import opened Common
  import opened Packets
  import opened RemainingLength
  import opened Decoding
  import opened MqttParsers
  import opened Serializers
  import opened RoundTrips

  /** The packets handed to the processor, and whether the connection stopped reading. */
  datatype Reading = Reading(packets: seq<Packet>, closed: bool)

  function Before(packets: seq<Packet>, r: Reading): Reading {
    Reading(packets + r.packets, r.closed)
  }

  lemma BeforeBefore(a: seq<Packet>, b: seq<Packet>, r: Reading)
    ensures Before(a, Before(b, r)) == Before(a + b, r)
  {
  }

  /** Whatever a parser delivers, it has consumed something. */
  lemma DoneShorter(mem: Memory, s: Str)
    requires Decode(mem, s).Done?
    ensures |Decode(mem, s).rest| < |s|
  {
    LengthShorter(0, s[1..]);
  }

  lemma {:induction false} LengthShorter(k: nat, s: Str)
    ensures var l := LengthFrom(k, s); l.LengthDone? ==> |l.rest| < |s|
    decreases s
  {
    if s != [] && k < 4 && s[0] >= 128 {
      LengthShorter(k + 1, s[1..]);
    }
  }

  /** What a connection makes of a byte stream, all at once. `closes(k)` says whether the
      processor ends the connection when it gets the packet number `k`. */
  function Stream(mem: Memory, s: Str, k: nat, closes: nat -> bool): Reading
    decreases |s| + 1, 0
  {
    assert Decode(mem, s).Done? ==> |Decode(mem, s).rest| < |s| by {
      if Decode(mem, s).Done? {
        DoneShorter(mem, s);
      }
    }
    Continue(mem, Decode(mem, s), k, closes)
  }

  /** What a connection makes of the packet in progress and all that follows it. */
  function Continue(mem: Memory, d: Decoded, k: nat, closes: nat -> bool): Reading
    decreases if d.Done? then |d.rest| + 1 else 0, 1
  {
    match d
    case Incomplete => Reading([], false)
    case Failed(_, _) => Reading([], true)
    case Done(_, p, ec, rest) =>
      if ec != NoError then Reading([], true)
      else if closes(k) then Reading([p], true)
      else Before([p], Stream(Remember(mem, p), rest, k + 1, closes))
  }

  function Concat(chunks: seq<Str>): Str {
    if chunks == [] then [] else chunks[0] + Concat(chunks[1..])
  }

  /** Inside a packet nothing can finish without another byte. */
  lemma NothingPending(p: MQTTParser)
    requires p.Valid() && p.status != PacketReady
    ensures p.Outcome([]) == Incomplete
  {
  }

  lemma FirstOf(t: Str, i: nat)
    requires i < |t|
    ensures t[i..] == [t[i]] + t[i + 1..]
  {
  }

  lemma NextOf(t: Str, i: nat, future: Str)
    requires i < |t|
    ensures t[i..] + future == [t[i]] + (t[i + 1..] + future)
  {
  }

  /** One byte for a parser that is inside the packet whose outcome is `d`. */
  method FeedByte(parser: MQTTParser, byte: Byte, ghost tail: Str, ghost d: Decoded, ghost mem: Memory)
    returns (ret: Tribool, ec: ErrorCode)
    requires parser.Inside(d, mem, [byte] + tail)
    modifies parser.Parts()
    ensures parser.Settled(d, mem, ret, ec, tail)
  {
    ret, ec := parser.Parse(byte, tail);
  }

  const READ_BUFFER := 64

  class Connection {
    const parser: MQTTParser
    const closes: nat -> bool
    var delivered: seq<Packet>
    var reading: bool

    ghost predicate Valid()
      reads this, parser, parser.Parts()
    {
      this !in parser.Parts() && (reading ==> parser.Valid() && parser.status != PacketReady)
    }

    /** Everything this connection will have delivered once the bytes `t` have arrived. */
    ghost function Outlook(t: Str): Reading
      requires Valid()
      reads this, parser, parser.Parts()
    {
      if !reading then Reading(delivered, true)
      else Before(delivered, Continue(parser.start, parser.Outcome(t), |delivered|, closes))
    }

    constructor (uuid: Str, closes: nat -> bool)
      ensures Valid() && reading && delivered == []
      ensures fresh(parser) && fresh(parser.Parts())
      ensures forall t :: Outlook(t) == Stream(Fresh(uuid), t, 0, closes)
    {
      this.closes := closes;
      parser := new MQTTParser(uuid);
      delivered, reading := [], true;
    }

    /** Takes the packet out of the parser and hands it to the processor. */
    method DeliverPacket(ghost tail: Str)
      requires this !in parser.Parts() && parser.Valid() && parser.status == PacketReady && reading
      modifies this, parser.Parts()
      ensures Valid()
      ensures Outlook(tail) == old(Before(delivered,
        Continue(parser.start, Done(parser.fixedHeaderParser.header, parser.packet.value, NoError, tail),
                 |delivered|, closes)))
    {
      ghost var before := delivered;
      var packet := parser.ConsumePacket();
      reading := !closes(|delivered|);
      delivered := delivered + [packet];
      BeforeBefore(before, [packet], Continue(parser.start, Decode(parser.start, tail), |delivered|, closes));
    }

    /** The inner loop of `handle_read`: parses until a packet is finished or the chunk ends. */
    method ParsePacket(data: Str, start: nat, ghost future: Str, ghost d: Decoded, ghost mem: Memory)
      returns (index: nat, ret: Tribool, errc: ErrorCode)
      requires start < |data| && parser.Inside(d, mem, data[start..] + future)
      modifies parser.Parts()
      ensures start < index <= |data| && (ret == Indeterminate ==> index == |data|)
      ensures parser.Settled(d, mem, ret, errc, data[index..] + future)
    {
      index, ret, errc := start, Indeterminate, NoError;
      ghost var tail := data[start..] + future;
      while ret == Indeterminate && index < |data|
        invariant start <= index <= |data| && (index == start ==> ret == Indeterminate)
        invariant tail == data[index..] + future
        invariant parser.Settled(d, mem, ret, errc, tail)
      {
        NextOf(data, index, future);
        tail := data[index + 1..] + future;
        ret, errc := FeedByte(parser, data[index], tail, d, mem);
        index := index + 1;
      }
    }

    /** `handle_read`: what is delivered does not depend on where a chunk ends. */
    method HandleRead(data: Str, ghost future: Str)
      requires Valid() && reading && |data| <= READ_BUFFER
      modifies this, parser.Parts()
      ensures Valid()
      ensures Outlook(future) == old(Outlook(data + future))
    {
      ghost var goal := Outlook(data + future);
      var index := 0;
      assert data[0..] == data;
      while index < |data|
        invariant index <= |data| && Valid() && reading
        invariant Outlook(data[index..] + future) == goal
      {
        index := HandlePacket(data, index, future);
        if !reading {
          return;
        }
      }
      assert data[index..] + future == future;
    }

    method HandlePacket(data: Str, start: nat, ghost future: Str) returns (index: nat)
      requires Valid() && reading && start < |data|
      modifies this, parser.Parts()
      ensures Valid() && start < index <= |data|
      ensures Outlook(if reading then data[index..] + future else future) == old(Outlook(data[start..] + future))
    {
      var ret, errc;
      ghost var d := parser.Outcome(data[start..] + future);
      index, ret, errc := ParsePacket(data, start, future, d, parser.start);
      if ret == False || errc != NoError {
        reading := false;
      } else if ret == True {
        DeliverPacket(data[index..] + future);
      }
    }

    /** A run of reads. The packets delivered are those of the whole stream, however it was cut. */
    method ReadAll(chunks: seq<Str>)
      requires Valid() && forall c | c in chunks :: |c| <= READ_BUFFER
      modifies this, parser.Parts()
      ensures Valid()
      ensures Reading(delivered, !reading) == old(Outlook(Concat(chunks)))
    {
      ghost var goal := Outlook(Concat(chunks));
      var i := 0;
      assert chunks[0..] == chunks;
      while i < |chunks| && reading
        invariant i <= |chunks| && Valid()
        invariant Outlook(Concat(chunks[i..])) == goal
      {
        assert chunks[i..][1..] == chunks[i + 1..];
        HandleRead(chunks[i], Concat(chunks[i + 1..]));
        i := i + 1;
      }
      if reading {
        NothingPending(parser);
      }
    }
  }

  // ---------------------------------------------------------------- a stream of serialized packets

  /** What one packet becomes at a parser that has seen others before it. */
  function Arrival(mem: Memory, p: ControlPacket): Packet {
    match p
    case Connect(c) => Connect(Received(mem.connect, c))
    case Publish(topic, _, payload) => Publish(topic, mem.publish.id, payload)
    case Subscribe(id, fs) => Subscribe(id, mem.subscribe.filters + Elements(fs))
    case SubAck(id, ls) => SubAck(id, mem.subAck.levels + ls)
    case _ => Meaning(p)
  }

  function Arrivals(mem: Memory, ps: seq<ControlPacket>): seq<Packet>
    decreases |ps|
  {
    if ps == [] then [] else
      var q := Arrival(mem, ps[0]);
      [q] + Arrivals(Remember(mem, q), ps[1..])
  }

  function Meanings(ps: seq<ControlPacket>): seq<Packet> {
    if ps == [] then [] else [Meaning(ps[0])] + Meanings(ps[1..])
  }

  lemma ArrivalDecoded(mem: Memory, p: ControlPacket, rest: Str)
    requires Sendable(p)
    ensures var d := Decode(mem, Wire(p) + rest);
      d.Done? && d.packet == Arrival(mem, p) && d.ec == NoError && d.rest == rest
  {
    match p
    case Connect(c) => ConnectDecoded(mem, c, rest);
    case ConnAck(s, r) => ConnAckDecoded(mem, s, r, rest);
    case Publish(topic, id, payload) => PublishDecoded(mem, topic, id, payload, rest);
    case Subscribe(id, filters) => SubscribeDecoded(mem, id, filters, rest);
    case SubAck(id, levels) => SubAckDecoded(mem, id, levels, rest);
    case PingResp => EmptyDecoded(mem, rest);
    case Disconnect => EmptyDecoded(mem, rest);
  }

  /** Packet boundaries are kept: every packet of the stream is delivered, one for one. */
  lemma {:induction false} StreamDelivers(mem: Memory, ps: seq<ControlPacket>, k: nat, closes: nat -> bool)
    requires AllSendable(ps)
    requires forall i | k <= i < k + |ps| :: !closes(i)
    ensures Stream(mem, WireAll(ps), k, closes) == Reading(Arrivals(mem, ps), false)
    decreases |ps|
  {
    if ps != [] {
      ArrivalDecoded(mem, ps[0], WireAll(ps[1..]));
      StreamDelivers(Remember(mem, Arrival(mem, ps[0])), ps[1..], k + 1, closes);
    }
  }

  // ---------------------------------------------------------------- when nothing is left over

  predicate SameKind(p: ControlPacket, q: ControlPacket) {
    || (p.Connect? && q.Connect?)
    || (p.Subscribe? && q.Subscribe?)
    || (p.SubAck? && q.SubAck?)
  }

  /** Nothing of `p` shows up in a later packet `q` of the same kind. */
  predicate Compatible(p: ControlPacket, q: ControlPacket)
    requires SameKind(p, q)
  {
    match q
    case Connect(c) =>
      && (c.willFlag || (p.fields.willTopic == [] && p.fields.willMessage == []))
      && (c.userNameFlag || (p.fields.userName == [] && p.fields.password == []))
    case Subscribe(_, fs) => Elements(p.filters) <= Elements(fs)
    case SubAck(_, _) => p.levels == []
    case _ => true
  }

  /** `i` is the last packet before `j` of the kind of `j`. */
  ghost predicate Precedes(ps: seq<ControlPacket>, i: nat, j: nat)
    requires i < j < |ps|
  {
    SameKind(ps[i], ps[j]) && forall k: nat | i < k < j :: !SameKind(ps[k], ps[j])
  }

  ghost predicate First(ps: seq<ControlPacket>, j: nat)
    requires j < |ps|
  {
    forall k: nat | k < j :: !SameKind(ps[k], ps[j])
  }

  ghost predicate NothingLeftOver(ps: seq<ControlPacket>) {
    forall i: nat, j: nat | i < j < |ps| && Precedes(ps, i, j) :: Compatible(ps[i], ps[j])
  }

  predicate Absorbs(mem: Memory, p: ControlPacket) {
    Arrival(mem, p) == Meaning(p)
  }

  ghost predicate FirstAbsorbed(mem: Memory, ps: seq<ControlPacket>) {
    forall j: nat | j < |ps| && First(ps, j) :: Absorbs(mem, ps[j])
  }

  lemma AbsorbsAfter(mem: Memory, p: ControlPacket, q: ControlPacket)
    requires Sendable(p) && Sendable(q) && Absorbs(mem, p)
    ensures Absorbs(Remember(mem, Meaning(p)), q) <==> if SameKind(p, q) then Compatible(p, q) else Absorbs(mem, q)
  {
    match q
    case Connect(c) =>
    case Subscribe(_, fs) =>
      if p.Subscribe? {
        assert Elements(p.filters) + Elements(fs) == Elements(fs) <==> Elements(p.filters) <= Elements(fs);
      }
    case SubAck(_, ls) =>
      if p.SubAck? {
        assert |p.levels + ls| == |p.levels| + |ls|;
      }
    case _ =>
  }

  lemma FirstShift(ps: seq<ControlPacket>, j: nat)
    requires j + 1 < |ps|
    ensures First(ps, j + 1) <==> First(ps[1..], j) && !SameKind(ps[0], ps[j + 1])
    ensures Precedes(ps, 0, j + 1) <==> First(ps[1..], j) && SameKind(ps[0], ps[j + 1])
  {
  }

  lemma PrecedesShift(ps: seq<ControlPacket>, i: nat, j: nat)
    requires i < j < |ps| - 1
    ensures Precedes(ps, i + 1, j + 1) <==> Precedes(ps[1..], i, j)
  {
  }

  predicate AllSendable(ps: seq<ControlPacket>) {
    forall i | 0 <= i < |ps| :: Sendable(ps[i])
  }

  lemma ConditionsTail(mem: Memory, ps: seq<ControlPacket>)
    requires ps != [] && AllSendable(ps) && NothingLeftOver(ps) && FirstAbsorbed(mem, ps)
    ensures Absorbs(mem, ps[0])
    ensures NothingLeftOver(ps[1..]) && FirstAbsorbed(Remember(mem, Meaning(ps[0])), ps[1..])
  {
    var qs, mem' := ps[1..], Remember(mem, Meaning(ps[0]));
    assert First(ps, 0);
    forall j: nat | j < |qs| && First(qs, j) ensures Absorbs(mem', qs[j]) {
      AbsorbsAfter(mem, ps[0], ps[j + 1]);
      FirstShift(ps, j);
    }
    forall i: nat, j: nat | i < j < |qs| && Precedes(qs, i, j) ensures Compatible(qs[i], qs[j]) {
      PrecedesShift(ps, i, j);
    }
  }

  lemma FirstCons(mem: Memory, ps: seq<ControlPacket>, j: nat)
    requires 0 < j < |ps| && Sendable(ps[0]) && Sendable(ps[j]) && Absorbs(mem, ps[0])
    requires FirstAbsorbed(Remember(mem, Meaning(ps[0])), ps[1..])
    ensures First(ps, j) ==> Absorbs(mem, ps[j])
    ensures Precedes(ps, 0, j) ==> Compatible(ps[0], ps[j])
  {
  }

  lemma PairCons(ps: seq<ControlPacket>, i: nat, j: nat)
    requires 0 < i < j < |ps| && NothingLeftOver(ps[1..]) && Precedes(ps, i, j)
    ensures Compatible(ps[i], ps[j])
  {
  }

  lemma ConditionsCons(mem: Memory, ps: seq<ControlPacket>)
    requires ps != [] && AllSendable(ps) && Absorbs(mem, ps[0])
    requires NothingLeftOver(ps[1..]) && FirstAbsorbed(Remember(mem, Meaning(ps[0])), ps[1..])
    ensures NothingLeftOver(ps) && FirstAbsorbed(mem, ps)
  {
    forall j: nat | j < |ps| && First(ps, j) ensures Absorbs(mem, ps[j]) {
      if j > 0 {
        FirstCons(mem, ps, j);
      }
    }
    forall i: nat, j: nat | i < j < |ps| && Precedes(ps, i, j) ensures Compatible(ps[i], ps[j]) {
      if i == 0 {
        FirstCons(mem, ps, j);
      } else {
        PairCons(ps, i, j);
      }
    }
  }

  lemma {:induction false} ArrivalsExact(mem: Memory, ps: seq<ControlPacket>)
    requires AllSendable(ps)
    ensures Arrivals(mem, ps) == Meanings(ps) <==> NothingLeftOver(ps) && FirstAbsorbed(mem, ps)
    decreases |ps|
  {
    if ps != [] {
      var p, q := Meaning(ps[0]), Arrival(mem, ps[0]);
      assert Arrivals(mem, ps)[0] == q && Meanings(ps)[0] == p;
      if Absorbs(mem, ps[0]) {
        assert Arrivals(mem, ps)[1..] == Arrivals(Remember(mem, p), ps[1..]) && Meanings(ps)[1..] == Meanings(ps[1..]);
        ArrivalsExact(Remember(mem, p), ps[1..]);
        if NothingLeftOver(ps) && FirstAbsorbed(mem, ps) {
          ConditionsTail(mem, ps);
        } else if Arrivals(mem, ps) == Meanings(ps) {
          ConditionsCons(mem, ps);
        }
      } else {
        assert First(ps, 0);
      }
    }
  }

  /** A connection gets exactly the packets that were sent to it, however the bytes were cut,
      if and only if no CONNECT, SUBSCRIBE or SUBACK leaves something over for the next one. */
  lemma StreamExact(ps: seq<ControlPacket>, uuid: Str, closes: nat -> bool)
    requires AllSendable(ps) && forall i | 0 <= i < |ps| :: !closes(i)
    ensures Stream(Fresh(uuid), WireAll(ps), 0, closes) == Reading(Meanings(ps), false) <==> NothingLeftOver(ps)
  {
    StreamDelivers(Fresh(uuid), ps, 0, closes);
    ArrivalsExact(Fresh(uuid), ps);
    forall j: nat | j < |ps| && First(ps, j) ensures Absorbs(Fresh(uuid), ps[j]) {
      FreshAbsorbs(ps[j], uuid);
    }
  }

  lemma FreshAbsorbs(p: ControlPacket, uuid: Str)
    requires Sendable(p)
    ensures Absorbs(Fresh(uuid), p)
  {
    match p
    case Connect(c) => NothingUnsent(c);
    case Subscribe(_, fs) => assert {} + Elements(fs) == Elements(fs);
    case SubAck(_, ls) => assert [] + ls == ls;
    case _ =>
  }

  /** Packets that are not collected in a list need no condition. */
  lemma PlainStreamExact(ps: seq<ControlPacket>, uuid: Str, closes: nat -> bool)
    requires AllSendable(ps) && forall i | 0 <= i < |ps| :: !closes(i)
    requires forall i | 0 <= i < |ps| :: ps[i].Publish? || ps[i].ConnAck? || ps[i].PingResp? || ps[i].Disconnect?
    ensures Stream(Fresh(uuid), WireAll(ps), 0, closes) == Reading(Meanings(ps), false)
  {
    StreamExact(ps, uuid, closes);
  }

  // ---------------------------------------------------------------- parsers at work

  lemma AtBeginning(parser: MQTTParser, t: Str)
    requires parser.Valid() && parser.status == InHeader && parser.fixedHeaderParser.status == HeaderStart
    ensures parser.Inside(Decode(parser.start, t), parser.start, t)
  {
  }

  /** What the answers of a parser say about the outcome of the bytes it was given. */
  lemma AnswerMeans(parser: MQTTParser, d: Decoded, mem: Memory, ret: Tribool, ec: ErrorCode, rest: Str)
    requires parser.Settled(d, mem, ret, ec, rest) && (ret == Indeterminate ==> rest == [])
    ensures ret == True ==>
      parser.packet.Some? && d == Done(parser.fixedHeaderParser.header, parser.packet.value, ec, rest)
    ensures ret == Indeterminate ==> d == Incomplete
    ensures ret == False ==> d == Failed(ec, rest)
  {
    if ret == Indeterminate {
      NothingPending(parser);
    }
  }

  function Undecided(n: nat): seq<Tribool> {
    seq(n, _ => Indeterminate)
  }

  /** The answers of a parser that is asked until it has decided. */
  function Answers(n: nat, ret: Tribool): seq<Tribool> {
    if ret == Indeterminate || n == 0 then Undecided(n) else Undecided(n - 1) + [ret]
  }

  lemma NextAnswer(n: nat, ret: Tribool)
    ensures Undecided(n) + [ret] == Answers(n + 1, ret)
  {
  }

  /** Bytes are given to a parser until it has an answer other than undecided. */
  method FeedAll(parser: MQTTParser, t: Str, ghost d: Decoded, ghost mem: Memory)
    returns (n: nat, answers: seq<Tribool>, ret: Tribool, ec: ErrorCode)
    requires parser.Inside(d, mem, t)
    modifies parser.Parts()
    ensures n <= |t| && (ret == Indeterminate ==> n == |t|) && (ret != Indeterminate ==> n > 0)
    ensures answers == Answers(n, ret) && parser.Settled(d, mem, ret, ec, t[n..])
  {
    n, answers, ret, ec := 0, [], Indeterminate, NoError;
    ghost var tail := t;
    while ret == Indeterminate && n < |t|
      invariant n <= |t| && tail == t[n..] && (ret != Indeterminate ==> n > 0)
      invariant answers == Answers(n, ret)
      invariant parser.Settled(d, mem, ret, ec, tail)
    {
      FirstOf(t, n);
      tail := t[n + 1..];
      ret, ec := FeedByte(parser, t[n], tail, d, mem);
      NextAnswer(n, ret);
      answers := answers + [ret];
      n := n + 1;
    }
  }

  /** The outcome of a packet's bytes, none of them left over, is the packet exactly when it is
      sendable. */
  lemma OutcomeExact(p: ControlPacket, uuid: Str)
    requires uuid != [] && Fits16(uuid)
    ensures var d := Decode(Fresh(uuid), Wire(p));
      Sendable(p) <==> d.Done? && d.packet == Meaning(p) && d.ec == NoError && d.rest == []
  {
    assert Wire(p) + [] == Wire(p);
    if Sendable(p) {
      SendableArrives(p, uuid, []);
    } else if Arrives(p, uuid, []) {
      ArrivesSendable(p, uuid);
    }
  }

  /** A new parser is given the bytes of a packet, one by one, until it has an answer. It stays
      undecided until the last byte and then has the packet, exactly when it is sendable. */
  method ReceivePacket(p: ControlPacket, uuid: Str)
    returns (answers: seq<Tribool>, packet: Option<Packet>, ec: ErrorCode)
    requires uuid != [] && Fits16(uuid)
    ensures Sendable(p) <==>
      Wire(p) != [] && answers == Undecided(|Wire(p)| - 1) + [True] && packet == Some(Meaning(p)) && ec == NoError
  {
    var parser := new MQTTParser(uuid);
    var ret;
    ghost var d := Decode(Fresh(uuid), Wire(p));
    AtBeginning(parser, Wire(p));
    var n;
    n, answers, ret, ec := FeedAll(parser, Wire(p), d, Fresh(uuid));
    AnswerMeans(parser, d, Fresh(uuid), ret, ec, Wire(p)[n..]);
    packet := if ret == True then parser.packet else None;
    OutcomeExact(p, uuid);
  }

  /** A new connection reads a stream of serialized packets in whatever chunks: it delivers the
      packets that were sent exactly when none of them leaves something over. */
  method ReceiveStream(ps: seq<ControlPacket>, chunks: seq<Str>, uuid: Str, closes: nat -> bool)
    returns (delivered: seq<Packet>)
    requires AllSendable(ps) && forall i | 0 <= i < |ps| :: !closes(i)
    requires Concat(chunks) == WireAll(ps) && forall c | c in chunks :: |c| <= READ_BUFFER
    ensures delivered == Arrivals(Fresh(uuid), ps)
    ensures delivered == Meanings(ps) <==> NothingLeftOver(ps)
  {
    var connection := new Connection(uuid, closes);
    connection.ReadAll(chunks);
    delivered := connection.delivered;
    StreamDelivers(Fresh(uuid), ps, 0, closes);
    StreamExact(ps, uuid, closes);
  }
}
