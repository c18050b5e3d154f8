/** The fixed header parser and the packet parser that hands each body to its own parser. */
module MqttParsers {
  import opened Common
  import opened Packets
  import opened RemainingLength
  import opened Decoding
  import opened FieldParsers

  datatype HeaderStatus = HeaderStart | HeaderLength | HeaderReady

  class FixedHeaderParser {
    var status: HeaderStatus
    var header: Header
    const decoder: RunlengthDecoder

    ghost predicate Active()
      reads this, decoder
    {
      && status != HeaderReady && decoder.Valid()
      && (status == HeaderStart ==> decoder.count == 0)
      && (status == HeaderLength ==> HeaderError(header.kind, header.flags) == NoError)
    }

    ghost function Outcome(mem: Memory, t: Str): Decoded
      reads this, decoder
    {
      if status == HeaderStart then Decode(mem, t)
      else LengthAndBody(mem, header.kind, header.flags, decoder.Rest(t))
    }

    constructor ()
      ensures Active() && status == HeaderStart && fresh(decoder)
    {
      status, header := HeaderStart, Header(0, 0, 0);
      decoder := new RunlengthDecoder();
    }

    method Reset()
      modifies this, decoder
      ensures Active() && status == HeaderStart
    {
      status := HeaderStart;
      header := Header(0, 0, 0);
      decoder.Reset();
    }

    method Parse(byte: Byte, ghost mem: Memory, ghost tail: Str) returns (ret: Tribool, ec: ErrorCode)
      requires Active()
      modifies this, decoder
      ensures ret == Indeterminate ==>
        ec == NoError && Active() && Outcome(mem, tail) == old(Outcome(mem, [byte] + tail))
      ensures ret == True ==> ec == NoError && old(Outcome(mem, [byte] + tail)) == BodyFrom(mem, header, tail)
      ensures ret == False ==> old(Outcome(mem, [byte] + tail)) == Failed(ec, tail)
    {
      assert ([byte] + tail)[1..] == tail;
      if status == HeaderStart {
        header := header.(kind := byte / 16, flags := byte % 16);
        ec := HeaderError(header.kind, header.flags);
        if ec == NoError {
          status := HeaderLength;
          NothingRead(decoder, tail);
          return Indeterminate, NoError;
        }
        header := Header(0, 0, 0);
        status := HeaderReady;
        return False, ec;
      }
      var code, v, e := decoder.Decode(byte, tail);
      if code == 0 {
        return Indeterminate, NoError;
      } else if code == -1 {
        status := HeaderReady;
        return False, e;
      }
      status := HeaderReady;
      header := header.(length := v);
      return True, NoError;
    }
  }

  lemma NothingRead(d: RunlengthDecoder, t: Str)
    requires d.Valid() && d.count == 0
    ensures d.Rest(t) == LengthFrom(0, t)
  {
  }

  /** Consuming one byte of a body moves the outcome along. */
  lemma InStreamStep(o: BodyOutcome<Packet>, n: nat, b: Byte, tail: Str, h: Header)
    requires n > 0
    requires o.Bad? ==> n - 1 - |Upto(n - 1, tail)| <= o.left <= n - 1
    ensures Upto(n, [b] + tail) == [b] + Upto(n - 1, tail)
    ensures InStream(o, n, [b] + tail, h) == InStream(o, n - 1, tail, h)
  {
  }

  lemma UptoStep(n: nat, b: Byte, tail: Str)
    ensures Upto(n, [b] + tail) == if n > 0 then [b] + Upto(n - 1, tail) else []
  {
  }

  /** A verdict on this very byte ends the outcome before the tail. */
  lemma InStreamEnd(o: BodyOutcome<Packet>, n: nat, b: Byte, tail: Str, h: Header)
    requires o.Bad? ==> n > 0 && o.left == n - 1
    requires o.Whole? ==> n == 1
    requires o.NeedMore? ==> n == 0
    ensures o.Bad? ==> InStream(o, n, [b] + tail, h) == Failed(o.code, tail)
    ensures o.Whole? ==> InStream(o, n, [b] + tail, h) == Done(h, o.value, o.ec, tail)
    ensures o.NeedMore? ==> InStream(o, n, [b] + tail, h) == Failed(ControlPacketLength, tail)
  {
  }

  datatype ParserStatus = InHeader | InConnect | InConnAck | InPublish | InSubscribe | InSubAck | PacketReady

  class MQTTParser {
    var status: ParserStatus
    var packet: Option<Packet>
    const fixedHeaderParser: FixedHeaderParser
    const connectParser: ConnectParser
    const connAckParser: ConnectAckParser
    const publishParser: PublishParser
    const subscribeParser: SubscribeParser
    const subAckParser: SubAckParser
    ghost var start: Memory   // what was remembered when the current packet began

    ghost function Parts(): set<object> {
      {this, fixedHeaderParser, fixedHeaderParser.decoder, connectParser, connectParser.stringParser, connAckParser,
       publishParser, publishParser.stringParser, publishParser.identifierParser, subscribeParser,
       subscribeParser.stringParser, subscribeParser.identifierParser, subAckParser, subAckParser.identifierParser}
    }

    ghost predicate Separate() {
      && connectParser.stringParser != publishParser.stringParser
      && connectParser.stringParser != subscribeParser.stringParser
      && publishParser.stringParser != subscribeParser.stringParser
      && publishParser.identifierParser != subscribeParser.identifierParser
      && publishParser.identifierParser != subAckParser.identifierParser
      && subscribeParser.identifierParser != subAckParser.identifierParser
    }

    ghost function Kept(): Memory
      reads Parts()
    {
      Memory(
        connectParser.packet, publishParser.packet, subscribeParser.Fields(), subAckParser.packet, connectParser.uuid)
    }

    ghost predicate Valid()
      reads Parts()
    {
      && Separate()
      && match status
         case InHeader => fixedHeaderParser.Active() && Kept() == start
         case InConnect => connectParser.Active() && Kept().(connect := start.connect) == start
         case InConnAck => connAckParser.status != ConnAckReady && Kept() == start
         case InPublish => publishParser.Active() && Kept().(publish := start.publish) == start
         case InSubscribe => subscribeParser.Active() && Kept().(subscribe := start.subscribe) == start
         case InSubAck => subAckParser.Active() && Kept().(subAck := start.subAck) == start
         case PacketReady => packet.Some? && Kept() == Remember(start, packet.value)
    }

    /** Where the stream `t` leads from here. */
    ghost function Outcome(t: Str): Decoded
      requires Valid()
      reads Parts()
    {
      var h := fixedHeaderParser.header;
      match status
      case InHeader => fixedHeaderParser.Outcome(start, t)
      case InConnect =>
        InStream(ConnectBody(connectParser.Outcome(Upto(connectParser.length, t))), connectParser.length, t, h)
      case InConnAck => connAckParser.Outcome(h, t)
      case InPublish =>
        InStream(PublishBody(publishParser.Outcome(Upto(publishParser.length, t))), publishParser.length, t, h)
      case InSubscribe =>
        InStream(SubscribeBody(subscribeParser.Outcome(Upto(subscribeParser.length, t))), subscribeParser.length, t, h)
      case PacketReady => Incomplete
      case InSubAck =>
        InStream(SubAckBody(subAckParser.Outcome(Upto(subAckParser.length, t))), subAckParser.length, t, h)
    }

    constructor (uuid: Str)
      ensures Valid() && status == InHeader && start == Fresh(uuid)
      ensures fresh(Parts())
      ensures fixedHeaderParser.status == HeaderStart
    {
      status, packet := InHeader, None;
      fixedHeaderParser := new FixedHeaderParser();
      connectParser := new ConnectParser(uuid);
      connAckParser := new ConnectAckParser();
      publishParser := new PublishParser();
      subscribeParser := new SubscribeParser();
      subAckParser := new SubAckParser();
      start := Fresh(uuid);
      new;
      ghost var kept := Kept();
      assert kept == start;
    }

    /** `consumePacket`: resets the parser for the next packet. */
    method ConsumePacket() returns (p: Packet)
      requires Valid() && status == PacketReady
      modifies Parts()
      ensures p == old(packet).value
      ensures Valid() && status == InHeader && start == Remember(old(start), p)
      ensures fixedHeaderParser.status == HeaderStart
    {
      status := InHeader;
      fixedHeaderParser.Reset();
      p := packet.value;
      packet := None;
      start := Kept();
    }

    /** Inside the packet whose outcome is `o`, with `tail` still to come. */
    ghost predicate Inside(o: Decoded, before: Memory, tail: Str)
      reads Parts()
    {
      Valid() && status != PacketReady && start == before && Outcome(tail) == o
    }

    /** The packet is complete, and `tail` is left over. */
    ghost predicate Complete(o: Decoded, before: Memory, ec: ErrorCode, tail: Str)
      reads Parts()
    {
      && Valid() && status == PacketReady && start == before
      && o == Done(fixedHeaderParser.header, packet.value, ec, tail)
    }

    /** After a byte: still inside, or finished before `tail` with a packet or an error. */
    ghost predicate Settled(o: Decoded, before: Memory, ret: Tribool, ec: ErrorCode, tail: Str)
      reads Parts()
    {
      match ret
      case Indeterminate => ec == NoError && Inside(o, before, tail)
      case True => Complete(o, before, ec, tail)
      case False => o == Failed(ec, tail)
    }

    method Parse(byte: Byte, ghost tail: Str) returns (ret: Tribool, ec: ErrorCode)
      requires Valid() && status != PacketReady
      modifies Parts()
      ensures Settled(old(Outcome([byte] + tail)), old(start), ret, ec, tail)
    {
      ghost var o := Outcome([byte] + tail);
      match status
      case InHeader => ret, ec := ParseHeader(byte, tail, o);
      case InConnect => ret, ec := ParseConnect(byte, tail, o);
      case InConnAck => ret, ec := ParseConnAck(byte, tail, o);
      case InPublish => ret, ec := ParsePublish(byte, tail, o);
      case InSubscribe => ret, ec := ParseSubscribe(byte, tail, o);
      case InSubAck => ret, ec := ParseSubAck(byte, tail, o);
      case PacketReady => ret, ec := False, NoError;
    }

    method ParseHeader(byte: Byte, ghost tail: Str, ghost o: Decoded) returns (ret: Tribool, ec: ErrorCode)
      requires Valid() && status == InHeader
      requires o == fixedHeaderParser.Outcome(start, [byte] + tail)
      modifies Parts()
      ensures Settled(o, old(start), ret, ec, tail)
    {
      ret, ec := fixedHeaderParser.Parse(byte, start, tail);
      if ret == True {
        ret, ec := StartBody(tail, o);
      }
    }

    /** A complete header chooses the body parser, or the packet is complete already. */
    method StartBody(ghost tail: Str, ghost o: Decoded) returns (ret: Tribool, ec: ErrorCode)
      requires Separate() && status == InHeader && Kept() == start
      requires o == BodyFrom(start, fixedHeaderParser.header, tail)
      modifies Parts()
      ensures Settled(o, old(start), ret, ec, tail)
    {
      var h := fixedHeaderParser.header;
      ret, ec := Indeterminate, NoError;
      if h.kind in {CONNECT, CONNACK, PUBLISH, SUBSCRIBE, SUBACK} {
        SelectParser(h, tail, o);
      } else if h.kind == PINGREQ || h.kind == PINGRESP || h.kind == DISCONNECT {
        packet := Some(if h.kind == PINGREQ then PingReq else if h.kind == PINGRESP then PingResp else Disconnect);
        status := PacketReady;
        ret := True;
      } else if 4 <= h.kind <= 7 || h.kind == UNSUBSCRIBE || h.kind == UNSUBACK {
        ret, ec := False, FeatureNotImplemented;
      } else {
        ret, ec := False, InvalidControlPacketType;
      }
    }

    method SelectParser(h: Header, ghost tail: Str, ghost o: Decoded)
      requires Separate() && status == InHeader && Kept() == start && h == fixedHeaderParser.header
      requires h.kind in {CONNECT, CONNACK, PUBLISH, SUBSCRIBE, SUBACK} && o == BodyFrom(start, h, tail)
      modifies Parts()
      ensures Settled(o, old(start), Indeterminate, NoError, tail)
    {
      if h.kind == CONNECT {
        BeginConnect(tail, o);
      } else if h.kind == CONNACK {
        connAckParser.Reset();
        status := InConnAck;
      } else if h.kind == PUBLISH {
        BeginPublish(tail, o);
      } else if h.kind == SUBSCRIBE {
        BeginSubscribe(tail, o);
      } else {
        BeginSubAck(tail, o);
      }
    }

    method BeginConnect(ghost tail: Str, ghost o: Decoded)
      requires Separate() && status == InHeader && Kept() == start
      requires fixedHeaderParser.header.kind == CONNECT && o == BodyFrom(start, fixedHeaderParser.header, tail)
      modifies this, connectParser, connectParser.stringParser
      ensures Settled(o, old(start), Indeterminate, NoError, tail)
    {
      connectParser.Reset(fixedHeaderParser.header.length);
      status := InConnect;
    }

    method BeginPublish(ghost tail: Str, ghost o: Decoded)
      requires Separate() && status == InHeader && Kept() == start
      requires fixedHeaderParser.header.kind == PUBLISH && o == BodyFrom(start, fixedHeaderParser.header, tail)
      modifies this, publishParser, publishParser.stringParser, publishParser.identifierParser
      ensures Settled(o, old(start), Indeterminate, NoError, tail)
    {
      publishParser.Reset(QoSOf(fixedHeaderParser.header), fixedHeaderParser.header.length);
      status := InPublish;
    }

    method BeginSubscribe(ghost tail: Str, ghost o: Decoded)
      requires Separate() && status == InHeader && Kept() == start
      requires var h := fixedHeaderParser.header;
        o == InStream(SubscribeBody(SubscribeFrom(SubscribeId(NoId), start.subscribe, h.length, Upto(h.length, tail))),
                      h.length, tail, h)
      modifies this, subscribeParser, subscribeParser.stringParser, subscribeParser.identifierParser
      ensures Settled(o, old(start), Indeterminate, NoError, tail)
    {
      subscribeParser.Reset(fixedHeaderParser.header.length);
      status := InSubscribe;
    }

    method BeginSubAck(ghost tail: Str, ghost o: Decoded)
      requires Separate() && status == InHeader && Kept() == start
      requires var h := fixedHeaderParser.header;
        o == InStream(
          SubAckBody(SubAckFrom(SubAckId(NoId), start.subAck, h.length, Upto(h.length, tail))), h.length, tail, h)
      modifies this, subAckParser, subAckParser.identifierParser
      ensures Settled(o, old(start), Indeterminate, NoError, tail)
    {
      subAckParser.Reset(fixedHeaderParser.header.length);
      status := InSubAck;
    }

    method ParseConnect(byte: Byte, ghost tail: Str, ghost o: Decoded) returns (ret: Tribool, ec: ErrorCode)
      requires Valid() && status == InConnect && o == Outcome([byte] + tail)
      modifies this, connectParser, connectParser.stringParser
      ensures Settled(o, old(start), ret, ec, tail)
    {
      ret, ec := FeedConnect(byte, tail, o);
      if ret == True {
        packet := Some(Connect(connectParser.packet));
        status := PacketReady;
      }
    }

    method FeedConnect(byte: Byte, ghost tail: Str, ghost o: Decoded) returns (ret: Tribool, ec: ErrorCode)
      requires connectParser.Active()
      requires o == InStream(
        ConnectBody(connectParser.Outcome(Upto(connectParser.length, [byte] + tail))),
        connectParser.length, [byte] + tail, fixedHeaderParser.header)
      modifies connectParser, connectParser.stringParser
      ensures ret == Indeterminate ==>
        && ec == NoError && connectParser.Active()
        && o == InStream(
             ConnectBody(connectParser.Outcome(Upto(connectParser.length, tail))),
             connectParser.length, tail, fixedHeaderParser.header)
      ensures ret == True ==> o == Done(fixedHeaderParser.header, Connect(connectParser.packet), ec, tail)
      ensures ret == False ==> o == Failed(ec, tail)
    {
      ghost var n, h := connectParser.length, fixedHeaderParser.header;
      ghost var body := ConnectBody(connectParser.Outcome(Upto(n, [byte] + tail)));
      UptoStep(n, byte, tail);
      ret, ec := connectParser.Parse(byte, Upto(if n > 0 then n - 1 else 0, tail));
      if ret == Indeterminate {
        InStreamStep(body, n, byte, tail, h);
      } else {
        InStreamEnd(body, n, byte, tail, h);
      }
    }

    method ParseConnAck(byte: Byte, ghost tail: Str, ghost o: Decoded) returns (ret: Tribool, ec: ErrorCode)
      requires Valid() && status == InConnAck && o == Outcome([byte] + tail)
      modifies this, connAckParser
      ensures Settled(o, old(start), ret, ec, tail)
    {
      ret, ec := connAckParser.Parse(byte, fixedHeaderParser.header, tail);
      if ret == True {
        packet := Some(ConnAck(connAckParser.sessionPresent, connAckParser.returnCode));
        status := PacketReady;
      }
    }

    method ParsePublish(byte: Byte, ghost tail: Str, ghost o: Decoded) returns (ret: Tribool, ec: ErrorCode)
      requires Valid() && status == InPublish && o == Outcome([byte] + tail)
      modifies this, publishParser, publishParser.stringParser, publishParser.identifierParser
      ensures Settled(o, old(start), ret, ec, tail)
    {
      ret, ec := FeedPublish(byte, tail, o);
      if ret == True {
        packet := Some(Publish(publishParser.packet.topic, publishParser.packet.id, publishParser.packet.payload));
        status := PacketReady;
      }
    }

    method FeedPublish(byte: Byte, ghost tail: Str, ghost o: Decoded) returns (ret: Tribool, ec: ErrorCode)
      requires publishParser.Active()
      requires o == InStream(
        PublishBody(publishParser.Outcome(Upto(publishParser.length, [byte] + tail))),
        publishParser.length, [byte] + tail, fixedHeaderParser.header)
      modifies publishParser, publishParser.stringParser, publishParser.identifierParser
      ensures ret == Indeterminate ==>
        && ec == NoError && publishParser.Active()
        && o == InStream(
             PublishBody(publishParser.Outcome(Upto(publishParser.length, tail))),
             publishParser.length, tail, fixedHeaderParser.header)
      ensures ret == True ==> o == Done(fixedHeaderParser.header,
        Publish(publishParser.packet.topic, publishParser.packet.id, publishParser.packet.payload), ec, tail)
      ensures ret == False ==> o == Failed(ec, tail)
    {
      ghost var n, h := publishParser.length, fixedHeaderParser.header;
      ghost var body := PublishBody(publishParser.Outcome(Upto(n, [byte] + tail)));
      UptoStep(n, byte, tail);
      ret, ec := publishParser.Parse(byte, Upto(if n > 0 then n - 1 else 0, tail));
      if ret == Indeterminate {
        InStreamStep(body, n, byte, tail, h);
      } else {
        InStreamEnd(body, n, byte, tail, h);
      }
    }

    method ParseSubscribe(byte: Byte, ghost tail: Str, ghost o: Decoded) returns (ret: Tribool, ec: ErrorCode)
      requires Valid() && status == InSubscribe && o == Outcome([byte] + tail)
      modifies this, subscribeParser, subscribeParser.stringParser, subscribeParser.identifierParser
      ensures Settled(o, old(start), ret, ec, tail)
    {
      ret, ec := FeedSubscribe(byte, tail, o);
      if ret == True {
        packet := Some(Subscribe(subscribeParser.id, Elements(subscribeParser.topicFilters)));
        status := PacketReady;
      }
    }

    method FeedSubscribe(byte: Byte, ghost tail: Str, ghost o: Decoded) returns (ret: Tribool, ec: ErrorCode)
      requires subscribeParser.Active()
      requires o == InStream(
        SubscribeBody(subscribeParser.Outcome(Upto(subscribeParser.length, [byte] + tail))),
        subscribeParser.length, [byte] + tail, fixedHeaderParser.header)
      modifies subscribeParser, subscribeParser.stringParser, subscribeParser.identifierParser
      ensures ret == Indeterminate ==>
        && ec == NoError && subscribeParser.Active()
        && o == InStream(
             SubscribeBody(subscribeParser.Outcome(Upto(subscribeParser.length, tail))),
             subscribeParser.length, tail, fixedHeaderParser.header)
      ensures ret == True ==> o == Done(fixedHeaderParser.header,
        Subscribe(subscribeParser.id, Elements(subscribeParser.topicFilters)), ec, tail)
      ensures ret == False ==> o == Failed(ec, tail)
    {
      ghost var n, h := subscribeParser.length, fixedHeaderParser.header;
      ghost var body := SubscribeBody(subscribeParser.Outcome(Upto(n, [byte] + tail)));
      UptoStep(n, byte, tail);
      ret, ec := subscribeParser.Parse(byte, Upto(if n > 0 then n - 1 else 0, tail));
      if ret == Indeterminate {
        InStreamStep(body, n, byte, tail, h);
      } else {
        InStreamEnd(body, n, byte, tail, h);
      }
    }

    method ParseSubAck(byte: Byte, ghost tail: Str, ghost o: Decoded) returns (ret: Tribool, ec: ErrorCode)
      requires Valid() && status == InSubAck && o == Outcome([byte] + tail)
      modifies this, subAckParser, subAckParser.identifierParser
      ensures Settled(o, old(start), ret, ec, tail)
    {
      ret, ec := FeedSubAck(byte, tail, o);
      if ret == True {
        packet := Some(SubAck(subAckParser.packet.id, subAckParser.packet.levels));
        status := PacketReady;
      }
    }

    method FeedSubAck(byte: Byte, ghost tail: Str, ghost o: Decoded) returns (ret: Tribool, ec: ErrorCode)
      requires subAckParser.Active()
      requires o == InStream(
        SubAckBody(subAckParser.Outcome(Upto(subAckParser.length, [byte] + tail))),
        subAckParser.length, [byte] + tail, fixedHeaderParser.header)
      modifies subAckParser, subAckParser.identifierParser
      ensures ret == Indeterminate ==>
        && ec == NoError && subAckParser.Active()
        && o == InStream(
             SubAckBody(subAckParser.Outcome(Upto(subAckParser.length, tail))),
             subAckParser.length, tail, fixedHeaderParser.header)
      ensures ret == True ==> o == Done(fixedHeaderParser.header,
        SubAck(subAckParser.packet.id, subAckParser.packet.levels), ec, tail)
      ensures ret == False ==> o == Failed(ec, tail)
    {
      ghost var n, h := subAckParser.length, fixedHeaderParser.header;
      ghost var body := SubAckBody(subAckParser.Outcome(Upto(n, [byte] + tail)));
      UptoStep(n, byte, tail);
      ret, ec := subAckParser.Parse(byte, Upto(if n > 0 then n - 1 else 0, tail));
      if ret == Indeterminate {
        InStreamStep(body, n, byte, tail, h);
      } else {
        InStreamEnd(body, n, byte, tail, h);
      }
    }
  }
}
