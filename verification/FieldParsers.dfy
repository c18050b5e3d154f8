/** The byte-at-a-time parsers of fields and packet bodies. Every `Parse` takes a ghost `tail`,
    the bytes that will follow: the contract says that the answer given now, or the state left
    behind, agrees with the reference decoder on the byte and that tail. */
module FieldParsers {
  import opened Common
  import opened Topics
  import opened Packets
  import opened Decoding

  class StringParser {
    var status: StringStatus
    var length: nat
    var text: Str

    ghost predicate Valid()
      reads this
    {
      && (status == ReadLength ==> length % 256 == 0)
      && (status == StringData ==> length > 0)
    }

    ghost function Progress(): StringProgress
      reads this
    {
      match status
      case StringStart => NoString
      case ReadLength => LengthMsb(length)
      case _ => Characters(length, text)
    }

    constructor ()
      ensures Valid() && status == StringStart && text == []
    {
      status, length, text := StringStart, 0, [];
    }

    method Reset()
      modifies this
      ensures Valid() && status == StringStart && text == []
    {
      status, length, text := StringStart, 0, [];
    }

    method Parse(byte: Byte, ghost tail: Str) returns (ret: Tribool, ec: ErrorCode)
      requires Valid() && (status == StringStart || status == ReadLength ==> text == [])
      modifies this
      ensures Valid() && (status == StringStart || status == ReadLength ==> text == [])
      ensures ret == False <==> old(status) == StringReady
      ensures ec == if ret == False then StringLengthViolation else NoError
      ensures ret == True ==> status == StringReady && StringFrom(old(Progress()), [byte] + tail) == Some((text, tail))
      ensures ret == Indeterminate ==>
        status != StringReady && StringFrom(old(Progress()), [byte] + tail) == StringFrom(Progress(), tail)
    {
      ret, ec := Indeterminate, NoError;
      match status
      case StringStart =>
        assert ([byte] + tail)[1..] == tail;
        length := Msb(byte);
        status := ReadLength;
      case ReadLength =>
        assert ([byte] + tail)[1..] == tail;
        length := length + byte;
        if length == 0 {
          NothingToRead(text, tail);
          status := StringReady;
          ret := True;
        } else {
          status := StringData;
        }
      case StringData =>
        OneCharacter(length, text, byte, tail);
        text := text + [byte];
        length := length - 1;
        if length == 0 {
          NothingToRead(text, tail);
          status := StringReady;
          ret := True;
        }
      case StringReady =>
        ec := StringLengthViolation;
        ret := False;
    }
  }

  lemma NothingToRead(text: Str, tail: Str)
    ensures StringFrom(Characters(0, text), tail) == Some((text, tail))
  {
    assert tail[..0] == [] && tail[0..] == tail;
    assert text + tail[..0] == text;
  }

  lemma OneCharacter(n: nat, text: Str, b: Byte, tail: Str)
    requires n > 0
    ensures StringFrom(Characters(n, text), [b] + tail) == StringFrom(Characters(n - 1, text + [b]), tail)
  {
    var s := [b] + tail;
    if |s| >= n {
      assert text + s[..n] == text + [b] + tail[..n - 1];
      assert s[n..] == tail[n - 1..];
    }
  }

  datatype StringStatus = StringStart | ReadLength | StringData | StringReady

  datatype IdStatus = IdStart | ReadIdentifier | IdReady

  class PacketIdentifierParser {
    var status: IdStatus
    var packetIdentifier: Id

    ghost predicate Valid()
      reads this
    {
      status == ReadIdentifier ==> packetIdentifier % 256 == 0
    }

    ghost function Progress(): IdProgress
      reads this
    {
      if status == IdStart then NoId else IdMsb(packetIdentifier / 256)
    }

    constructor ()
      ensures Valid() && status == IdStart
    {
      status, packetIdentifier := IdStart, 0;
    }

    method Reset()
      modifies this
      ensures Valid() && status == IdStart
    {
      status := IdStart;
    }

    method Parse(byte: Byte, ghost tail: Str) returns (ret: Tribool, ec: ErrorCode)
      requires Valid()
      modifies this
      ensures Valid()
      ensures ret == False <==> old(status) == IdReady
      ensures ec == if ret == False then PacketIdentifierLengthViolation else NoError
      ensures ret == True ==>
        status == IdReady && IdFrom(old(Progress()), [byte] + tail) == Some((packetIdentifier, tail))
      ensures ret == Indeterminate ==>
        status != IdReady && IdFrom(old(Progress()), [byte] + tail) == IdFrom(Progress(), tail)
    {
      assert ([byte] + tail)[1..] == tail;
      ret, ec := Indeterminate, NoError;
      match status
      case IdStart =>
        packetIdentifier := Msb(byte);
        status := ReadIdentifier;
      case ReadIdentifier =>
        packetIdentifier := packetIdentifier + byte;
        status := IdReady;
        ret := True;
      case IdReady =>
        ec := PacketIdentifierLengthViolation;
        ret := False;
    }
  }

  datatype ConnectStatus = At(stage: ConnectStage) | ConnectReady

  class ConnectParser {
    var status: ConnectStatus
    var packet: ConnectFields
    var ret: Tribool
    var length: nat
    const stringParser: StringParser
    const uuid: Str   // the next identifier the UUID generator hands out

    /** In the middle of a packet, with no verdict yet. */
    ghost predicate Active()
      reads this, stringParser
    {
      && status.At? && ret == Indeterminate
      && stringParser.Valid()
      && (stringParser.status in {StringStart, ReadLength} ==> stringParser.text == [])
      && stringParser.status != StringReady
      && (!ReadsString(status.stage) ==> stringParser.status == StringStart)
    }

    ghost function Outcome(t: Str): BodyOutcome<ConnectFields>
      requires Active() && |t| <= length
      reads this, stringParser
    {
      ConnectFrom(status.stage, stringParser.Progress(), packet, uuid, length, t)
    }

    constructor (uuid: Str)
      ensures packet == NEW_CONNECT && this.uuid == uuid && fresh(stringParser)
    {
      status, packet, ret, length := At(ProtocolName), NEW_CONNECT, Indeterminate, 0;
      stringParser := new StringParser();
      this.uuid := uuid;
    }

    /** The packet keeps the fields of the last CONNECT. */
    method Reset(length: nat)
      modifies this, stringParser
      ensures Active() && this.length == length && packet == old(packet)
      ensures forall t | |t| <= length :: Outcome(t) == ConnectFrom(ProtocolName, NoString, packet, uuid, length, t)
    {
      ret := Indeterminate;
      status := At(ProtocolName);
      this.length := length;
      stringParser.Reset();
    }

    method Fail(code: ErrorCode) returns (ec: ErrorCode)
      modifies this
      ensures ret == False && ec == code && length == old(length) && packet == old(packet)
    {
      ec := code;
      status := ConnectReady;
      ret := False;
    }

    method Goto(stage: ConnectStage)
      modifies this, stringParser
      ensures status == At(stage) && stringParser.Valid() && stringParser.status == StringStart
      ensures stringParser.text == []
      ensures ret == old(ret) && length == old(length) && packet == old(packet)
    {
      status := At(stage);
      stringParser.Reset();
    }

    method Succeed()
      modifies this, stringParser
      ensures ret == True && length == old(length) && packet == old(packet)
    {
      status := ConnectReady;
      ret := True;
      stringParser.Reset();
    }

    method Parse(byte: Byte, ghost tail: Str) returns (verdict: Tribool, ec: ErrorCode)
      requires Active() && |tail| <= if length > 0 then length - 1 else 0
      modifies this, stringParser
      ensures old(length) == 0 ==> verdict == False && ec == ControlPacketLength && old(Outcome([])) == NeedMore
      ensures old(length) > 0 ==> length == old(length) - 1
      ensures old(length) > 0 && verdict == Indeterminate ==>
        ec == NoError && Active() && Outcome(tail) == old(Outcome([byte] + tail))
      ensures old(length) > 0 && verdict == True ==> length == 0 && old(Outcome([byte] + tail)) == Whole(packet, ec)
      ensures old(length) > 0 && verdict == False ==> old(Outcome([byte] + tail)) == Bad(ec, length)
    {
      if length == 0 {
        ret := False;
        return ret, ControlPacketLength;
      }
      ghost var o := Outcome([byte] + tail);
      length := length - 1;
      if ReadsString(status.stage) {
        ec := ParseString(byte, tail, o);
      } else {
        ec := ParseByte(byte, tail, o);
      }
      if ret == True && length != 0 {
        ret := False;
        ec := ControlPacketLength;
      }
      verdict := ret;
    }

    /** The state, or the verdict, agrees with the outcome `o` that was due before the byte. */
    ghost predicate Agrees(o: BodyOutcome<ConnectFields>, ec: ErrorCode, tail: Str)
      reads this, stringParser
    {
      && |tail| <= length
      && (ret == Indeterminate ==> ec == NoError && Active() && Outcome(tail) == o)
      && (ret == True ==> o == Finish(packet, ec, length))
      && (ret == False ==> o == Bad(ec, length))
    }

    method FeedString(byte: Byte, ghost tail: Str, ghost o: BodyOutcome<ConnectFields>) returns (r: Tribool)
      requires Active() && |tail| <= length && ReadsString(status.stage)
      requires o == ConnectFrom(status.stage, stringParser.Progress(), packet, uuid, length + 1, [byte] + tail)
      modifies stringParser
      ensures stringParser.Valid() && r != False
      ensures r == Indeterminate ==>
        && stringParser.status != StringReady
        && (stringParser.status in {StringStart, ReadLength} ==> stringParser.text == [])
        && o == ConnectFrom(status.stage, stringParser.Progress(), packet, uuid, length, tail)
      ensures r == True ==> o == Follow(AfterString(status.stage, packet, stringParser.text, uuid), uuid, length, tail)
    {
      ghost var sp := stringParser.Progress();
      var e;
      r, e := stringParser.Parse(byte, tail);
      if r == Indeterminate {
        SameString(status.stage, sp, stringParser.Progress(), packet, uuid, length, byte, tail);
      } else {
        StringDone(status.stage, sp, packet, uuid, length, byte, tail, stringParser.text);
      }
    }

    method ParseString(byte: Byte, ghost tail: Str, ghost o: BodyOutcome<ConnectFields>) returns (ec: ErrorCode)
      requires Active() && |tail| <= length && ReadsString(status.stage)
      requires o == ConnectFrom(status.stage, stringParser.Progress(), packet, uuid, length + 1, [byte] + tail)
      modifies this, stringParser
      ensures length == old(length) && Agrees(o, ec, tail)
    {
      ec := NoError;
      var r := FeedString(byte, tail, o);
      if r == True {
        ec := CompleteString(tail, o);
      }
    }

    method CompleteString(ghost tail: Str, ghost o: BodyOutcome<ConnectFields>) returns (ec: ErrorCode)
      requires status.At? && ReadsString(status.stage) && ret == Indeterminate && |tail| <= length
      requires o == Follow(AfterString(status.stage, packet, stringParser.text, uuid), uuid, length, tail)
      modifies this, stringParser
      ensures length == old(length) && Agrees(o, ec, tail)
    {
      ghost var move := AfterString(status.stage, packet, stringParser.text, uuid);
      ec := FinishString();
      Arrived(move, ec, tail);
    }

    method ParseByte(byte: Byte, ghost tail: Str, ghost o: BodyOutcome<ConnectFields>) returns (ec: ErrorCode)
      requires Active() && |tail| <= length && !ReadsString(status.stage)
      requires o == ConnectFrom(status.stage, stringParser.Progress(), packet, uuid, length + 1, [byte] + tail)
      modifies this
      ensures length == old(length) && Agrees(o, ec, tail)
    {
      ByteDone(status.stage, stringParser.Progress(), packet, uuid, length, byte, tail);
      ghost var move := AfterByte(status.stage, packet, byte);
      ec := FinishByte(byte);
      Arrived(move, ec, tail);
    }

    /** Where a move has led, what is still to come is what follows the move. */
    lemma Arrived(move: ConnectMove, ec: ErrorCode, tail: Str)
      requires Took(move, ec) && |tail| <= length
      ensures Agrees(Follow(move, uuid, length, tail), ec, tail)
    {
    }

    /** The state is where the move leads. */
    ghost predicate Took(move: ConnectMove, ec: ErrorCode)
      reads this, stringParser
    {
      match move
      case Next(stage, c) =>
        && status == At(stage) && packet == c && ret == Indeterminate && ec == NoError
        && stringParser.Valid() && stringParser.status == StringStart && stringParser.text == []
      case Stop(code) => ret == False && ec == code
      case Complete(c, code) => ret == True && packet == c && ec == code
    }

    /** A stage whose string is complete. */
    method FinishString() returns (ec: ErrorCode)
      requires status.At? && ReadsString(status.stage) && ret == Indeterminate
      modifies this, stringParser
      ensures length == old(length)
      ensures Took(AfterString(old(status.stage), old(packet), old(stringParser.text), uuid), ec)
    {
      ec := NoError;
      match status.stage
      case ProtocolName =>
        if stringParser.text != MQTT {
          ec := Fail(ProtocolNameViolation);
        } else {
          Goto(ProtocolLevel);
        }
      case ClientId =>
        packet := packet.(clientId := stringParser.text);
        if packet.clientId == [] {
          if !packet.cleanSession {
            ec := Fail(CleanSessionNotSetForEmptyClientId);
          }
          packet := packet.(clientId := uuid);
        }
        if packet.willFlag {
          Goto(WillTopic);
        } else if packet.userNameFlag {
          Goto(Username);
        } else {
          Succeed();
        }
      case WillTopic =>
        packet := packet.(willTopic := stringParser.text);
        Goto(WillMessage);
      case WillMessage =>
        packet := packet.(willMessage := stringParser.text);
        if packet.userNameFlag {
          Goto(Username);
        } else {
          Succeed();
        }
      case Username =>
        packet := packet.(userName := stringParser.text);
        Goto(Password);
      case Password =>
        packet := packet.(password := stringParser.text);
        Succeed();
    }

    /** The stages that read a single byte. */
    method FinishByte(byte: Byte) returns (ec: ErrorCode)
      requires Active() && !ReadsString(status.stage)
      modifies this
      ensures length == old(length)
      ensures Took(AfterByte(old(status.stage), old(packet), byte), ec)
    {
      ec := NoError;
      match status.stage
      case ProtocolLevel =>
        if byte != 4 {
          ec := Fail(UnacceptableProtocolLevel);
        } else {
          packet := packet.(protocolLevel := byte);
          status := At(ConnectFlags);
        }
      case ConnectFlags =>
        if Bit(byte, 1) {
          ec := Fail(ConnectFlagViolation);
        } else {
          StoreFlags(byte);
        }
      case KeepAliveMsb =>
        packet := packet.(keepAlive := Msb(byte));
        status := At(KeepAliveLsb);
      case KeepAliveLsb =>
        packet := packet.(keepAlive := Lsb(packet.keepAlive, byte));
        status := At(ClientId);
    }

    method StoreFlags(byte: Byte)
      modifies this
      ensures status == At(KeepAliveMsb) && packet == WithFlags(old(packet), byte)
      ensures ret == old(ret) && length == old(length)
    {
      var wide := (if Bit(byte, 16) then 0x1000 else 0) + (if Bit(byte, 8) then 8 else 0);
      packet := packet.(cleanSession := Bit(byte, 2));
      packet := packet.(willFlag := Bit(byte, 4));
      packet := packet.(willQoS := wide % 256 / 8);
      packet := packet.(willRetain := Bit(byte, 32));
      packet := packet.(passwordFlag := Bit(byte, 64));
      packet := packet.(userNameFlag := Bit(byte, 128));
      status := At(KeepAliveMsb);
    }
  }

  lemma StringDone(stage: ConnectStage, sp: StringProgress, c: ConnectFields, uuid: Str, m: nat, b: Byte,
      r: Str, s: Str)
    requires ReadsString(stage) && |r| <= m
    requires StringFrom(sp, [b] + r) == Some((s, r))
    ensures ConnectFrom(stage, sp, c, uuid, m + 1, [b] + r) == Follow(AfterString(stage, c, s, uuid), uuid, m, r)
  {
  }

  lemma ByteDone(stage: ConnectStage, sp: StringProgress, c: ConnectFields, uuid: Str, m: nat, b: Byte, r: Str)
    requires !ReadsString(stage) && |r| <= m
    ensures ConnectFrom(stage, sp, c, uuid, m + 1, [b] + r) == Follow(AfterByte(stage, c, b), uuid, m, r)
  {
  }

  lemma SameString(stage: ConnectStage, sp: StringProgress, sp': StringProgress, c: ConnectFields, uuid: Str,
      m: nat, b: Byte, r: Str)
    requires ReadsString(stage) && |r| <= m
    requires StringFrom(sp, [b] + r) == StringFrom(sp', r)
    ensures ConnectFrom(stage, sp, c, uuid, m + 1, [b] + r) == ConnectFrom(stage, sp', c, uuid, m, r)
  {
    match StringFrom(sp', r)
    case None =>
    case Some((text, rest)) => assert Left(m + 1, [b] + r, rest) == Left(m, r, rest);
  }

  class PublishParser {
    var status: PublishStatus
    var packet: PublishFields
    var ret: Tribool
    var qos: nat
    var length: nat
    const stringParser: StringParser
    const identifierParser: PacketIdentifierParser

    ghost predicate Active()
      reads this, stringParser, identifierParser
    {
      && status != PublishReady && ret == Indeterminate
      && stringParser.Valid() && identifierParser.Valid()
      && (status == PublishTopicName ==>
            stringParser.status != StringReady && identifierParser.status == IdStart &&
            (stringParser.status in {StringStart, ReadLength} ==> stringParser.text == []))
      && (status == PublishPacketId ==> identifierParser.status != IdReady)
    }

    ghost function Stage(): PublishStage
      reads this, stringParser, identifierParser
    {
      match status
      case PublishTopicName => PublishTopic(stringParser.Progress())
      case PublishPacketId => PublishId(identifierParser.Progress())
      case _ => PublishPayload
    }

    ghost function Outcome(t: Str): BodyOutcome<PublishFields>
      requires Active() && |t| <= length
      reads this, stringParser, identifierParser
    {
      PublishFrom(Stage(), packet, qos, length, t)
    }

    constructor ()
      ensures packet == PublishFields([], 0, []) && fresh(stringParser) && fresh(identifierParser)
    {
      status, packet, ret, qos, length := PublishTopicName, PublishFields([], 0, []), Indeterminate, 0, 0;
      stringParser := new StringParser();
      identifierParser := new PacketIdentifierParser();
    }

    method Reset(qos: nat, length: nat)
      modifies this, stringParser, identifierParser
      ensures Active() && this.length == length && this.qos == qos && packet == old(packet).(payload := [])
      ensures Stage() == PublishTopic(NoString)
    {
      ret := Indeterminate;
      status := PublishTopicName;
      this.qos := qos;
      this.length := length;
      stringParser.Reset();
      identifierParser.Reset();
      packet := packet.(payload := []);
    }

    method Parse(byte: Byte, ghost tail: Str) returns (verdict: Tribool, ec: ErrorCode)
      requires Active() && |tail| <= if length > 0 then length - 1 else 0
      modifies this, stringParser, identifierParser
      ensures old(length) == 0 ==> verdict == False && ec == ControlPacketLength && old(Outcome([])) == NeedMore
      ensures old(length) > 0 ==> length == old(length) - 1
      ensures old(length) > 0 && verdict == Indeterminate ==>
        ec == NoError && Active() && Outcome(tail) == old(Outcome([byte] + tail))
      ensures old(length) > 0 && verdict == True ==>
        length == 0 && ec == NoError && old(Outcome([byte] + tail)) == Whole(packet, NoError)
      ensures old(length) > 0 && verdict == False ==> old(Outcome([byte] + tail)) == Bad(ec, length)
    {
      if length == 0 {
        ret := False;
        return ret, ControlPacketLength;
      }
      ghost var o := Outcome([byte] + tail);
      length := length - 1;
      match status {
        case PublishTopicName => ec := ParseTopic(byte, tail, o);
        case PublishPacketId => ec := ParseId(byte, tail, o);
        case PublishPayloadBytes => ec := ParsePayload(byte, tail, o);
        case PublishReady => ec := PublishProtocolViolation;
      }
      verdict := ret;
    }

    /** The state, or the verdict, agrees with the outcome `o` that was due before the byte. */
    ghost predicate Agrees(o: BodyOutcome<PublishFields>, ec: ErrorCode, tail: Str)
      reads this, stringParser, identifierParser
    {
      && |tail| <= length
      && (ret == Indeterminate ==> ec == NoError && Active() && Outcome(tail) == o)
      && (ret == True ==> ec == NoError && length == 0 && o == Whole(packet, NoError))
      && (ret == False ==> o == Bad(ec, length))
    }

    method FeedTopic(byte: Byte, ghost tail: Str, ghost o: BodyOutcome<PublishFields>) returns (r: Tribool)
      requires Active() && status == PublishTopicName && |tail| <= length
      requires o == PublishFrom(PublishTopic(stringParser.Progress()), packet, qos, length + 1, [byte] + tail)
      modifies stringParser
      ensures stringParser.Valid() && r != False
      ensures r == Indeterminate ==>
        && stringParser.status != StringReady
        && (stringParser.status in {StringStart, ReadLength} ==> stringParser.text == [])
        && o == PublishFrom(PublishTopic(stringParser.Progress()), packet, qos, length, tail)
      ensures r == True ==> o == PublishAfterTopic(packet, stringParser.text, qos, length, tail)
    {
      ghost var sp := stringParser.Progress();
      var e;
      r, e := stringParser.Parse(byte, tail);
      if r == Indeterminate {
        SameTopic(sp, stringParser.Progress(), packet, qos, length, byte, tail);
      } else {
        TopicDone(sp, packet, qos, length, byte, tail, stringParser.text);
      }
    }

    method ParseTopic(byte: Byte, ghost tail: Str, ghost o: BodyOutcome<PublishFields>) returns (ec: ErrorCode)
      requires Active() && status == PublishTopicName && |tail| <= length
      requires o == PublishFrom(PublishTopic(stringParser.Progress()), packet, qos, length + 1, [byte] + tail)
      modifies this, stringParser
      ensures length == old(length) && Agrees(o, ec, tail)
    {
      ec := NoError;
      var r := FeedTopic(byte, tail, o);
      if r == True {
        ec := CompleteTopic(tail, o);
      }
    }

    method CompleteTopic(ghost tail: Str, ghost o: BodyOutcome<PublishFields>) returns (ec: ErrorCode)
      requires ret == Indeterminate && |tail| <= length
      requires o == PublishAfterTopic(packet, stringParser.text, qos, length, tail)
      requires stringParser.Valid() && identifierParser.Valid() && identifierParser.status == IdStart
      modifies this, stringParser
      ensures length == old(length) && Agrees(o, ec, tail)
    {
      ec := NoError;
      packet := packet.(topic := stringParser.text);
      var ok := ValidateName(packet.topic);
      if !ok {
        ec := InvalidWildcardInTopic;
        status := PublishReady;
        ret := False;
      } else {
        status := if qos > 0 then PublishPacketId else PublishPayloadBytes;
        stringParser.Reset();
      }
    }

    method ParseId(byte: Byte, ghost tail: Str, ghost o: BodyOutcome<PublishFields>) returns (ec: ErrorCode)
      requires Active() && status == PublishPacketId && |tail| <= length
      requires o == PublishFrom(PublishId(identifierParser.Progress()), packet, qos, length + 1, [byte] + tail)
      modifies this, identifierParser
      ensures length == old(length) && Agrees(o, ec, tail)
    {
      ec := NoError;
      var r, e := identifierParser.Parse(byte, tail);
      if r == Indeterminate {
        SameLeft(length, byte, tail);
        return;
      }
      assert Left(length + 1, [byte] + tail, tail) == length;
      packet := packet.(id := identifierParser.packetIdentifier);
      if length > 0 {
        status := PublishPayloadBytes;
      } else {
        status := PublishReady;
        ret := True;
      }
    }

    method ParsePayload(byte: Byte, ghost tail: Str, ghost o: BodyOutcome<PublishFields>) returns (ec: ErrorCode)
      requires Active() && status == PublishPayloadBytes && |tail| <= length
      requires o == PublishFrom(PublishPayload, packet, qos, length + 1, [byte] + tail)
      modifies this
      ensures length == old(length) && Agrees(o, ec, tail)
    {
      ec := NoError;
      ghost var before := packet.payload;
      packet := packet.(payload := packet.payload + [byte]);
      assert before + ([byte] + tail) == packet.payload + tail;
      if length == 0 {
        assert packet.payload + tail == packet.payload;
        status := PublishReady;
        ret := True;
      }
    }
  }

  lemma TopicDone(sp: StringProgress, p: PublishFields, qos: nat, m: nat, b: Byte, r: Str, s: Str)
    requires |r| <= m && StringFrom(sp, [b] + r) == Some((s, r))
    ensures PublishFrom(PublishTopic(sp), p, qos, m + 1, [b] + r) == PublishAfterTopic(p, s, qos, m, r)
  {
  }

  lemma SameTopic(sp: StringProgress, sp': StringProgress, p: PublishFields, qos: nat, m: nat, b: Byte, r: Str)
    requires |r| <= m && StringFrom(sp, [b] + r) == StringFrom(sp', r)
    ensures PublishFrom(PublishTopic(sp), p, qos, m + 1, [b] + r) == PublishFrom(PublishTopic(sp'), p, qos, m, r)
  {
    SameLeft(m, b, r);
  }

  lemma FilterDone(sp: StringProgress, p: SubscribeFields, m: nat, b: Byte, r: Str, s: Str)
    requires |r| <= m && StringFrom(sp, [b] + r) == Some((s, r))
    ensures SubscribeFrom(SubscribeFilter(sp), p, m + 1, [b] + r) == SubscribeFrom(SubscribeQoS(s), p, m, r)
  {
  }

  lemma SameFilter(sp: StringProgress, sp': StringProgress, p: SubscribeFields, m: nat, b: Byte, r: Str)
    requires |r| <= m && StringFrom(sp, [b] + r) == StringFrom(sp', r)
    ensures SubscribeFrom(SubscribeFilter(sp), p, m + 1, [b] + r) == SubscribeFrom(SubscribeFilter(sp'), p, m, r)
  {
    match StringFrom(sp', r)
    case None =>
    case Some((text, rest)) => assert Left(m + 1, [b] + r, rest) == Left(m, r, rest);
  }

  lemma SameLeft(m: nat, b: Byte, tail: Str)
    requires |tail| <= m
    ensures forall r: Str | |r| <= |tail| :: Left(m + 1, [b] + tail, r) == Left(m, tail, r)
  {
  }

  datatype PublishStatus = PublishTopicName | PublishPacketId | PublishPayloadBytes | PublishReady

  datatype SubscribeStatus = SubscribePacketId | SubscribeTopicFilter | SubscribeLevel | SubscribeReady

  class SubscribeParser {
    var status: SubscribeStatus
    var id: Id
    var topicFilters: seq<TopicFilter>
    var ret: Tribool
    var length: nat
    var filter: Str
    const identifierParser: PacketIdentifierParser
    const stringParser: StringParser

    ghost predicate Active()
      reads this, stringParser, identifierParser
    {
      && status != SubscribeReady && ret == Indeterminate
      && stringParser.Valid() && identifierParser.Valid()
      && (status == SubscribePacketId ==> identifierParser.status != IdReady)
      && (status == SubscribeTopicFilter ==>
            stringParser.status != StringReady &&
            (stringParser.status in {StringStart, ReadLength} ==> stringParser.text == []))
      && (status == SubscribeLevel ==> stringParser.status == StringStart && stringParser.text == [])
    }

    ghost function Stage(): SubscribeStage
      reads this, stringParser, identifierParser
    {
      match status
      case SubscribePacketId => SubscribeId(identifierParser.Progress())
      case SubscribeTopicFilter => SubscribeFilter(stringParser.Progress())
      case _ => SubscribeQoS(filter)
    }

    ghost function Fields(): SubscribeFields
      reads this
    {
      SubscribeFields(id, Elements(topicFilters))
    }

    ghost function Outcome(t: Str): BodyOutcome<SubscribeFields>
      requires Active() && |t| <= length
      reads this, stringParser, identifierParser
    {
      SubscribeFrom(Stage(), Fields(), length, t)
    }

    constructor ()
      ensures Fields() == SubscribeFields(0, {}) && fresh(stringParser) && fresh(identifierParser)
    {
      status, id, topicFilters, ret, length, filter := SubscribePacketId, 0, [], Indeterminate, 0, [];
      identifierParser := new PacketIdentifierParser();
      stringParser := new StringParser();
    }

    /** The filters collected for earlier packets stay in the list. */
    method Reset(length: nat)
      modifies this, stringParser, identifierParser
      ensures Active() && this.length == length && Fields() == old(Fields()) && Stage() == SubscribeId(NoId)
    {
      ret := Indeterminate;
      status := SubscribePacketId;
      this.length := length;
      identifierParser.Reset();
      stringParser.Reset();
    }

    method Parse(byte: Byte, ghost tail: Str) returns (verdict: Tribool, ec: ErrorCode)
      requires Active() && |tail| <= if length > 0 then length - 1 else 0
      modifies this, stringParser, identifierParser
      ensures old(length) == 0 ==> verdict == False && ec == ControlPacketLength && old(Outcome([])) == NeedMore
      ensures old(length) > 0 ==> length == old(length) - 1
      ensures old(length) > 0 && verdict == Indeterminate ==>
        ec == NoError && Active() && Outcome(tail) == old(Outcome([byte] + tail))
      ensures old(length) > 0 && verdict == True ==>
        length == 0 && ec == NoError && old(Outcome([byte] + tail)) == Whole(Fields(), NoError)
      ensures old(length) > 0 && verdict == False ==> old(Outcome([byte] + tail)) == Bad(ec, length)
    {
      if length == 0 {
        ret := False;
        return ret, ControlPacketLength;
      }
      ghost var o := Outcome([byte] + tail);
      length := length - 1;
      match status {
        case SubscribePacketId => ec := ParseId(byte, tail, o);
        case SubscribeTopicFilter => ec := ParseFilter(byte, tail, o);
        case SubscribeLevel => ec := ParseLevel(byte, tail, o);
        case SubscribeReady => ec := SubscribeProtocolViolation;
      }
      verdict := ret;
    }

    /** The state, or the verdict, agrees with the outcome `o` that was due before the byte. */
    ghost predicate Agrees(o: BodyOutcome<SubscribeFields>, ec: ErrorCode, tail: Str)
      reads this, stringParser, identifierParser
    {
      && |tail| <= length
      && (ret == Indeterminate ==> ec == NoError && Active() && Outcome(tail) == o)
      && (ret == True ==> ec == NoError && length == 0 && o == Whole(Fields(), NoError))
      && (ret == False ==> o == Bad(ec, length))
    }

    method ParseId(byte: Byte, ghost tail: Str, ghost o: BodyOutcome<SubscribeFields>) returns (ec: ErrorCode)
      requires Active() && status == SubscribePacketId && |tail| <= length
      requires o == SubscribeFrom(SubscribeId(identifierParser.Progress()), Fields(), length + 1, [byte] + tail)
      modifies this, identifierParser, stringParser
      ensures length == old(length) && Agrees(o, ec, tail)
    {
      ec := NoError;
      var r, e := identifierParser.Parse(byte, tail);
      if r == Indeterminate {
        SameLeft(length, byte, tail);
        return;
      }
      assert Left(length + 1, [byte] + tail, tail) == length;
      id := identifierParser.packetIdentifier;
      status := SubscribeTopicFilter;
      stringParser.Reset();
    }

    method FeedFilter(byte: Byte, ghost tail: Str, ghost o: BodyOutcome<SubscribeFields>) returns (r: Tribool)
      requires Active() && status == SubscribeTopicFilter && |tail| <= length
      requires o == SubscribeFrom(SubscribeFilter(stringParser.Progress()), Fields(), length + 1, [byte] + tail)
      modifies stringParser
      ensures stringParser.Valid() && r != False
      ensures r == Indeterminate ==>
        && stringParser.status != StringReady
        && (stringParser.status in {StringStart, ReadLength} ==> stringParser.text == [])
        && o == SubscribeFrom(SubscribeFilter(stringParser.Progress()), Fields(), length, tail)
      ensures r == True ==> o == SubscribeFrom(SubscribeQoS(stringParser.text), Fields(), length, tail)
    {
      ghost var sp := stringParser.Progress();
      var e;
      r, e := stringParser.Parse(byte, tail);
      if r == Indeterminate {
        SameFilter(sp, stringParser.Progress(), Fields(), length, byte, tail);
      } else {
        FilterDone(sp, Fields(), length, byte, tail, stringParser.text);
      }
    }

    method ParseFilter(byte: Byte, ghost tail: Str, ghost o: BodyOutcome<SubscribeFields>) returns (ec: ErrorCode)
      requires Active() && status == SubscribeTopicFilter && |tail| <= length
      requires o == SubscribeFrom(SubscribeFilter(stringParser.Progress()), Fields(), length + 1, [byte] + tail)
      modifies this, stringParser
      ensures length == old(length) && Agrees(o, ec, tail)
    {
      ec := NoError;
      var r := FeedFilter(byte, tail, o);
      if r == True {
        filter := stringParser.text;
        status := SubscribeLevel;
        stringParser.Reset();
      }
    }

    method ParseLevel(byte: Byte, ghost tail: Str, ghost o: BodyOutcome<SubscribeFields>) returns (ec: ErrorCode)
      requires Active() && status == SubscribeLevel && |tail| <= length
      requires o == SubscribeFrom(SubscribeQoS(filter), Fields(), length + 1, [byte] + tail)
      modifies this
      ensures length == old(length) && Agrees(o, ec, tail)
    {
      assert ([byte] + tail)[1..] == tail;
      ec := NoError;
      if byte > 2 {
        ec := InvalidQoSLevel;
        status := SubscribeReady;
        ret := False;
        return;
      }
      var ok := ValidateFilter(filter);
      if !ok {
        ec := InvalidTopicFilter;
        status := SubscribeReady;
        ret := False;
        return;
      }
      ghost var before := topicFilters;
      topicFilters := topicFilters + [TopicFilter(filter, byte)];
      assert Elements(topicFilters) == Elements(before) + {TopicFilter(filter, byte)};
      if length > 0 {
        status := SubscribeTopicFilter;
      } else {
        topicFilters := SortFilters(topicFilters);
        topicFilters := UniqueFilters(topicFilters);
        status := SubscribeReady;
        ret := True;
      }
    }
  }

  /** `std::sort` with an order that is no strict weak order: all that can be relied on is that
      the result is a rearrangement. */
  method SortFilters(filters: seq<TopicFilter>) returns (sorted: seq<TopicFilter>)
    ensures multiset(sorted) == multiset(filters)
    ensures Elements(sorted) == Elements(filters)
  {
    sorted := [];
    for i := 0 to |filters|
      invariant multiset(sorted) == multiset(filters[..i])
    {
      var k := 0;
      while k < |sorted| && !FilterLess(filters[i], sorted[k])
        invariant 0 <= k <= |sorted|
      {
        k := k + 1;
      }
      assert filters[..i + 1] == filters[..i] + [filters[i]];
      assert sorted == sorted[..k] + sorted[k..];
      sorted := sorted[..k] + [filters[i]] + sorted[k..];
    }
    assert filters[..|filters|] == filters;
    forall f ensures f in sorted <==> f in filters {
      assert f in multiset(sorted) <==> f in multiset(filters);
    }
  }

  /** `std::unique`: drops what equals its predecessor; no filter disappears altogether. */
  method UniqueFilters(filters: seq<TopicFilter>) returns (kept: seq<TopicFilter>)
    ensures Elements(kept) == Elements(filters)
    ensures forall i | 0 < i < |kept| :: kept[i - 1] != kept[i]
  {
    kept := [];
    for i := 0 to |filters|
      invariant forall f :: f in kept <==> f in filters[..i]
      invariant forall k | 0 < k < |kept| :: kept[k - 1] != kept[k]
      invariant i > 0 ==> kept != [] && kept[|kept| - 1] == filters[i - 1]
    {
      assert filters[..i + 1] == filters[..i] + [filters[i]];
      if kept == [] || kept[|kept| - 1] != filters[i] {
        kept := kept + [filters[i]];
      }
    }
    assert filters[..|filters|] == filters;
  }

  datatype SubAckStatus = SubAckPacketId | SubAckLevel | SubAckReady

  class SubAckParser {
    var status: SubAckStatus
    var packet: SubAckFields
    var ret: Tribool
    var length: nat
    const identifierParser: PacketIdentifierParser

    ghost predicate Active()
      reads this, identifierParser
    {
      && status != SubAckReady && ret == Indeterminate && identifierParser.Valid()
      && (status == SubAckPacketId ==> identifierParser.status != IdReady)
    }

    ghost function Stage(): SubAckStage
      reads this, identifierParser
    {
      if status == SubAckPacketId then SubAckId(identifierParser.Progress()) else SubAckQoS
    }

    ghost function Outcome(t: Str): BodyOutcome<SubAckFields>
      requires Active() && |t| <= length
      reads this, identifierParser
    {
      SubAckFrom(Stage(), packet, length, t)
    }

    constructor ()
      ensures packet == SubAckFields(0, []) && fresh(identifierParser)
    {
      status, packet, ret, length := SubAckPacketId, SubAckFields(0, []), Indeterminate, 0;
      identifierParser := new PacketIdentifierParser();
    }

    /** The levels collected for earlier packets stay in the list. */
    method Reset(length: nat)
      modifies this, identifierParser
      ensures Active() && this.length == length && packet == old(packet) && Stage() == SubAckId(NoId)
    {
      ret := Indeterminate;
      status := SubAckPacketId;
      this.length := length;
      identifierParser.Reset();
    }

    method Parse(byte: Byte, ghost tail: Str) returns (verdict: Tribool, ec: ErrorCode)
      requires Active() && |tail| <= if length > 0 then length - 1 else 0
      modifies this, identifierParser
      ensures old(length) == 0 ==> verdict == False && ec == ControlPacketLength && old(Outcome([])) == NeedMore
      ensures old(length) > 0 ==> length == old(length) - 1
      ensures old(length) > 0 && verdict == Indeterminate ==>
        ec == NoError && Active() && Outcome(tail) == old(Outcome([byte] + tail))
      ensures old(length) > 0 && verdict == True ==>
        length == 0 && ec == NoError && old(Outcome([byte] + tail)) == Whole(packet, NoError)
      ensures old(length) > 0 && verdict == False ==> old(Outcome([byte] + tail)) == Bad(ec, length)
    {
      if length == 0 {
        ret := False;
        return ret, ControlPacketLength;
      }
      assert ([byte] + tail)[1..] == tail;
      length := length - 1;
      ec := NoError;
      match status {
        case SubAckPacketId =>
          var r, e := identifierParser.Parse(byte, tail);
          if r == True {
            packet := packet.(id := identifierParser.packetIdentifier);
            if length > 0 {
              status := SubAckLevel;
            } else {
              status := SubAckReady;
              ret := True;
            }
          }
        case SubAckLevel =>
          if byte > 2 {
            status := SubAckReady;
            ec := InvalidQoSLevel;
            ret := False;
          } else {
            packet := packet.(levels := packet.levels + [byte]);
            if length == 0 {
              status := SubAckReady;
              ret := True;
            }
          }
        case SubAckReady =>
          ec := PublishProtocolViolation;
      }
      verdict := ret;
    }
  }

  datatype ConnAckStatus = ConnAckFlag | ConnAckCode | ConnAckReady

  class ConnectAckParser {
    var status: ConnAckStatus
    var sessionPresent: nat
    var returnCode: nat

    ghost function Outcome(header: Header, t: Str): Decoded
      requires status != ConnAckReady
      reads this
    {
      ConnAckFrom(header, if status == ConnAckFlag then AcknowledgeFlag else ReturnCode(sessionPresent), t)
    }

    constructor ()
    {
      status, sessionPresent, returnCode := ConnAckFlag, 0, 0;
    }

    method Reset()
      modifies this
      ensures status == ConnAckFlag
    {
      status := ConnAckFlag;
    }

    method Parse(byte: Byte, ghost header: Header, ghost tail: Str) returns (ret: Tribool, ec: ErrorCode)
      requires status != ConnAckReady
      modifies this
      ensures ret == Indeterminate ==>
        ec == NoError && status != ConnAckReady && Outcome(header, tail) == old(Outcome(header, [byte] + tail))
      ensures ret == True ==>
        && ec == NoError
        && old(Outcome(header, [byte] + tail)) == Done(header, ConnAck(sessionPresent, returnCode), NoError, tail)
      ensures ret == False ==> old(Outcome(header, [byte] + tail)) == Failed(ec, tail)
    {
      assert ([byte] + tail)[1..] == tail;
      ret, ec := Indeterminate, NoError;
      match status
      case ConnAckFlag =>
        if byte / 2 != 0 {
          ec := ConnectAcknowledgeFlagViolation;
          status := ConnAckReady;
          ret := False;
        } else {
          sessionPresent := byte % 2;
          status := ConnAckCode;
        }
      case ConnAckCode =>
        if byte > 5 {
          ec := InvalidConnectReturnCode;
          status := ConnAckReady;
          ret := False;
        } else {
          returnCode := byte;
          status := ConnAckReady;
          ret := True;
        }
      case ConnAckReady =>
        ec := PacketIdentifierLengthViolation;
        ret := False;
    }
  }
}
