/** Reference decoders: each reads a whole packet body in one pass, field by field. They fix
    what the byte-at-a-time parsers must deliver, including which error they report and how
    much they have consumed when they report it. */
module Decoding {
  import opened Common
  import opened Topics
  import opened Packets
  import opened RemainingLength

  /** `left` is the number of declared bytes not yet consumed. */
  datatype BodyOutcome<+P> =
    | Whole(value: P, ec: ErrorCode)
    | Bad(code: ErrorCode, left: nat)
    | NeedMore

  /** The outcome of decoding at the start of a byte stream. */
  datatype Decoded =
    | Incomplete
    | Failed(code: ErrorCode, rest: Str)
    | Done(header: Header, packet: Packet, ec: ErrorCode, rest: Str)

  /** A packet is only finished when the declared length is used up. */
  function Finish<P>(p: P, ec: ErrorCode, left: nat): BodyOutcome<P> {
    if left == 0 then Whole(p, ec) else Bad(ControlPacketLength, left)
  }

  // ---------------------------------------------------------------- fields

  datatype StringProgress =
    | NoString
    | LengthMsb(length: nat)
    | Characters(length: nat, text: Str)

  /** Completes a length-prefixed string: the string and what follows it. */
  function StringFrom(p: StringProgress, t: Str): (r: Option<(Str, Str)>)
    ensures r.Some? ==> |r.value.1| <= |t|
    decreases match p case NoString => 2 case LengthMsb(_) => 1 case _ => 0
  {
    match p
    case NoString => if t == [] then None else StringFrom(LengthMsb(Msb(t[0])), t[1..])
    case LengthMsb(msb) => if t == [] then None else StringFrom(Characters(msb + t[0], []), t[1..])
    case Characters(n, text) => if |t| < n then None else Some((text + t[..n], t[n..]))
  }

  datatype IdProgress = NoId | IdMsb(msb: Byte)

  function IdFrom(p: IdProgress, t: Str): (r: Option<(Id, Str)>)
    ensures r.Some? ==> |r.value.1| < |t|
    decreases match p case NoId => 1 case _ => 0
  {
    match p
    case NoId => if t == [] then None else IdFrom(IdMsb(t[0]), t[1..])
    case IdMsb(msb) => if t == [] then None else Some((Msb(msb) + t[0], t[1..]))
  }

  /** Declared bytes left once only `r` remains of the available bytes `t`. */
  function Left(n: nat, t: Str, r: Str): nat
    requires |r| <= |t| <= n
  {
    n - (|t| - |r|)
  }

  // ---------------------------------------------------------------- CONNECT

  datatype ConnectStage =
    | ProtocolName | ProtocolLevel | ConnectFlags | KeepAliveMsb | KeepAliveLsb
    | ClientId | WillTopic | WillMessage | Username | Password

  function Rank(stage: ConnectStage): nat {
    match stage
    case ProtocolName => 9 case ProtocolLevel => 8 case ConnectFlags => 7
    case KeepAliveMsb => 6 case KeepAliveLsb => 5 case ClientId => 4
    case WillTopic => 3 case WillMessage => 2 case Username => 1 case Password => 0
  }

  const MQTT: Str := [77, 81, 84, 84]

  function Bit(b: Byte, weight: nat): bool
    requires weight > 0
  {
    (b / weight) % 2 == 1
  }

  /** The will QoS is read from bit 3 alone: bit 4 is shifted out of the byte. */
  function WithFlags(c: ConnectFields, b: Byte): ConnectFields {
    c.(cleanSession := Bit(b, 2), willFlag := Bit(b, 4), willQoS := if Bit(b, 8) then 1 else 0,
       willRetain := Bit(b, 32), passwordFlag := Bit(b, 64), userNameFlag := Bit(b, 128))
  }

  /** `keepAlive |= byte`, its lower half being zero. */
  function Lsb(keepAlive: Id, b: Byte): Id {
    keepAlive / 256 * 256 + b
  }

  /** Where a completed field leads. */
  datatype ConnectMove =
    | Next(stage: ConnectStage, fields: ConnectFields)
    | Stop(code: ErrorCode)
    | Complete(fields: ConnectFields, ec: ErrorCode)

  predicate ReadsString(stage: ConnectStage) {
    stage in {ProtocolName, ClientId, WillTopic, WillMessage, Username, Password}
  }

  function AfterByte(stage: ConnectStage, c: ConnectFields, b: Byte): (move: ConnectMove)
    requires !ReadsString(stage)
    ensures !move.Complete? && (move.Next? ==> Rank(move.stage) < Rank(stage))
  {
    match stage
    case ProtocolLevel => if b != 4 then Stop(UnacceptableProtocolLevel) else Next(ConnectFlags, c.(protocolLevel := b))
    case ConnectFlags => if Bit(b, 1) then Stop(ConnectFlagViolation) else Next(KeepAliveMsb, WithFlags(c, b))
    case KeepAliveMsb => Next(KeepAliveLsb, c.(keepAlive := Msb(b)))
    case KeepAliveLsb => Next(ClientId, c.(keepAlive := Lsb(c.keepAlive, b)))
  }

  /** An empty client id is replaced by `uuid`; without a clean session that is an error, yet a
      packet that ends there is still delivered. */
  function AfterString(stage: ConnectStage, c: ConnectFields, s: Str, uuid: Str): (move: ConnectMove)
    requires ReadsString(stage)
    ensures move.Next? ==> Rank(move.stage) < Rank(stage)
  {
    match stage
    case ProtocolName => if s != MQTT then Stop(ProtocolNameViolation) else Next(ProtocolLevel, c)
    case ClientId =>
      var c' := c.(clientId := if s == [] then uuid else s);
      if s == [] && !c.cleanSession then
        if c.willFlag || c.userNameFlag then Stop(CleanSessionNotSetForEmptyClientId)
        else Complete(c', CleanSessionNotSetForEmptyClientId)
      else if c.willFlag then Next(WillTopic, c')
      else if c.userNameFlag then Next(Username, c')
      else Complete(c', NoError)
    case WillTopic => Next(WillMessage, c.(willTopic := s))
    case WillMessage =>
      var c' := c.(willMessage := s);
      if c.userNameFlag then Next(Username, c') else Complete(c', NoError)
    case Username => Next(Password, c.(userName := s))
    case Password => Complete(c.(password := s), NoError)
  }

  /** Decodes the rest of a CONNECT body of which `n` bytes are declared and `t` available. */
  function ConnectFrom(stage: ConnectStage, sp: StringProgress, c: ConnectFields, uuid: Str, n: nat, t: Str)
    : (o: BodyOutcome<ConnectFields>)
    requires |t| <= n
    ensures o.Bad? ==> n - |t| <= o.left <= n
    ensures o.Whole? ==> |t| == n
    decreases Rank(stage), 0
  {
    if ReadsString(stage) then
      match StringFrom(sp, t)
      case None => NeedMore
      case Some((s, r)) => Follow(AfterString(stage, c, s, uuid), uuid, Left(n, t, r), r)
    else if t == [] then NeedMore
    else Follow(AfterByte(stage, c, t[0]), uuid, n - 1, t[1..])
  }

  function Follow(move: ConnectMove, uuid: Str, n: nat, t: Str): (o: BodyOutcome<ConnectFields>)
    requires |t| <= n
    ensures o.Bad? ==> n - |t| <= o.left <= n
    ensures o.Whole? ==> |t| == n
    decreases if move.Next? then Rank(move.stage) else -1, 1
  {
    match move
    case Next(stage, c) => ConnectFrom(stage, NoString, c, uuid, n, t)
    case Stop(code) => Bad(code, n)
    case Complete(c, ec) => Finish(c, ec, n)
  }

  // ---------------------------------------------------------------- PUBLISH

  datatype PublishStage = PublishTopic(sp: StringProgress) | PublishId(ip: IdProgress) | PublishPayload

  datatype PublishFields = PublishFields(topic: Str, id: Id, payload: Str)

  function PublishFrom(stage: PublishStage, p: PublishFields, qos: nat, n: nat, t: Str): (o: BodyOutcome<PublishFields>)
    requires |t| <= n
    ensures o.Bad? ==> n - |t| <= o.left <= n
    ensures o.Whole? ==> |t| == n
    decreases match stage case PublishTopic(_) => 3 case PublishId(_) => 1 case PublishPayload => 0
  {
    match stage
    case PublishTopic(sp) =>
      (match StringFrom(sp, t)
       case None => NeedMore
       case Some((s, r)) =>
         PublishAfterTopic(p, s, qos, Left(n, t, r), r))
    case PublishId(ip) =>
      (match IdFrom(ip, t)
       case None => NeedMore
       case Some((id, r)) =>
         var m := Left(n, t, r);
         if m > 0 then PublishFrom(PublishPayload, p.(id := id), qos, m, r)
         else Whole(p.(id := id), NoError))
    case PublishPayload =>
      if n == 0 || |t| < n then NeedMore else Whole(p.(payload := p.payload + t), NoError)
  }

  function PublishAfterTopic(p: PublishFields, topic: Str, qos: nat, n: nat, t: Str): (o: BodyOutcome<PublishFields>)
    requires |t| <= n
    ensures o.Bad? ==> n - |t| <= o.left <= n
    ensures o.Whole? ==> |t| == n
    decreases 2
  {
    if !WildcardFree(topic) then Bad(InvalidWildcardInTopic, n)
    else PublishFrom(if qos > 0 then PublishId(NoId) else PublishPayload, p.(topic := topic), qos, n, t)
  }

  // ---------------------------------------------------------------- SUBSCRIBE

  datatype SubscribeStage =
    | SubscribeId(ip: IdProgress)
    | SubscribeFilter(sp: StringProgress)
    | SubscribeQoS(filter: Str)

  datatype SubscribeFields = SubscribeFields(id: Id, filters: set<TopicFilter>)

  function SubscribeFrom(stage: SubscribeStage, p: SubscribeFields, n: nat, t: Str): (o: BodyOutcome<SubscribeFields>)
    requires |t| <= n
    ensures o.Bad? ==> n - |t| <= o.left <= n
    ensures o.Whole? ==> |t| == n
    decreases |t|, match stage case SubscribeId(_) => 2 case SubscribeFilter(_) => 1 case SubscribeQoS(_) => 0
  {
    match stage
    case SubscribeId(ip) =>
      (match IdFrom(ip, t)
       case None => NeedMore
       case Some((id, r)) => SubscribeFrom(SubscribeFilter(NoString), p.(id := id), Left(n, t, r), r))
    case SubscribeFilter(sp) =>
      (match StringFrom(sp, t)
       case None => NeedMore
       case Some((s, r)) => SubscribeFrom(SubscribeQoS(s), p, Left(n, t, r), r))
    case SubscribeQoS(filter) =>
      if t == [] then NeedMore
      else if t[0] > 2 then Bad(InvalidQoSLevel, n - 1)
      else if !Accepted(filter) then Bad(InvalidTopicFilter, n - 1)
      else
        var p' := p.(filters := p.filters + {TopicFilter(filter, t[0])});
        if n > 1 then SubscribeFrom(SubscribeFilter(NoString), p', n - 1, t[1..])
        else Whole(p', NoError)
  }

  // ---------------------------------------------------------------- SUBACK, CONNACK

  datatype SubAckStage = SubAckId(ip: IdProgress) | SubAckQoS

  datatype SubAckFields = SubAckFields(id: Id, levels: seq<nat>)

  function SubAckFrom(stage: SubAckStage, p: SubAckFields, n: nat, t: Str): (o: BodyOutcome<SubAckFields>)
    requires |t| <= n
    ensures o.Bad? ==> n - |t| <= o.left <= n
    ensures o.Whole? ==> |t| == n
    decreases |t|, match stage case SubAckId(_) => 1 case SubAckQoS => 0
  {
    match stage
    case SubAckId(ip) =>
      (match IdFrom(ip, t)
       case None => NeedMore
       case Some((id, r)) =>
         var m := Left(n, t, r);
         var p' := p.(id := id);
         if m > 0 then SubAckFrom(SubAckQoS, p', m, r) else Whole(p', NoError))
    case SubAckQoS =>
      if t == [] then NeedMore
      else if t[0] > 2 then Bad(InvalidQoSLevel, n - 1)
      else
        var p' := p.(levels := p.levels + [t[0]]);
        if n > 1 then SubAckFrom(SubAckQoS, p', n - 1, t[1..]) else Whole(p', NoError)
  }

  datatype ConnAckStage = AcknowledgeFlag | ReturnCode(flag: nat)

  /** CONNACK is read as two bytes, whatever length is declared. */
  function ConnAckFrom(header: Header, stage: ConnAckStage, t: Str): Decoded
    decreases match stage case AcknowledgeFlag => 1 case _ => 0
  {
    if t == [] then Incomplete
    else match stage
      case AcknowledgeFlag =>
        if t[0] > 1 then Failed(ConnectAcknowledgeFlagViolation, t[1..])
        else ConnAckFrom(header, ReturnCode(t[0]), t[1..])
      case ReturnCode(flag) =>
        if t[0] > 5 then Failed(InvalidConnectReturnCode, t[1..])
        else Done(header, ConnAck(flag, t[0]), NoError, t[1..])
  }

  // ---------------------------------------------------------------- whole packets

  /** What a parser keeps between packets: fields it does not reset, and the next UUID. */
  datatype Memory = Memory(
    connect: ConnectFields,
    publish: PublishFields,
    subscribe: SubscribeFields,
    subAck: SubAckFields,
    uuid: Str)

  function Fresh(uuid: Str): Memory {
    Memory(NEW_CONNECT, PublishFields([], 0, []), SubscribeFields(0, {}), SubAckFields(0, []), uuid)
  }

  function Upto(n: nat, s: Str): (r: Str)
    ensures |r| <= n && |r| <= |s|
  {
    if |s| <= n then s else s[..n]
  }

  /** A body outcome in the stream `s`; a body that still needs more than the declared `n`
      bytes fails on the byte after them. */
  function InStream(o: BodyOutcome<Packet>, n: nat, s: Str, header: Header): Decoded
    requires o.Bad? ==> n - |Upto(n, s)| <= o.left <= n
  {
    match o
    case Whole(p, ec) => Done(header, p, ec, s[|Upto(n, s)|..])
    case Bad(code, left) => Failed(code, s[n - left..])
    case NeedMore => if |s| <= n then Incomplete else Failed(ControlPacketLength, s[n + 1..])
  }

  function ConnectBody(o: BodyOutcome<ConnectFields>): BodyOutcome<Packet> {
    match o case Whole(c, ec) => Whole(Connect(c), ec) case Bad(code, left) => Bad(code, left) case NeedMore => NeedMore
  }

  function PublishBody(o: BodyOutcome<PublishFields>): BodyOutcome<Packet> {
    match o
    case Whole(p, ec) => Whole(Publish(p.topic, p.id, p.payload), ec)
    case Bad(code, left) => Bad(code, left)
    case NeedMore => NeedMore
  }

  function SubscribeBody(o: BodyOutcome<SubscribeFields>): BodyOutcome<Packet> {
    match o
    case Whole(p, ec) => Whole(Subscribe(p.id, p.filters), ec)
    case Bad(code, left) => Bad(code, left)
    case NeedMore => NeedMore
  }

  function SubAckBody(o: BodyOutcome<SubAckFields>): BodyOutcome<Packet> {
    match o
    case Whole(p, ec) => Whole(SubAck(p.id, p.levels), ec)
    case Bad(code, left) => Bad(code, left)
    case NeedMore => NeedMore
  }

  /** The packets whose parsers count down the declared length. */
  predicate Counted(kind: nat) {
    kind == CONNECT || kind == PUBLISH || kind == SUBSCRIBE || kind == SUBACK
  }

  function CountedBody(mem: Memory, h: Header, t: Str): (o: BodyOutcome<Packet>)
    requires |t| <= h.length && Counted(h.kind)
    ensures o.Bad? ==> h.length - |t| <= o.left <= h.length
    ensures o.Whole? ==> |t| == h.length
  {
    var n := h.length;
    if h.kind == CONNECT then ConnectBody(ConnectFrom(ProtocolName, NoString, mem.connect, mem.uuid, n, t))
    else if h.kind == PUBLISH then
      PublishBody(PublishFrom(PublishTopic(NoString), mem.publish.(payload := []), QoSOf(h), n, t))
    else if h.kind == SUBSCRIBE then SubscribeBody(SubscribeFrom(SubscribeId(NoId), mem.subscribe, n, t))
    else SubAckBody(SubAckFrom(SubAckId(NoId), mem.subAck, n, t))
  }

  function BodyFrom(mem: Memory, h: Header, s: Str): Decoded {
    if Counted(h.kind) then InStream(CountedBody(mem, h, Upto(h.length, s)), h.length, s, h)
    else if h.kind == CONNACK then ConnAckFrom(h, AcknowledgeFlag, s)
    else if h.kind == PINGREQ then Done(h, PingReq, NoError, s)
    else if h.kind == PINGRESP then Done(h, PingResp, NoError, s)
    else if h.kind == DISCONNECT then Done(h, Disconnect, NoError, s)
    else if 4 <= h.kind <= 7 || h.kind == UNSUBSCRIBE || h.kind == UNSUBACK then Failed(FeatureNotImplemented, s)
    else Failed(InvalidControlPacketType, s)
  }

  /** The QoS bits of a PUBLISH header. */
  function QoSOf(h: Header): nat {
    (h.flags / 2) % 4
  }

  function LengthAndBody(mem: Memory, kind: nat, flags: nat, l: LengthRead): Decoded {
    match l
    case LengthMore => Incomplete
    case LengthBad(rest) => Failed(MalformedRemainingLength, rest)
    case LengthDone(v, rest) => BodyFrom(mem, Header(kind, flags, v), rest)
  }

  /** Decodes the packet at the start of a stream. */
  function Decode(mem: Memory, s: Str): Decoded {
    if s == [] then Incomplete
    else
      var kind, flags := s[0] / 16, s[0] % 16;
      if HeaderError(kind, flags) != NoError then Failed(HeaderError(kind, flags), s[1..])
      else LengthAndBody(mem, kind, flags, LengthFrom(0, s[1..]))
  }

  /** What a parser remembers after delivering a packet. */
  function Remember(mem: Memory, p: Packet): Memory {
    match p
    case Connect(c) => mem.(connect := c)
    case Publish(t, i, b) => mem.(publish := PublishFields(t, i, b))
    case Subscribe(i, fs) => mem.(subscribe := SubscribeFields(i, fs))
    case SubAck(i, ls) => mem.(subAck := SubAckFields(i, ls))
    case _ => mem
  }
}
