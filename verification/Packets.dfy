/** Control packets, headers and error codes. */
module Packets {
  import opened Common
  import opened Topics

  datatype ErrorCode =
    | NoError
    | InvalidControlPacketType
    | MalformedRemainingLength
    | StringLengthViolation
    | DuplicateConnect
    | ConnectProtocolViolation
    | ProtocolNameViolation
    | UnacceptableProtocolLevel
    | ConnectFlagViolation
    | ControlPacketLength
    | PacketIdentifierLengthViolation
    | SubscribeProtocolViolation
    | InvalidTopicFilter
    | ConnectAcknowledgeFlagViolation
    | InvalidConnectReturnCode
    | FeatureNotImplemented
    | ControlPacketNotAllowed
    | DupFlagViolation
    | InvalidQoSLevel
    | PublishProtocolViolation
    | NotConnected
    | SessionInUse
    | SessionNotFound
    | NoPacketSender
    | InvalidWildcardInTopic
    | CleanSessionNotSetForEmptyClientId

  /** The packet type is the upper half of the first byte, the flags are the lower half. */
  datatype Header = Header(kind: nat, flags: nat, length: nat)

  const CONNECT := 1
  const CONNACK := 2
  const PUBLISH := 3
  const SUBSCRIBE := 8
  const SUBACK := 9
  const UNSUBSCRIBE := 10
  const UNSUBACK := 11
  const PINGREQ := 12
  const PINGRESP := 13
  const DISCONNECT := 14

  type Id = id: int | 0 <= id < 65536

  datatype ConnectFields = ConnectFields(
    protocolLevel: Byte,
    cleanSession: bool,
    willFlag: bool,
    willQoS: nat,
    willRetain: bool,
    passwordFlag: bool,
    userNameFlag: bool,
    keepAlive: Id,
    clientId: Str,
    willTopic: Str,
    willMessage: Str,
    userName: Str,
    password: Str)

  const NEW_CONNECT := ConnectFields(0, false, false, 0, false, false, false, 0, [], [], [], [], [])

  /** Topic filters are a list where a packet is built and a set where one is received. */
  datatype PacketOf<F> =
    | Connect(fields: ConnectFields)
    | ConnAck(sessionPresent: nat, returnCode: nat)
    | Publish(topic: Str, publishId: Id, payload: Str)
    | Subscribe(subscribeId: Id, filters: F)
    | SubAck(subAckId: Id, levels: seq<nat>)
    | PingReq
    | PingResp
    | Disconnect

  type ControlPacket = PacketOf<seq<TopicFilter>>
  type Packet = PacketOf<set<TopicFilter>>

  function Elements(filters: seq<TopicFilter>): set<TopicFilter> {
    set f | f in filters
  }

  /** A packet as a receiver understands it: only the set of topic filters matters. */
  function Meaning(p: ControlPacket): Packet {
    match p
    case Connect(f) => Connect(f)
    case ConnAck(s, r) => ConnAck(s, r)
    case Publish(t, i, b) => Publish(t, i, b)
    case Subscribe(i, fs) => Subscribe(i, Elements(fs))
    case SubAck(i, ls) => SubAck(i, ls)
    case PingReq => PingReq
    case PingResp => PingResp
    case Disconnect => Disconnect
  }

  /** `FixedHeader::validate`. */
  function HeaderError(kind: nat, flags: nat): ErrorCode {
    if kind in {1, 2, 4, 5, 7, 9, 11, 12, 13, 14} then
      if flags != 0 then ConnectFlagViolation else NoError
    else if kind == PUBLISH then
      if (flags / 2) % 4 == 0 && flags / 8 == 1 then DupFlagViolation
      else if (flags / 2) % 4 == 3 then InvalidQoSLevel
      else NoError
    else if kind in {6, 8, 10} then
      if flags != 2 then ConnectFlagViolation else NoError
    else InvalidControlPacketType
  }
}
