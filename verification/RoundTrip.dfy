/** Serializing and decoding against each other: what arrives is what was sent, exactly when the
    packet can be sent at all; and where a decoded packet ends. */
module RoundTrips {
  import opened Common
  import opened Topics
  import opened Packets
  import opened RemainingLength
  import opened Decoding
  import opened Serializers

  // ---------------------------------------------------------------- fields

  lemma StringRead(s: Str, r: Str)
    requires |s| < 65536
    ensures StringFrom(NoString, StringBytes(s) + r) == Some((s, r))
    ensures |StringBytes(s)| == |s| + 2
  {
    var t := StringBytes(s) + r;
    var msb: Byte, lsb: Byte := |s| / 256, |s| % 256;
    assert t[0] == msb && t[1..] == [lsb] + s + r;
    assert t[1..][0] == lsb && t[1..][1..] == s + r;
    assert Msb(msb) + lsb == |s|;
    assert (s + r)[..|s|] == s && (s + r)[|s|..] == r;
    assert [] + (s + r)[..|s|] == s;
    assert StringFrom(Characters(|s|, []), s + r) == Some((s, r));
  }

  lemma IdRead(id: Id, r: Str)
    ensures IdFrom(NoId, IdBytes(id) + r) == Some((id, r))
  {
  }

  /** A valid first byte and a length field lead to the body decoder. */
  lemma HeaderRead(mem: Memory, first: Byte, v: nat, s: Str)
    requires HeaderError(first / 16, first % 16) == NoError && v < POW4
    ensures Decode(mem, [first] + EncodeLength(v) + s) == BodyFrom(mem, Header(first / 16, first % 16, v), s)
  {
    var t := [first] + EncodeLength(v) + s;
    assert t[1..] == EncodeLength(v) + s;
    DecodeEncode(v, 0, s);
    ShortFieldMeansSmall(v);
  }

  lemma BodyRead(o: BodyOutcome<Packet>, body: Str, rest: Str, h: Header, p: Packet)
    requires o == Whole(p, NoError)
    ensures Upto(|body|, body + rest) == body
    ensures InStream(o, |body|, body + rest, h) == Done(h, p, NoError, rest)
  {
  }

  // ---------------------------------------------------------------- framing

  /** How many body bytes an accepted packet with this header has: what the header declares for
      the four kinds that count it down; CONNACK has two and the others none in any case. */
  function BodyLength(h: Header): nat {
    if Counted(h.kind) then h.length else if h.kind == CONNACK then 2 else 0
  }

  lemma DoneConsumes(mem: Memory, s: Str)
    requires Decode(mem, s).Done?
    ensures s != [] && Decode(mem, s).header.kind == s[0] / 16
    ensures var l, b := LengthFrom(0, s[1..]), BodyLength(Decode(mem, s).header);
      && l.LengthDone? && b <= |l.rest|
      && Decode(mem, s) == BodyFrom(mem, Header(s[0] / 16, s[0] % 16, l.value), l.rest)
      && Decode(mem, s).header == Header(s[0] / 16, s[0] % 16, l.value)
      && Decode(mem, s).rest == l.rest[b..]
  {
  }

  /** The packet ends behind its first byte, a length field of `n` bytes and `body` bytes. */
  ghost predicate EndsAfter(s: Str, n: nat, d: Decoded, body: nat)
    requires d.Done?
  {
    && s != [] && n <= 4 && Field(s[1..], n, d.header.length)
    && 1 + n + body + |d.rest| == |s| && d.rest == s[1 + n + body..]
  }

  /** Whatever the bytes are: an accepted packet has consumed its first byte, its length field
      and the body bytes of its kind. */
  lemma ExactFraming(mem: Memory, s: Str)
    requires Decode(mem, s).Done?
    ensures exists n: nat :: EndsAfter(s, n, Decode(mem, s), BodyLength(Decode(mem, s).header))
  {
    var n := FramedAfter(mem, s);
  }

  lemma FramedAfter(mem: Memory, s: Str) returns (n: nat)
    requires Decode(mem, s).Done?
    ensures EndsAfter(s, n, Decode(mem, s), BodyLength(Decode(mem, s).header))
  {
    DoneConsumes(mem, s);
    n := AcceptedField(0, s[1..]);
    var b := BodyLength(Decode(mem, s).header);
    assert s[1..][n..] == s[1 + n..] && s[1 + n..][b..] == s[1 + n + b..];
  }

  /** An accepted packet ends where its own length field says exactly if its kind counts the
      length down, or it is a CONNACK that declares two bytes or another packet that declares
      none. */
  lemma DeclaredFramingExact(mem: Memory, s: Str)
    requires Decode(mem, s).Done?
    ensures var h := Decode(mem, s).header;
      (exists n: nat :: EndsAfter(s, n, Decode(mem, s), h.length)) <==>
        Counted(h.kind) || h.length == if h.kind == CONNACK then 2 else 0
  {
    var h := Decode(mem, s).header;
    var n := FramedAfter(mem, s);
    if m: nat :| EndsAfter(s, m, Decode(mem, s), h.length) {
      FieldAccepted(0, s[1..], n, h.length);
      FieldAccepted(0, s[1..], m, h.length);
    }
  }

  /** The bytes C0 02 E0 00: the PINGREQ is accepted without its two body bytes, which are then
      read as a DISCONNECT. */
  lemma BodyReadAsPacket(mem: Memory)
    ensures Decode(mem, [192, 2, 224, 0]) == Done(Header(PINGREQ, 0, 2), PingReq, NoError, [224, 0])
    ensures Decode(mem, [224, 0]) == Done(Header(DISCONNECT, 0, 0), Disconnect, NoError, [])
  {
    var s: Str := [192, 2, 224, 0];
    assert s[1..] == [2, 224, 0] && s[1..][1..] == [224, 0] == s[2..];
    var t: Str := [224, 0];
    assert t[1..] == [0] && t[1..][1..] == [];
  }

  // ---------------------------------------------------------------- CONNECT

  lemma ConnectString(stage: ConnectStage, c: ConnectFields, uuid: Str, n: nat, s: Str, r: Str)
    requires ReadsString(stage) && |s| < 65536 && |r| + |s| + 2 <= n
    ensures |StringBytes(s) + r| <= n
    ensures ConnectFrom(stage, NoString, c, uuid, n, StringBytes(s) + r)
      == Follow(AfterString(stage, c, s, uuid), uuid, n - |s| - 2, r)
  {
    StringRead(s, r);
    assert Left(n, StringBytes(s) + r, r) == n - |s| - 2;
  }

  lemma ConnectByte(stage: ConnectStage, c: ConnectFields, uuid: Str, n: nat, b: Byte, r: Str)
    requires !ReadsString(stage) && |r| < n
    ensures ConnectFrom(stage, NoString, c, uuid, n, [b] + r) == Follow(AfterByte(stage, c, b), uuid, n - 1, r)
  {
  }

  /** The fields every CONNECT carries, as the decoder stores them. */
  function WithFixed(c: ConnectFields, from: ConnectFields): ConnectFields {
    c.(protocolLevel := 4, cleanSession := from.cleanSession, willFlag := from.willFlag, willQoS := from.willQoS % 2,
       willRetain := from.willRetain, passwordFlag := from.passwordFlag, userNameFlag := from.userNameFlag,
       keepAlive := from.keepAlive)
  }

  lemma FlagsRead(c: ConnectFields)
    ensures var b := FlagsByte(c);
      && !Bit(b, 1) && Bit(b, 2) == c.cleanSession && Bit(b, 4) == c.willFlag && Bit(b, 8) == (c.willQoS % 2 == 1)
      && Bit(b, 32) == c.willRetain && Bit(b, 64) == c.passwordFlag && Bit(b, 128) == c.userNameFlag
  {
    var u, p, r := Weight(c.userNameFlag, 1), Weight(c.passwordFlag, 1), Weight(c.willRetain, 1);
    var q, w, s := c.willQoS % 4, Weight(c.willFlag, 1), Weight(c.cleanSession, 1);
    LowBit(c.willQoS);
    FlagBits(FlagsByte(c), u, p, r, q, w, s);
  }

  lemma LowBit(n: nat)
    ensures n % 4 % 2 == n % 2
  {
  }

  lemma FlagBits(b: nat, u: nat, p: nat, r: nat, q: nat, w: nat, s: nat)
    requires u < 2 && p < 2 && r < 2 && q < 4 && w < 2 && s < 2
    requires b == 128 * u + 64 * p + 32 * r + 8 * q + 4 * w + 2 * s
    ensures b / 128 % 2 == u && b / 64 % 2 == p && b / 32 % 2 == r && b / 8 % 2 == q % 2
    ensures b / 4 % 2 == w && b / 2 % 2 == s && b % 2 == 0
  {
    assert b / 128 == u;
    assert b / 64 == 2 * u + p;
    assert b / 32 == 4 * u + 2 * p + r;
    assert b / 8 == 16 * u + 8 * p + 4 * r + q;
    assert b / 4 == 32 * u + 16 * p + 8 * r + 2 * q + w;
    assert b / 2 == 64 * u + 32 * p + 16 * r + 4 * q + 2 * w + s;
  }

  lemma HeadRead(prior: ConnectFields, uuid: Str, n: nat, t: Str)
    requires |t| + 7 <= n
    ensures ConnectFrom(ProtocolName, NoString, prior, uuid, n, CONNECT_HEAD + t)
      == ConnectFrom(ConnectFlags, NoString, prior.(protocolLevel := 4), uuid, n - 7, t)
  {
    assert CONNECT_HEAD + t == StringBytes(MQTT) + ([4] + t);
    ConnectString(ProtocolName, prior, uuid, n, MQTT, [4] + t);
    ConnectByte(ProtocolLevel, prior, uuid, n - 6, 4, t);
  }

  lemma KeepAliveRead(c: ConnectFields, k: Id, uuid: Str, n: nat, r: Str)
    requires |r| + 2 <= n
    ensures ConnectFrom(KeepAliveMsb, NoString, c, uuid, n, IdBytes(k) + r)
      == ConnectFrom(ClientId, NoString, c.(keepAlive := k), uuid, n - 2, r)
  {
  }

  lemma FixedSplit(c: ConnectFields, r: Str)
    ensures |FixedBytes(c)| == 10
    ensures FixedBytes(c) + r == CONNECT_HEAD + ([FlagsByte(c)] + (IdBytes(c.keepAlive) + r))
  {
  }

  lemma FixedRead(prior: ConnectFields, c: ConnectFields, uuid: Str, n: nat, r: Str)
    requires |FixedBytes(c)| + |r| <= n
    ensures |FixedBytes(c)| == 10
    ensures ConnectFrom(ProtocolName, NoString, prior, uuid, n, FixedBytes(c) + r)
      == ConnectFrom(ClientId, NoString, WithFixed(prior, c), uuid, n - 10, r)
  {
    var b := FlagsByte(c);
    var t := IdBytes(c.keepAlive) + r;
    FixedSplit(c, r);
    var c1 := prior.(protocolLevel := 4);
    HeadRead(prior, uuid, n, [b] + t);
    FlagsAndKeepAlive(c1, c, uuid, n - 7, r);
    assert WithFixed(c1, c) == WithFixed(prior, c);
  }

  lemma FlagsAndKeepAlive(c1: ConnectFields, c: ConnectFields, uuid: Str, n: nat, r: Str)
    requires |r| + 3 <= n && c1.protocolLevel == 4
    ensures ConnectFrom(ConnectFlags, NoString, c1, uuid, n, [FlagsByte(c)] + (IdBytes(c.keepAlive) + r))
      == ConnectFrom(ClientId, NoString, WithFixed(c1, c), uuid, n - 3, r)
  {
    var b := FlagsByte(c);
    ConnectByte(ConnectFlags, c1, uuid, n, b, IdBytes(c.keepAlive) + r);
    FlagsRead(c);
    KeepAliveRead(WithFlags(c1, b), c.keepAlive, uuid, n - 1, r);
    assert WithFlags(c1, b).(keepAlive := c.keepAlive) == WithFixed(c1, c);
  }

  predicate Fits16(s: Str) {
    |s| < 65536
  }

  predicate StringsFit(c: ConnectFields) {
    && Fits16(c.clientId)
    && (c.willFlag ==> Fits16(c.willTopic) && Fits16(c.willMessage))
    && (c.userNameFlag ==> Fits16(c.userName))
    && (c.passwordFlag ==> Fits16(c.password))
  }

  /** What arrives: fields that are not sent keep what the parser remembers. */
  function Received(prior: ConnectFields, c: ConnectFields): ConnectFields {
    var base := WithWill(WithFixed(prior, c).(clientId := c.clientId), c);
    if c.userNameFlag then base.(userName := c.userName, password := c.password) else base
  }

  function WithWill(base: ConnectFields, c: ConnectFields): ConnectFields {
    if c.willFlag then base.(willTopic := c.willTopic, willMessage := c.willMessage) else base
  }

  /** The decoder takes a password exactly after a user name, the serializer writes it exactly
      with its own flag: when the flags differ, something is missing or left over. */
  function Expected(prior: ConnectFields, c: ConnectFields): BodyOutcome<ConnectFields> {
    if c.userNameFlag == c.passwordFlag then Whole(Received(prior, c), NoError)
    else if c.userNameFlag then NeedMore
    else Bad(ControlPacketLength, |PasswordBytes(c)|)
  }

  lemma UserRead(prior: ConnectFields, base: ConnectFields, c: ConnectFields, uuid: Str)
    requires StringsFit(c)
    requires base == WithWill(WithFixed(prior, c).(clientId := c.clientId), c)
    ensures var t := UserBytes(c) + PasswordBytes(c);
      var move := if c.userNameFlag then Next(Username, base) else Complete(base, NoError);
      Follow(move, uuid, |t|, t) == Expected(prior, c)
  {
    var t := UserBytes(c) + PasswordBytes(c);
    if c.userNameFlag {
      ConnectString(Username, base, uuid, |t|, c.userName, PasswordBytes(c));
      var base' := base.(userName := c.userName);
      var n := |PasswordBytes(c)|;
      assert |t| - |c.userName| - 2 == n;
      if c.passwordFlag {
        assert PasswordBytes(c) + [] == PasswordBytes(c);
        ConnectString(Password, base', uuid, n, c.password, []);
      }
    }
  }

  lemma WillRead(prior: ConnectFields, base: ConnectFields, c: ConnectFields, uuid: Str)
    requires StringsFit(c)
    requires base == WithFixed(prior, c).(clientId := c.clientId)
    ensures var t := OptionalBytes(c);
      var next := if c.userNameFlag then Next(Username, base) else Complete(base, NoError);
      Follow(if c.willFlag then Next(WillTopic, base) else next, uuid, |t|, t) == Expected(prior, c)
  {
    var t, u := OptionalBytes(c), UserBytes(c) + PasswordBytes(c);
    Assoc(WillBytes(c), UserBytes(c), PasswordBytes(c));
    UserRead(prior, WithWill(base, c), c, uuid);
    if c.willFlag {
      Assoc(StringBytes(c.willTopic), StringBytes(c.willMessage), u);
      ConnectString(WillTopic, base, uuid, |t|, c.willTopic, StringBytes(c.willMessage) + u);
      var base' := base.(willTopic := c.willTopic);
      ConnectString(WillMessage, base', uuid, |t| - |c.willTopic| - 2, c.willMessage, u);
      assert base'.(willMessage := c.willMessage) == WithWill(base, c);
    } else {
      assert [] + u == u;
    }
  }

  lemma ConnectRead(prior: ConnectFields, c: ConnectFields, uuid: Str)
    requires StringsFit(c) && c.clientId != []
    ensures ConnectFrom(ProtocolName, NoString, prior, uuid, |ConnectBytes(c)|, ConnectBytes(c)) == Expected(prior, c)
  {
    var n := |ConnectBytes(c)|;
    var r := StringBytes(c.clientId) + OptionalBytes(c);
    Assoc(FixedBytes(c), StringBytes(c.clientId), OptionalBytes(c));
    FixedRead(prior, c, uuid, n, r);
    var base := WithFixed(prior, c);
    ConnectString(ClientId, base, uuid, n - 10, c.clientId, OptionalBytes(c));
    WillRead(prior, base.(clientId := c.clientId), c, uuid);
  }

  lemma ConnectSize(c: ConnectFields)
    requires StringsFit(c)
    ensures |ConnectBytes(c)| < POW4
  {
  }

  /** What a CONNECT decodes to, for all its flags. */
  lemma ConnectDecoded(mem: Memory, c: ConnectFields, rest: Str)
    requires StringsFit(c) && c.clientId != []
    ensures var h := Header(CONNECT, 0, |ConnectBytes(c)|);
      var d := Decode(mem, Wire(Connect(c)) + rest);
      && (c.userNameFlag == c.passwordFlag ==> d == Done(h, Connect(Received(mem.connect, c)), NoError, rest))
      && (c.userNameFlag != c.passwordFlag ==> !d.Done?)
  {
    var body := ConnectBytes(c);
    var n := |body|;
    ConnectSize(c);
    Assoc([16] + EncodeLength(n), body, rest);
    assert n % UINT32 == n;
    HeaderRead(mem, 16, n, body + rest);
    ConnectRead(mem.connect, c, mem.uuid);
    assert Upto(n, body + rest) == body by {
      assert (body + rest)[..n] == body;
    }
    if c.userNameFlag == c.passwordFlag {
      var p := Connect(Received(mem.connect, c));
      BodyRead(ConnectBody(Expected(mem.connect, c)), body, rest, Header(CONNECT, 0, n), p);
    }
  }

  // ---------------------------------------------------------------- PUBLISH

  lemma PublishRead(p: PublishFields, topic: Str, payload: Str)
    requires Fits16(topic) && WildcardFree(topic) && payload != []
    ensures var t := StringBytes(topic) + payload;
      PublishFrom(PublishTopic(NoString), p, 0, |t|, t)
        == Whole(p.(topic := topic, payload := p.payload + payload), NoError)
  {
    var t := StringBytes(topic) + payload;
    StringRead(topic, payload);
    assert Left(|t|, t, payload) == |payload|;
  }

  /** A PUBLISH goes out with QoS 0, so its identifier is not sent. */
  lemma PublishDecoded(mem: Memory, topic: Str, id: Id, payload: Str, rest: Str)
    requires Fits16(topic) && WildcardFree(topic) && payload != [] && 2 + |topic| + |payload| < POW4
    ensures Decode(mem, Wire(Publish(topic, id, payload)) + rest)
      == Done(Header(PUBLISH, 0, 2 + |topic| + |payload|), Publish(topic, mem.publish.id, payload), NoError, rest)
  {
    var body := StringBytes(topic) + payload;
    var n := |body|;
    var h := Header(PUBLISH, 0, n);
    assert n % UINT32 == n;
    Assoc([48] + EncodeLength(n), body, rest);
    HeaderRead(mem, 48, n, body + rest);
    var p := mem.publish.(payload := []);
    PublishRead(p, topic, payload);
    assert [] + payload == payload;
    assert QoSOf(h) == 0;
    var p' := p.(topic := topic, payload := payload);
    BodyRead(PublishBody(Whole(p', NoError)), body, rest, h, Publish(topic, p.id, payload));
  }

  // ---------------------------------------------------------------- SUBSCRIBE

  predicate FilterSendable(f: TopicFilter) {
    Fits16(f.filter) && Accepted(f.filter) && f.qos <= 2
  }

  function OneFilter(f: TopicFilter): Str {
    StringBytes(f.filter) + [f.qos % 256]
  }

  lemma {:induction false} FilterBytesCons(filters: seq<TopicFilter>)
    requires filters != []
    ensures FilterBytes(filters) == OneFilter(filters[0]) + FilterBytes(filters[1..])
    decreases |filters|
  {
    var n := |filters| - 1;
    if n == 0 {
      assert filters[..0] == [] && filters[1..] == [];
      assert [] + OneFilter(filters[0]) == OneFilter(filters[0]) + [];
    } else {
      FilterBytesCons(filters[..n]);
      assert filters[..n][1..] == filters[1..][..n - 1];
      Assoc(OneFilter(filters[0]), FilterBytes(filters[..n][1..]), OneFilter(filters[n]));
    }
  }

  lemma OneFilterRead(p: SubscribeFields, f: TopicFilter, more: Str)
    requires FilterSendable(f)
    ensures var t := OneFilter(f) + more;
      var p' := p.(filters := p.filters + {f});
      SubscribeFrom(SubscribeFilter(NoString), p, |t|, t) ==
        if more == [] then Whole(p', NoError) else SubscribeFrom(SubscribeFilter(NoString), p', |more|, more)
  {
    var t := OneFilter(f) + more;
    var r := [f.qos % 256] + more;
    Assoc(StringBytes(f.filter), [f.qos % 256], more);
    StringRead(f.filter, r);
    assert Left(|t|, t, r) == |r|;
    assert r[1..] == more && r[0] == f.qos;
  }

  lemma {:induction false} FiltersRead(p: SubscribeFields, filters: seq<TopicFilter>)
    requires filters != [] && forall f | f in filters :: FilterSendable(f)
    ensures var t := FilterBytes(filters);
      SubscribeFrom(SubscribeFilter(NoString), p, |t|, t)
        == Whole(p.(filters := p.filters + Elements(filters)), NoError)
    decreases |filters|
  {
    var f, others := filters[0], filters[1..];
    assert filters == [f] + others;
    assert Elements(filters) == {f} + Elements(others);
    assert p.filters + {f} + Elements(others) == p.filters + Elements(filters);
    FilterBytesCons(filters);
    OneFilterRead(p, f, FilterBytes(others));
    if others != [] {
      FilterBytesCons(others);
      assert forall g | g in others :: g in filters;
      assert |FilterBytes(others)| > 0;
      FiltersRead(p.(filters := p.filters + {f}), others);
    } else {
      assert FilterBytes(others) == [] && Elements(others) == {};
      assert p.filters + {f} == p.filters + Elements(filters);
    }
  }

  /** A SUBSCRIBE arrives with its own filters and all those the parser still has. */
  lemma SubscribeDecoded(mem: Memory, id: Id, filters: seq<TopicFilter>, rest: Str)
    requires filters != [] && (forall f | f in filters :: FilterSendable(f)) && 2 + |FilterBytes(filters)| < POW4
    ensures Decode(mem, Wire(Subscribe(id, filters)) + rest)
      == Done(Header(SUBSCRIBE, 2, 2 + |FilterBytes(filters)|),
              Subscribe(id, mem.subscribe.filters + Elements(filters)), NoError, rest)
  {
    var t := FilterBytes(filters);
    var body := IdBytes(id) + t;
    var n := |body|;
    var h := Header(SUBSCRIBE, 2, n);
    assert n % UINT32 == n;
    Assoc([130] + EncodeLength(n), body, rest);
    HeaderRead(mem, 130, n, body + rest);
    IdRead(id, t);
    assert Left(n, body, t) == |t|;
    var p := mem.subscribe.(id := id);
    FiltersRead(p, filters);
    var p' := p.(filters := p.filters + Elements(filters));
    BodyRead(SubscribeBody(Whole(p', NoError)), body, rest, h, Subscribe(id, p'.filters));
  }

  // ---------------------------------------------------------------- SUBACK and the rest

  lemma {:induction false} LevelBytesCons(levels: seq<nat>)
    requires levels != []
    ensures LevelBytes(levels) == [levels[0] % 256] + LevelBytes(levels[1..])
    decreases |levels|
  {
    var n := |levels| - 1;
    if n > 0 {
      LevelBytesCons(levels[..n]);
      assert levels[..n][1..] == levels[1..][..n - 1];
    }
  }

  lemma {:induction false} LevelsRead(p: SubAckFields, levels: seq<nat>)
    requires levels != [] && forall l | l in levels :: l <= 2
    ensures SubAckFrom(SubAckQoS, p, |levels|, LevelBytes(levels)) == Whole(p.(levels := p.levels + levels), NoError)
    decreases |levels|
  {
    var t := LevelBytes(levels);
    assert levels[0] in levels && forall l | l in levels[1..] :: l in levels;
    LevelBytesCons(levels);
    assert t[1..] == LevelBytes(levels[1..]) && t[0] == levels[0];
    var p' := p.(levels := p.levels + [levels[0]]);
    if |levels| == 1 {
      assert levels == [levels[0]];
    } else {
      LevelsRead(p', levels[1..]);
      assert p.levels + [levels[0]] + levels[1..] == p.levels + levels;
    }
  }

  /** A SUBACK arrives with its own levels behind all those the parser still has. */
  lemma SubAckDecoded(mem: Memory, id: Id, levels: seq<nat>, rest: Str)
    requires |levels| <= 125 && forall l | l in levels :: l <= 2
    ensures Decode(mem, Wire(SubAck(id, levels)) + rest)
      == Done(Header(SUBACK, 0, 2 + |levels|), SubAck(id, mem.subAck.levels + levels), NoError, rest)
  {
    var t := LevelBytes(levels);
    var body := IdBytes(id) + t;
    var n := |body|;
    var h := Header(SUBACK, 0, n);
    assert EncodeLength(n) == [n] && HeaderBytes(SubAck(id, levels)) == [144] + EncodeLength(n);
    Assoc([144] + EncodeLength(n), body, rest);
    HeaderRead(mem, 144, n, body + rest);
    SubAckBodyRead(mem.subAck, id, levels);
    var o := SubAckBody(SubAckFrom(SubAckId(NoId), mem.subAck, n, body));
    BodyRead(o, body, rest, h, SubAck(id, mem.subAck.levels + levels));
  }

  lemma SubAckBodyRead(p: SubAckFields, id: Id, levels: seq<nat>)
    requires forall l | l in levels :: l <= 2
    ensures var body := IdBytes(id) + LevelBytes(levels);
      SubAckFrom(SubAckId(NoId), p, |body|, body) == Whole(SubAckFields(id, p.levels + levels), NoError)
  {
    var t := LevelBytes(levels);
    var body := IdBytes(id) + t;
    IdRead(id, t);
    assert Left(|body|, body, t) == |levels|;
    if levels == [] {
      assert p.levels + levels == p.levels;
    } else {
      LevelsRead(p.(id := id), levels);
    }
  }

  lemma ConnAckDecoded(mem: Memory, s: nat, r: nat, rest: Str)
    ensures Decode(mem, Wire(ConnAck(s, r)) + rest) ==
      if s % 256 > 1 then Failed(ConnectAcknowledgeFlagViolation, [r % 256] + rest)
      else if r % 256 > 5 then Failed(InvalidConnectReturnCode, rest)
      else Done(Header(CONNACK, 0, 2), ConnAck(s % 256, r % 256), NoError, rest)
  {
  }

  lemma EmptyDecoded(mem: Memory, rest: Str)
    ensures Decode(mem, Wire(PingResp) + rest) == Done(Header(PINGRESP, 0, 0), PingResp, NoError, rest)
    ensures Decode(mem, Wire(Disconnect) + rest) == Done(Header(DISCONNECT, 0, 0), Disconnect, NoError, rest)
  {
  }

  // ---------------------------------------------------------------- exactly the sendable packets

  /** Whether a packet can make the journey. */
  predicate Sendable(p: ControlPacket) {
    match p
    case Connect(c) =>
      && c.protocolLevel == 4 && c.willQoS <= 1 && c.clientId != [] && c.userNameFlag == c.passwordFlag
      && StringsFit(c)
      && (!c.willFlag ==> c.willTopic == [] && c.willMessage == [])
      && (!c.userNameFlag ==> c.userName == [] && c.password == [])
    case ConnAck(s, r) => s <= 1 && r <= 5
    case Publish(topic, id, payload) =>
      Fits16(topic) && WildcardFree(topic) && id == 0 && payload != [] && 2 + |topic| + |payload| < POW4
    case Subscribe(_, filters) =>
      filters != [] && (forall f | f in filters :: FilterSendable(f)) && 2 + |FilterBytes(filters)| < POW4
    case SubAck(_, levels) => |levels| <= 125 && forall l | l in levels :: l <= 2
    case PingReq => false
    case PingResp => true
    case Disconnect => true
  }

  /** A fresh parser, given the packet's bytes, delivers the packet and has consumed just them. */
  ghost predicate Arrives(p: ControlPacket, uuid: Str, rest: Str) {
    var d := Decode(Fresh(uuid), Wire(p) + rest);
    d.Done? && d.packet == Meaning(p) && d.ec == NoError && d.rest == rest
  }

  lemma ConnectArrives(c: ConnectFields, uuid: Str, rest: Str)
    requires Sendable(Connect(c))
    ensures Arrives(Connect(c), uuid, rest)
  {
    ConnectDecoded(Fresh(uuid), c, rest);
    NothingUnsent(c);
  }

  lemma NothingUnsent(c: ConnectFields)
    requires c.protocolLevel == 4 && c.willQoS <= 1 && c.userNameFlag == c.passwordFlag
    requires !c.willFlag ==> c.willTopic == [] && c.willMessage == []
    requires !c.userNameFlag ==> c.userName == [] && c.password == []
    ensures Received(NEW_CONNECT, c) == c
  {
  }

  lemma SubscribeArrives(id: Id, filters: seq<TopicFilter>, uuid: Str, rest: Str)
    requires Sendable(Subscribe(id, filters))
    ensures Arrives(Subscribe(id, filters), uuid, rest)
  {
    SubscribeDecoded(Fresh(uuid), id, filters, rest);
    assert {} + Elements(filters) == Elements(filters);
  }

  lemma SubAckArrives(id: Id, levels: seq<nat>, uuid: Str, rest: Str)
    requires Sendable(SubAck(id, levels))
    ensures Arrives(SubAck(id, levels), uuid, rest)
  {
    SubAckDecoded(Fresh(uuid), id, levels, rest);
    assert [] + levels == levels;
  }

  lemma SendableArrives(p: ControlPacket, uuid: Str, rest: Str)
    requires Sendable(p)
    ensures Arrives(p, uuid, rest)
  {
    var mem := Fresh(uuid);
    match p
    case Connect(c) => ConnectArrives(c, uuid, rest);
    case ConnAck(s, r) => ConnAckDecoded(mem, s, r, rest);
    case Publish(topic, id, payload) => PublishDecoded(mem, topic, id, payload, rest);
    case Subscribe(id, filters) => SubscribeArrives(id, filters, uuid, rest);
    case SubAck(id, levels) => SubAckArrives(id, levels, uuid, rest);
    case PingResp => EmptyDecoded(mem, rest);
    case Disconnect => EmptyDecoded(mem, rest);
  }

  /** Fields that every CONNECT delivered by a fresh parser has. */
  predicate Settled(c: ConnectFields) {
    && Fits16(c.willTopic) && Fits16(c.willMessage) && Fits16(c.userName) && Fits16(c.password)
    && (!c.willFlag ==> c.willTopic == [] && c.willMessage == [])
    && (!c.userNameFlag ==> c.userName == [] && c.password == [])
  }

  predicate SettledAt(stage: ConnectStage, c: ConnectFields) {
    && (Rank(stage) >= 7 ==> c.willTopic == [] && c.willMessage == [] && c.userName == [] && c.password == [])
    && (Rank(stage) < 8 ==> c.protocolLevel == 4)
    && (Rank(stage) < 7 ==> Settled(c) && c.willQoS <= 1)
    && (Rank(stage) < 4 ==> c.clientId != [] && Fits16(c.clientId))
    && (stage in {WillTopic, WillMessage} ==> c.willFlag)
    && (stage in {Username, Password} ==> c.userNameFlag)
  }

  lemma StringShort(t: Str)
    ensures StringFrom(NoString, t).Some? ==> Fits16(StringFrom(NoString, t).value.0)
  {
  }

  lemma MoveSettled(stage: ConnectStage, c: ConnectFields, uuid: Str, s: Str)
    requires ReadsString(stage) && SettledAt(stage, c) && uuid != [] && Fits16(uuid) && Fits16(s)
    ensures var m := AfterString(stage, c, s, uuid);
      && (m.Next? ==> SettledAt(m.stage, m.fields))
      && (m.Complete? ==>
            Settled(m.fields) && m.fields.protocolLevel == 4 && m.fields.willQoS <= 1 &&
            m.fields.clientId != [] && Fits16(m.fields.clientId))
  {
  }

  lemma {:induction false} ConnectSettled(stage: ConnectStage, c: ConnectFields, uuid: Str, n: nat, t: Str)
    requires |t| <= n && SettledAt(stage, c) && uuid != [] && Fits16(uuid)
    requires ConnectFrom(stage, NoString, c, uuid, n, t).Whole?
    ensures var c' := ConnectFrom(stage, NoString, c, uuid, n, t).value;
      Settled(c') && c'.protocolLevel == 4 && c'.willQoS <= 1 && c'.clientId != [] && Fits16(c'.clientId)
    decreases Rank(stage)
  {
    if ReadsString(stage) {
      StringShort(t);
      var (s, r) := StringFrom(NoString, t).value;
      MoveSettled(stage, c, uuid, s);
      var m := AfterString(stage, c, s, uuid);
      if m.Next? {
        ConnectSettled(m.stage, m.fields, uuid, Left(n, t, r), r);
      }
    } else {
      var m := AfterByte(stage, c, t[0]);
      ConnectSettled(m.stage, m.fields, uuid, n - 1, t[1..]);
    }
  }

  lemma ConnectArrivesSendable(c: ConnectFields, uuid: Str)
    requires uuid != [] && Fits16(uuid) && Arrives(Connect(c), uuid, [])
    ensures Sendable(Connect(c))
  {
    var mem := Fresh(uuid);
    var s := Wire(Connect(c)) + [];
    var h := Decode(mem, s).header;
    assert s[0] == 16;
    var body := LengthFrom(0, s[1..]).rest;
    ConnectSettled(ProtocolName, NEW_CONNECT, uuid, h.length, Upto(h.length, body));
    ConnectDecoded(mem, c, []);
  }

  lemma PublishArrivesSendable(topic: Str, id: Id, payload: Str, uuid: Str)
    requires Arrives(Publish(topic, id, payload), uuid, [])
    ensures Sendable(Publish(topic, id, payload))
  {
    var p: ControlPacket := Publish(topic, id, payload);
    var body := StringBytes(topic) + payload;
    var s := Wire(p) + [];
    assert s == [48] + EncodeLength(|body| % UINT32) + body;
    SizeArrives(Fresh(uuid), 48, |body| % UINT32, body);
    var h := Decode(Fresh(uuid), s).header;
    assert QoSOf(h) == 0;
    PublishSettled(PublishFields([], 0, []), h.length, Upto(h.length, LengthFrom(0, s[1..]).rest));
  }

  lemma PublishSettled(p: PublishFields, n: nat, t: Str)
    requires |t| <= n && PublishFrom(PublishTopic(NoString), p, 0, n, t).Whole?
    ensures var p' := PublishFrom(PublishTopic(NoString), p, 0, n, t).value;
      Fits16(p'.topic) && WildcardFree(p'.topic) && p'.id == p.id && |p'.payload| > |p.payload|
  {
    StringShort(t);
    var (s, r) := StringFrom(NoString, t).value;
    assert PublishFrom(PublishPayload, p.(topic := s), 0, Left(n, t, r), r).Whole?;
  }

  lemma LengthDelivered(mem: Memory, first: Byte, t: Str)
    requires Counted(first / 16) && Decode(mem, [first] + t).Done?
    ensures var l := LengthFrom(0, t);
      && l.LengthDone? && l.value <= |l.rest|
      && Decode(mem, [first] + t).header.length == l.value && Decode(mem, [first] + t).rest == l.rest[l.value..]
  {
    assert ([first] + t)[1..] == t;
    DoneConsumes(mem, [first] + t);
  }

  /** A declared length that arrives is the real one, and below 128^4. */
  lemma SizeArrives(mem: Memory, first: Byte, v: nat, body: Str)
    requires Counted(first / 16)
    requires var d := Decode(mem, [first] + EncodeLength(v) + body); d.Done? && d.rest == []
    ensures |body| == v < POW4
    ensures Decode(mem, [first] + EncodeLength(v) + body).header.length == v
  {
    var t := EncodeLength(v) + body;
    Assoc([first], EncodeLength(v), body);
    LengthDelivered(mem, first, t);
    LengthArrives(v, body);
    assert |body[v..]| == 0;
  }

  lemma LengthArrives(v: nat, body: Str)
    requires LengthFrom(0, EncodeLength(v) + body).LengthDone?
    ensures v < POW4 && LengthFrom(0, EncodeLength(v) + body) == LengthDone(v, body)
  {
    DecodeEncode(v, 0, body);
    ShortFieldMeansSmall(v);
  }

  lemma {:induction false} SubscribeSettled(stage: SubscribeStage, p: SubscribeFields, n: nat, t: Str)
    requires |t| <= n
    requires (stage.SubscribeFilter? ==> stage.sp == NoString) && (stage.SubscribeQoS? ==> Fits16(stage.filter))
    requires SubscribeFrom(stage, p, n, t).Whole?
    ensures var p' := SubscribeFrom(stage, p, n, t).value;
      p'.filters != {} && forall f | f in p'.filters :: f in p.filters || FilterSendable(f)
    decreases |t|, match stage case SubscribeId(_) => 2 case SubscribeFilter(_) => 1 case SubscribeQoS(_) => 0
  {
    match stage
    case SubscribeId(ip) =>
      var (id, r) := IdFrom(ip, t).value;
      SubscribeSettled(SubscribeFilter(NoString), p.(id := id), Left(n, t, r), r);
    case SubscribeFilter(sp) =>
      StringShort(t);
      var (s, r) := StringFrom(sp, t).value;
      SubscribeSettled(SubscribeQoS(s), p, Left(n, t, r), r);
    case SubscribeQoS(filter) =>
      var f := TopicFilter(filter, t[0]);
      var p' := p.(filters := p.filters + {f});
      assert f in p'.filters && FilterSendable(f);
      if n > 1 {
        SubscribeSettled(SubscribeFilter(NoString), p', n - 1, t[1..]);
      }
  }

  lemma SubscribeArrivesSendable(id: Id, filters: seq<TopicFilter>, uuid: Str)
    requires Arrives(Subscribe(id, filters), uuid, [])
    ensures Sendable(Subscribe(id, filters))
  {
    var p: ControlPacket := Subscribe(id, filters);
    var mem := Fresh(uuid);
    var body := IdBytes(id) + FilterBytes(filters);
    var s := Wire(p) + [];
    assert s == [130] + EncodeLength(|body| % UINT32) + body;
    SizeArrives(mem, 130, |body| % UINT32, body);
    var h := Decode(mem, s).header;
    assert filters == [] ==> Elements(filters) == {};
    SubscribeSettled(SubscribeId(NoId), mem.subscribe, h.length, Upto(h.length, LengthFrom(0, s[1..]).rest));
    forall f | f in filters ensures FilterSendable(f) {
      assert f in Elements(filters);
    }
  }

  lemma {:induction false} SubAckSettled(p: SubAckFields, n: nat, t: Str)
    requires |t| <= n && SubAckFrom(SubAckQoS, p, n, t).Whole?
    ensures var p' := SubAckFrom(SubAckQoS, p, n, t).value;
      && |p'.levels| == |p.levels| + n && p.levels <= p'.levels
      && forall i | |p.levels| <= i < |p'.levels| :: p'.levels[i] <= 2
    decreases n
  {
    var p' := p.(levels := p.levels + [t[0]]);
    if n > 1 {
      SubAckSettled(p', n - 1, t[1..]);
    }
  }

  lemma OneByteField(s: Str, v: nat)
    requires Field(s, 1, v)
    ensures s[0] < 128 && v == s[0]
  {
    assert s[..1] == [s[0]] && [s[0]][1..] == [];
    assert LittleEndian([s[0]]) == s[0] % 128 + 128 * LittleEndian([]);
  }

  lemma SubAckDelivered(mem: Memory, s: Str)
    requires Decode(mem, s).Done? && s != [] && s[0] == 144
    ensures var l, h := LengthFrom(0, s[1..]), Decode(mem, s).header;
      && l.LengthDone? && h.kind == SUBACK
      && Decode(mem, s)
         == InStream(SubAckBody(SubAckFrom(SubAckId(NoId), mem.subAck, h.length, Upto(h.length, l.rest))),
                     h.length, l.rest, h)
  {
    DoneConsumes(mem, s);
  }

  lemma SubAckArrivesSendable(id: Id, levels: seq<nat>, uuid: Str)
    requires Arrives(SubAck(id, levels), uuid, [])
    ensures Sendable(SubAck(id, levels))
  {
    var p: ControlPacket := SubAck(id, levels);
    var mem := Fresh(uuid);
    var s := Wire(p) + [];
    assert s[0] == 144 && s == Wire(p);
    var n := FramedAfter(mem, s);
    SubAckDelivered(mem, s);
    var h := Decode(mem, s).header;
    SubAckWhole(h.length, Upto(h.length, LengthFrom(0, s[1..]).rest));
    assert |s| == 4 + |levels| && h.length == 2 + |levels| && |s| == 1 + n + h.length;
    OneByteField(s[1..], h.length);
  }

  lemma SubAckWhole(n: nat, t: Str)
    requires |t| <= n && SubAckFrom(SubAckId(NoId), SubAckFields(0, []), n, t).Whole?
    ensures var p' := SubAckFrom(SubAckId(NoId), SubAckFields(0, []), n, t).value;
      n == 2 + |p'.levels| && forall l | l in p'.levels :: l <= 2
  {
    var (id, r) := IdFrom(NoId, t).value;
    IdSize(t);
    if Left(n, t, r) > 0 {
      SubAckSettled(SubAckFields(id, []), Left(n, t, r), r);
    }
  }

  lemma IdSize(t: Str)
    ensures IdFrom(NoId, t).Some? ==> |IdFrom(NoId, t).value.1| + 2 == |t|
  {
  }

  /** Only sendable packets arrive, even when nothing follows them. */
  lemma ArrivesSendable(p: ControlPacket, uuid: Str)
    requires uuid != [] && Fits16(uuid) && Arrives(p, uuid, [])
    ensures Sendable(p)
  {
    match p
    case Connect(c) => ConnectArrivesSendable(c, uuid);
    case Publish(topic, id, payload) => PublishArrivesSendable(topic, id, payload, uuid);
    case Subscribe(id, filters) => SubscribeArrivesSendable(id, filters, uuid);
    case SubAck(id, levels) => SubAckArrivesSendable(id, levels, uuid);
    case ConnAck(s, r) => ConnAckDecoded(Fresh(uuid), s, r, []);
    case PingReq =>
    case PingResp =>
    case Disconnect =>
  }

  /** Round trip, in both directions: a packet arrives unchanged at a fresh parser, whatever
      follows it, exactly when it is sendable. */
  lemma RoundTripExact(p: ControlPacket, uuid: Str)
    requires uuid != [] && Fits16(uuid)
    ensures (forall rest :: Arrives(p, uuid, rest)) <==> Sendable(p)
  {
    if Sendable(p) {
      forall rest ensures Arrives(p, uuid, rest) {
        SendableArrives(p, uuid, rest);
      }
    }
    if Arrives(p, uuid, []) {
      ArrivesSendable(p, uuid);
    }
  }
}
