/** The bytes of a packet, and the serializer that writes them into a buffer in place. */
module Serializers {
  import opened Common
  import opened Topics
  import opened Packets
  import opened RemainingLength

  /** The 16-bit length is truncated, the characters are not. */
  function StringBytes(s: Str): Str {
    [|s| % 65536 / 256, |s| % 256] + s
  }

  function IdBytes(id: Id): Str {
    [id / 256, id % 256]
  }

  function Weight(b: bool, w: nat): nat {
    if b then w else 0
  }

  function FlagsByte(c: ConnectFields): Byte {
    Weight(c.userNameFlag, 128) + Weight(c.passwordFlag, 64) + Weight(c.willRetain, 32)
    + c.willQoS % 4 * 8 + Weight(c.willFlag, 4) + Weight(c.cleanSession, 2)
  }

  const CONNECT_HEAD: Str := [0, 4, 77, 81, 84, 84, 4]

  function WillBytes(c: ConnectFields): Str {
    if c.willFlag then StringBytes(c.willTopic) + StringBytes(c.willMessage) else []
  }

  function UserBytes(c: ConnectFields): Str {
    if c.userNameFlag then StringBytes(c.userName) else []
  }

  function PasswordBytes(c: ConnectFields): Str {
    if c.passwordFlag then StringBytes(c.password) else []
  }

  function FixedBytes(c: ConnectFields): Str {
    CONNECT_HEAD + [FlagsByte(c)] + IdBytes(c.keepAlive)
  }

  function OptionalBytes(c: ConnectFields): Str {
    WillBytes(c) + UserBytes(c) + PasswordBytes(c)
  }

  function ConnectBytes(c: ConnectFields): Str {
    FixedBytes(c) + StringBytes(c.clientId) + OptionalBytes(c)
  }

  function FilterBytes(filters: seq<TopicFilter>): Str {
    if filters == [] then []
    else
      FilterBytes(filters[..|filters| - 1]) +
      (StringBytes(filters[|filters| - 1].filter) + [filters[|filters| - 1].qos % 256])
  }

  function LevelBytes(levels: seq<nat>): (bytes: Str)
    ensures |bytes| == |levels|
  {
    if levels == [] then [] else LevelBytes(levels[..|levels| - 1]) + [levels[|levels| - 1] % 256]
  }

  function Body(p: ControlPacket): Str {
    match p
    case Connect(c) => ConnectBytes(c)
    case ConnAck(s, r) => [s % 256, r % 256]
    case Publish(t, _, b) => StringBytes(t) + b
    case Subscribe(id, fs) => IdBytes(id) + FilterBytes(fs)
    case SubAck(id, ls) => IdBytes(id) + LevelBytes(ls)
    case _ => []
  }

  /** The first byte and the length field; the declared length is a 32-bit number, for SUBACK
      a single byte. */
  function HeaderBytes(p: ControlPacket): Str {
    match p
    case Connect(_) => [16] + EncodeLength(|Body(p)| % UINT32)
    case ConnAck(_, _) => [32, 2]
    case Publish(_, _, _) => [48] + EncodeLength(|Body(p)| % UINT32)
    case Subscribe(_, _) => [130] + EncodeLength(|Body(p)| % UINT32)
    case SubAck(_, ls) => [144, (2 + |ls| % 256) % 256]
    case PingReq => []
    case PingResp => [208, 0]
    case Disconnect => [224, 0]
  }

  predicate Serializable(p: ControlPacket) {
    !p.PingReq?
  }

  function Wire(p: ControlPacket): Str {
    HeaderBytes(p) + Body(p)
  }

  function WireAll(ps: seq<ControlPacket>): Str {
    if ps == [] then [] else Wire(ps[0]) + WireAll(ps[1..])
  }

  lemma {:induction false} WireAllSnoc(ps: seq<ControlPacket>, p: ControlPacket)
    ensures WireAll(ps + [p]) == WireAll(ps) + Wire(p)
    decreases |ps|
  {
    if ps == [] {
      assert [p][1..] == [] && Wire(p) + [] == Wire(p);
      assert ps + [p] == [p];
    } else {
      assert (ps + [p])[1..] == ps[1..] + [p];
      WireAllSnoc(ps[1..], p);
      Assoc(Wire(ps[0]), WireAll(ps[1..]), Wire(p));
    }
  }

  /** The buffer size the serializer asks for before it writes. */
  function Reserved(p: ControlPacket): nat {
    match p
    case Connect(_) => (|Body(p)| + 2) % UINT32
    case Publish(_, _, _) => (|Body(p)| + 2) % UINT32
    case Subscribe(_, _) => (|Body(p)| + 2) % UINT32
    case SubAck(_, ls) => |ls| + 2
    case ConnAck(_, _) => 4
    case _ => 2
  }

  predicate Fits(p: ControlPacket, size: nat) {
    |Wire(p)| <= size || |Wire(p)| <= Reserved(p)
  }

  /** The space asked for is enough exactly when the length field is one byte; a SUBACK always
      relies on the buffer being large already. */
  lemma FitsExactly(p: ControlPacket, size: nat)
    requires p.Connect? || p.Publish? || p.Subscribe? || p.SubAck?
    requires |Body(p)| + 2 < UINT32
    ensures Fits(p, size) <==> size >= |Wire(p)| || (!p.SubAck? && |Body(p)| < 128)
  {
    var body := Body(p);
    if p.SubAck? {
      assert |body| == |p.levels| + 2;
    } else {
      FieldSize(body, HeaderBytes(p), Reserved(p));
    }
  }

  lemma FieldSize(body: Str, header: Str, reserved: nat)
    requires |body| + 2 < UINT32 && |header| == 1 + |EncodeLength(|body| % UINT32)| && reserved == (|body| + 2) % UINT32
    ensures |header + body| <= reserved <==> |body| < 128
  {
    var n := |body|;
    assert n % UINT32 == n && (n + 2) % UINT32 == n + 2 by {
      BelowUint32(n);
      BelowUint32(n + 2);
    }
    OneByteField(n);
    assert |header + body| == 1 + |EncodeLength(n)| + n;
  }

  lemma BelowUint32(n: nat)
    requires n < UINT32
    ensures n % UINT32 == n
  {
  }

  lemma Assoc(a: Str, b: Str, c: Str)
    ensures a + (b + c) == (a + b) + c
  {
  }

  // ---------------------------------------------------------------- writing

  method Put(b: Byte, buffer: array<Byte>, index: nat) returns (index': nat)
    requires index < buffer.Length
    modifies buffer
    ensures index' == index + 1 && buffer[..index'] == old(buffer[..index]) + [b]
  {
    buffer[index] := b;
    index' := index + 1;
    assert buffer[..index'] == buffer[..index] + [b];
  }

  method PutAll(bytes: Str, buffer: array<Byte>, index: nat) returns (index': nat)
    requires index + |bytes| <= buffer.Length
    modifies buffer
    ensures index' == index + |bytes| && buffer[..index'] == old(buffer[..index]) + bytes
  {
    index' := index;
    for i := 0 to |bytes|
      invariant index' == index + i
      invariant buffer[..index'] == old(buffer[..index]) + bytes[..i]
    {
      assert bytes[..i + 1] == bytes[..i] + [bytes[i]];
      index' := Put(bytes[i], buffer, index');
    }
    assert bytes[..|bytes|] == bytes;
  }

  method PutId(id: Id, buffer: array<Byte>, index: nat) returns (index': nat)
    requires index + 2 <= buffer.Length
    modifies buffer
    ensures index' == index + 2 && buffer[..index'] == old(buffer[..index]) + IdBytes(id)
  {
    index' := Put(id / 256, buffer, index);
    index' := Put(id % 256, buffer, index');
    assert old(buffer[..index]) + [id / 256] + [id % 256] == old(buffer[..index]) + IdBytes(id);
  }

  /** `StringEncoder::encode`. */
  method PutString(s: Str, buffer: array<Byte>, index: nat) returns (index': nat)
    requires index + |StringBytes(s)| <= buffer.Length
    modifies buffer
    ensures index' == index + |StringBytes(s)| && buffer[..index'] == old(buffer[..index]) + StringBytes(s)
  {
    var length := |s| % 65536;
    index' := PutId(length, buffer, index);
    index' := PutAll(s, buffer, index');
    assert StringBytes(s) == IdBytes(length) + s;
    Assoc(old(buffer[..index]), IdBytes(length), s);
  }

  method PutFilters(filters: seq<TopicFilter>, buffer: array<Byte>, index: nat) returns (index': nat)
    requires index + |FilterBytes(filters)| <= buffer.Length
    modifies buffer
    ensures index' == index + |FilterBytes(filters)|
    ensures buffer[..index'] == old(buffer[..index]) + FilterBytes(filters)
  {
    index' := index;
    for i := 0 to |filters|
      invariant index' == index + |FilterBytes(filters[..i])| <= buffer.Length
      invariant buffer[..index'] == old(buffer[..index]) + FilterBytes(filters[..i])
    {
      ghost var before := FilterBytes(filters[..i]);
      assert filters[..i + 1][..i] == filters[..i];
      FilterBytesGrow(filters, i + 1);
      index' := PutString(filters[i].filter, buffer, index');
      index' := Put(filters[i].qos % 256, buffer, index');
      Assoc(old(buffer[..index]) + before, StringBytes(filters[i].filter), [filters[i].qos % 256]);
      Assoc(old(buffer[..index]), before, StringBytes(filters[i].filter) + [filters[i].qos % 256]);
    }
    assert filters[..|filters|] == filters;
  }

  lemma {:induction false} FilterBytesGrow(filters: seq<TopicFilter>, n: nat)
    requires n <= |filters|
    ensures |FilterBytes(filters[..n])| <= |FilterBytes(filters)|
    decreases |filters|
  {
    if n == |filters| {
      assert filters[..n] == filters;
    } else {
      var shorter := filters[..|filters| - 1];
      FilterBytesGrow(shorter, n);
      assert shorter[..n] == filters[..n];
    }
  }

  method PutLevels(levels: seq<nat>, buffer: array<Byte>, index: nat) returns (index': nat)
    requires index + |levels| <= buffer.Length
    modifies buffer
    ensures index' == index + |levels| && buffer[..index'] == old(buffer[..index]) + LevelBytes(levels)
  {
    index' := index;
    for i := 0 to |levels|
      invariant index' == index + i
      invariant buffer[..index'] == old(buffer[..index]) + LevelBytes(levels[..i])
    {
      assert levels[..i + 1][..i] == levels[..i];
      index' := Put(levels[i] % 256, buffer, index');
    }
    assert levels[..|levels|] == levels;
  }

  /** `std::vector::resize` when the buffer is too small. */
  method Grow(buffer: array<Byte>, size: nat) returns (b: array<Byte>)
    ensures b.Length == if buffer.Length < size then size else buffer.Length
    ensures b == buffer || fresh(b)
  {
    b := buffer;
    if buffer.Length < size {
      b := new Byte[size](i requires 0 <= i reads buffer => if i < buffer.Length then buffer[i] else 0);
    }
  }

  method Flags(c: ConnectFields) returns (flags: Byte)
    ensures flags == FlagsByte(c)
  {
    var sum := 0;
    if c.userNameFlag {
      sum := sum + 128;
    }
    if c.passwordFlag {
      sum := sum + 64;
    }
    if c.willRetain {
      sum := sum + 32;
    }
    sum := sum + c.willQoS % 4 * 8;
    if c.willFlag {
      sum := sum + 4;
    }
    if c.cleanSession {
      sum := sum + 2;
    }
    flags := sum;
  }

  method PutOptional(c: ConnectFields, buffer: array<Byte>, index: nat) returns (index': nat)
    requires index + |OptionalBytes(c)| <= buffer.Length
    modifies buffer
    ensures index' == index + |OptionalBytes(c)| && buffer[..index'] == old(buffer[..index]) + OptionalBytes(c)
  {
    ghost var start := buffer[..index];
    index' := index;
    if c.willFlag {
      index' := PutString(c.willTopic, buffer, index');
      index' := PutString(c.willMessage, buffer, index');
    }
    assert buffer[..index'] == start + WillBytes(c) by {
      if c.willFlag {
        Assoc(start, StringBytes(c.willTopic), StringBytes(c.willMessage));
      } else {
        assert start + [] == start;
      }
    }
    if c.userNameFlag {
      index' := PutString(c.userName, buffer, index');
    }
    assert buffer[..index'] == start + WillBytes(c) + UserBytes(c) by {
      assert start + WillBytes(c) + [] == start + WillBytes(c);
    }
    if c.passwordFlag {
      index' := PutString(c.password, buffer, index');
    }
    assert buffer[..index'] == start + WillBytes(c) + UserBytes(c) + PasswordBytes(c) by {
      assert start + WillBytes(c) + UserBytes(c) + [] == start + WillBytes(c) + UserBytes(c);
    }
    Assoc(start, WillBytes(c) + UserBytes(c), PasswordBytes(c));
    Assoc(start, WillBytes(c), UserBytes(c));
  }

  method PutFixed(c: ConnectFields, buffer: array<Byte>, index: nat) returns (index': nat)
    requires index + |FixedBytes(c)| <= buffer.Length
    modifies buffer
    ensures index' == index + |FixedBytes(c)| && buffer[..index'] == old(buffer[..index]) + FixedBytes(c)
  {
    ghost var start := buffer[..index];
    index' := PutAll(CONNECT_HEAD, buffer, index);
    var flags := Flags(c);
    index' := Put(flags, buffer, index');
    index' := PutId(c.keepAlive, buffer, index');
    Assoc(start, CONNECT_HEAD + [FlagsByte(c)], IdBytes(c.keepAlive));
    Assoc(start, CONNECT_HEAD, [FlagsByte(c)]);
  }

  method PutConnect(c: ConnectFields, buffer: array<Byte>, index: nat) returns (index': nat)
    requires index + |ConnectBytes(c)| <= buffer.Length
    modifies buffer
    ensures index' == index + |ConnectBytes(c)| && buffer[..index'] == old(buffer[..index]) + ConnectBytes(c)
  {
    ghost var start := buffer[..index];
    index' := PutFixed(c, buffer, index);
    index' := PutString(c.clientId, buffer, index');
    index' := PutOptional(c, buffer, index');
    Assoc(start, FixedBytes(c) + StringBytes(c.clientId), OptionalBytes(c));
    Assoc(start, FixedBytes(c), StringBytes(c.clientId));
  }

  /** `Serializer::serialize`. Where the code reserves too little (see `FitsExactly`) it writes
      on beyond the end of the buffer, which has no defined outcome: the answer is `overrun`. The
      code writes the bytes of the packet one behind the other from index 0 on, so a write beyond
      the end happens exactly when the packet is longer than the buffer, and `overrun` can be
      decided before the first byte is written. */
  method Serialize(p: ControlPacket, buffer: array<Byte>)
    returns (ok: bool, out: array<Byte>, length: nat, ec: ErrorCode, overrun: bool)
    modifies buffer
    ensures overrun <==> !Fits(p, buffer.Length)
    ensures !overrun ==> (ok <==> Serializable(p))
    ensures !overrun ==> ec == if ok then NoError else FeatureNotImplemented
    ensures out == buffer || fresh(out)
    ensures out.Length == if Serializable(p) && buffer.Length < Reserved(p) then Reserved(p) else buffer.Length
    ensures ok ==> !overrun && length == |Wire(p)| && length <= out.Length && out[..length] == Wire(p)
  {
    if p.PingReq? {
      return false, buffer, 0, FeatureNotImplemented, false;
    }
    out := Grow(buffer, Reserved(p));
    length := 0;
    if out.Length < |Wire(p)| {
      return false, out, 0, NoError, true;
    }
    ok, ec, overrun := true, NoError, false;
    match p
    case Connect(c) => length := SerializeConnect(c, out);
    case Publish(_, _, _) => length := SerializePublish(p, out);
    case Subscribe(_, _) => length := SerializeSubscribe(p, out);
    case SubAck(_, _) => length := SerializeSubAck(p, out);
    case ConnAck(_, _) => length := PutAll(Wire(p), out, 0);
    case PingResp => length := PutAll(Wire(p), out, 0);
    case Disconnect => length := PutAll(Wire(p), out, 0);
  }

  method SerializeConnect(c: ConnectFields, out: array<Byte>) returns (length: nat)
    requires |Wire(Connect(c))| <= out.Length
    modifies out
    ensures length == |Wire(Connect(c))| && out[..length] == Wire(Connect(c))
  {
    ghost var p: ControlPacket := Connect(c);
    length := PutHeader(16, |ConnectBytes(c)| % UINT32, out, p);
    length := PutConnect(c, out, length);
  }

  method SerializePublish(p: ControlPacket, out: array<Byte>) returns (length: nat)
    requires p.Publish? && |Wire(p)| <= out.Length
    modifies out
    ensures length == |Wire(p)| && out[..length] == Wire(p)
  {
    length := PutHeader(48, (2 + |p.topic| + |p.payload|) % UINT32, out, p);
    length := PutString(p.topic, out, length);
    length := PutAll(p.payload, out, length);
    assert HeaderBytes(p) + StringBytes(p.topic) + p.payload == Wire(p);
  }

  method SerializeSubscribe(p: ControlPacket, out: array<Byte>) returns (length: nat)
    requires p.Subscribe? && |Wire(p)| <= out.Length
    modifies out
    ensures length == |Wire(p)| && out[..length] == Wire(p)
  {
    length := PutHeader(130, |Body(p)| % UINT32, out, p);
    length := PutId(p.subscribeId, out, length);
    length := PutFilters(p.filters, out, length);
    assert HeaderBytes(p) + IdBytes(p.subscribeId) + FilterBytes(p.filters) == Wire(p);
  }

  method SerializeSubAck(p: ControlPacket, out: array<Byte>) returns (length: nat)
    requires p.SubAck? && |Wire(p)| <= out.Length
    modifies out
    ensures length == |Wire(p)| && out[..length] == Wire(p)
  {
    length := Put(144, out, 0);
    length := Put((2 + |p.levels| % 256) % 256, out, length);
    length := PutId(p.subAckId, out, length);
    length := PutLevels(p.levels, out, length);
    assert [144] + [(2 + |p.levels| % 256) % 256] + IdBytes(p.subAckId) + LevelBytes(p.levels) == Wire(p);
  }

  method PutHeader(first: Byte, v: nat, out: array<Byte>, ghost p: ControlPacket) returns (length: nat)
    requires 1 + |EncodeLength(v)| <= out.Length && HeaderBytes(p) == [first] + EncodeLength(v)
    modifies out
    ensures length == |HeaderBytes(p)| && out[..length] == HeaderBytes(p)
  {
    length := Put(first, out, 0);
    length := Encode(v, out, length);
  }
}
