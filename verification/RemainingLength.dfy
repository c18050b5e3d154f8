/** The remaining-length field: section 2.2.3 of MQTT 3.1.1. */
module RemainingLength {
  import opened Common
  import opened Packets

  const UINT32 := 0x1_0000_0000
  const POW4 := 128 * 128 * 128 * 128

  function Pow128(k: nat): (p: nat)
    ensures p >= 1
  {
    if k == 0 then 1 else 128 * Pow128(k - 1)
  }

  /** Seven bits a byte, least significant first; the top bit says that more follow. */
  function EncodeLength(v: nat): (bytes: Str)
    ensures |bytes| >= 1
  {
    if v < 128 then [v] else [v % 128 + 128] + EncodeLength(v / 128)
  }

  datatype LengthRead =
    | LengthMore
    | LengthBad(rest: Str)
    | LengthDone(value: nat, rest: Str)

  /** Reading the field after `k` of its bytes; a fifth byte is always an error. */
  function LengthFrom(k: nat, s: Str): LengthRead
    decreases s
  {
    if s == [] then LengthMore
    else if k >= 4 then LengthBad(s[1..])
    else if s[0] < 128 then LengthDone(s[0], s[1..])
    else
      match LengthFrom(k + 1, s[1..])
      case LengthDone(v, rest) => LengthDone(s[0] - 128 + 128 * v, rest)
      case other => other
  }

  /** The value the bytes stand for, read without any machine limits. */
  function LittleEndian(s: Str): nat {
    if s == [] then 0 else s[0] % 128 + 128 * LittleEndian(s[1..])
  }

  class RunlengthDecoder {
    var multiplier: nat
    var value: nat
    ghost var count: nat

    ghost predicate Valid()
      reads this
    {
      count <= 4 && multiplier == Pow128(count) && value < multiplier
    }

    /** What the bytes `t` will complete to, after those already decoded. */
    ghost function Rest(t: Str): LengthRead
      reads this
    {
      match LengthFrom(count, t)
      case LengthDone(v, rest) => LengthDone(value + multiplier * v, rest)
      case other => other
    }

    constructor ()
      ensures Valid() && count == 0
      ensures forall t :: Rest(t) == LengthFrom(0, t)
    {
      multiplier := 1;
      value := 0;
      count := 0;
    }

    method Reset()
      modifies this
      ensures Valid() && count == 0
      ensures forall t :: Rest(t) == LengthFrom(0, t)
    {
      multiplier := 1;
      value := 0;
      count := 0;
    }

    /** `decode` in 32-bit unsigned arithmetic; `tail` is whatever comes after the byte. */
    method Decode(byte: Byte, ghost tail: Str) returns (code: int, v: nat, ec: ErrorCode)
      requires Valid()
      modifies this
      ensures code == 1 ==> old(Rest([byte] + tail)) == LengthDone(v, tail)
      ensures code == 0 ==> Valid() && old(Rest([byte] + tail)) == Rest(tail)
      ensures code == -1 ==> old(Rest([byte] + tail)) == LengthBad(tail)
      ensures code in {1, 0, -1} && (ec == if code == -1 then MalformedRemainingLength else NoError)
    {
      assert ([byte] + tail)[1..] == tail;
      DigitAdded(count, value, multiplier, byte, LengthFrom(count + 1, tail));
      value := (value + byte % 128 * multiplier) % UINT32;
      if multiplier > 128 * 128 * 128 {
        return -1, 0, MalformedRemainingLength;
      }
      multiplier := (multiplier * 128) % UINT32;
      count := count + 1;
      if byte >= 128 {
        return 0, value, NoError;
      }
      return 1, value, NoError;
    }
  }

  /** One more digit: no 32-bit operation wraps before the fifth byte is refused. */
  lemma DigitAdded(k: nat, value: nat, m: nat, byte: Byte, next: LengthRead)
    requires k <= 4 && m == Pow128(k) && value < m
    ensures m > 128 * 128 * 128 <==> k == 4
    ensures k < 4 ==>
      && m * 128 == Pow128(k + 1) && (m * 128) % UINT32 == m * 128
      && (value + byte % 128 * m) % UINT32 == value + byte % 128 * m
      && value + byte % 128 * m < m * 128
      && (byte < 128 ==> value + byte % 128 * m == value + m * byte)
      && (byte >= 128 && next.LengthDone? ==>
            value + m * (byte - 128 + 128 * next.value) == value + byte % 128 * m + m * 128 * next.value)
  {
    PowersOf128();
    if k == 0 {
      assert m == 1;
    } else if k == 1 {
      assert m == 128;
    } else if k == 2 {
      assert m == 16384;
    } else if k == 3 {
      assert m == 2097152;
    }
  }

  lemma PowersOf128()
    ensures Pow128(0) == 1 && Pow128(1) == 128 && Pow128(2) == 128 * 128
    ensures Pow128(3) == 128 * 128 * 128 && Pow128(4) == POW4
  {
    assert Pow128(1) == 128 * Pow128(0);
    assert Pow128(2) == 128 * Pow128(1);
    assert Pow128(3) == 128 * Pow128(2);
    assert Pow128(4) == 128 * Pow128(3);
  }

  /** `RunlengthEncoder::encode`: writes the field in place and moves the index behind it. */
  method Encode(value: nat, buffer: array<Byte>, index: nat) returns (index': nat)
    requires index + |EncodeLength(value)| <= buffer.Length
    modifies buffer
    ensures index' == index + |EncodeLength(value)|
    ensures buffer[..index'] == old(buffer[..index]) + EncodeLength(value)
  {
    var v := value;
    index' := index;
    ghost var written: Str := [];
    var more := true;
    while more
      invariant index <= index' <= buffer.Length && |written| == index' - index
      invariant more ==> EncodeLength(value) == written + EncodeLength(v)
      invariant !more ==> EncodeLength(value) == written
      invariant buffer[..index'] == old(buffer[..index]) + written
      decreases more, v
    {
      EncodeStep(v, written);
      var encoded: Byte := v % 128;
      v := v / 128;
      if v > 0 {
        encoded := encoded + 128;
      }
      buffer[index'] := encoded;
      assert buffer[..index' + 1] == buffer[..index'] + [encoded];
      index' := index' + 1;
      written := written + [encoded];
      more := v > 0;
    }
  }

  /** One more byte of the field behind those already written. */
  lemma EncodeStep(v: nat, written: Str)
    ensures v >= 128 ==> written + EncodeLength(v) == written + [v % 128 + 128] + EncodeLength(v / 128)
    ensures v < 128 ==> written + EncodeLength(v) == written + [v]
  {
    assert v >= 128 ==> EncodeLength(v) == [v % 128 + 128] + EncodeLength(v / 128);
  }

  /** The field is as short as possible: `k` bytes exactly for values of `k` base-128 digits. */
  lemma {:induction false} EncodedLengthIsMinimal(v: nat)
    ensures v < Pow128(|EncodeLength(v)|)
    ensures |EncodeLength(v)| > 1 ==> Pow128(|EncodeLength(v)| - 1) <= v
  {
    if v >= 128 {
      EncodedLengthIsMinimal(v / 128);
      assert |EncodeLength(v)| == 1 + |EncodeLength(v / 128)|;
    }
  }

  lemma OneByteField(v: nat)
    ensures |EncodeLength(v)| == 1 <==> v < 128
  {
  }

  lemma DropOneMore(s: Str, n: nat)
    requires 0 < n <= |s|
    ensures s[1..][n - 1..] == s[n..]
  {
  }

  /** Decoding undoes encoding exactly for values below 128^4; larger ones are refused. */
  lemma {:induction false} DecodeEncode(v: nat, k: nat, rest: Str)
    requires k <= 4
    ensures LengthFrom(k, EncodeLength(v) + rest) ==
      if k + |EncodeLength(v)| <= 4 then LengthDone(v, rest)
      else LengthBad((EncodeLength(v) + rest)[5 - k..])
    decreases v
  {
    var s := EncodeLength(v) + rest;
    if v < 128 {
      assert s[1..] == rest;
    } else {
      assert s[1..] == EncodeLength(v / 128) + rest;
      if k < 4 {
        DecodeEncode(v / 128, k + 1, rest);
        if k + |EncodeLength(v)| > 4 {
          DropOneMore(s, 5 - k);
        }
      }
    }
  }

  lemma {:induction false} ShortFieldMeansSmall(v: nat)
    ensures |EncodeLength(v)| <= 4 <==> v < POW4
  {
    EncodedLengthIsMinimal(v);
    PowersOf128();
    var n := |EncodeLength(v)|;
    if n > 4 {
      PowGrows(4, n - 1);
    } else {
      PowGrows(n, 4);
    }
  }

  lemma {:induction false} PowGrows(a: nat, b: nat)
    requires a <= b
    ensures Pow128(a) <= Pow128(b)
    decreases b
  {
    if a < b {
      PowGrows(a, b - 1);
    }
  }

  /** The first `n` bytes of `s` are a whole length field of value `v`. */
  ghost predicate Field(s: Str, n: nat, v: nat) {
    && 0 < n <= |s|
    && (forall i | 0 <= i < n - 1 :: s[i] >= 128) && s[n - 1] < 128
    && v == LittleEndian(s[..n])
  }

  lemma FieldStep(s: Str, n: nat, v: nat)
    requires s != [] && s[0] >= 128 && n > 0
    ensures Field(s, n + 1, s[0] - 128 + 128 * v) <==> Field(s[1..], n, v)
  {
    if n < |s| {
      assert s[..n + 1][1..] == s[1..][..n] && s[..n + 1][0] == s[0];
      assert forall i | 0 <= i < n :: s[i + 1] == s[1..][i];
      if Field(s, n + 1, s[0] - 128 + 128 * v) {
        assert forall i | 0 <= i < n - 1 :: s[1..][i] == s[i + 1];
      }
    }
  }

  lemma {:induction false} AcceptedField(k: nat, s: Str) returns (n: nat)
    requires k <= 4 && LengthFrom(k, s).LengthDone?
    ensures n + k <= 4 && Field(s, n, LengthFrom(k, s).value) && LengthFrom(k, s).rest == s[n..]
    decreases s
  {
    if s[0] < 128 {
      n := 1;
      assert s[..1] == [s[0]];
      assert s[..1][1..] == [];
    } else {
      n := AcceptedField(k + 1, s[1..]);
      FieldStep(s, n, LengthFrom(k + 1, s[1..]).value);
      n := n + 1;
    }
  }

  lemma {:induction false} FieldAccepted(k: nat, s: Str, n: nat, v: nat)
    requires n + k <= 4 && Field(s, n, v)
    ensures LengthFrom(k, s) == LengthDone(v, s[n..])
    decreases s
  {
    if n == 1 {
      var one := s[..1];
      assert one == [s[0]] && one[1..] == [];
      assert LittleEndian(one) == s[0] % 128 + 128 * LittleEndian(one[1..]);
      assert LittleEndian(one[1..]) == 0 && s[0] < 128;
    } else {
      assert s[..n][1..] == s[1..][..n - 1] && s[..n][0] == s[0];
      var v' := LittleEndian(s[1..][..n - 1]);
      FieldStep(s, n - 1, v');
      FieldAccepted(k + 1, s[1..], n - 1, v');
    }
  }

  /** Whatever bytes come in: a field is accepted exactly when it has at most four bytes,
      correctly marked, and its value is the one they stand for - nothing has wrapped. */
  lemma AcceptedLengthExact(s: Str, v: nat, rest: Str)
    ensures LengthFrom(0, s) == LengthDone(v, rest) <==>
      exists n: nat :: n <= 4 && Field(s, n, v) && rest == s[n..]
  {
    if LengthFrom(0, s) == LengthDone(v, rest) {
      var n := AcceptedField(0, s);
      assert n <= 4 && Field(s, n, v) && rest == s[n..];
    }
    if n: nat :| n <= 4 && Field(s, n, v) && rest == s[n..] {
      FieldAccepted(0, s, n, v);
    }
  }
}
