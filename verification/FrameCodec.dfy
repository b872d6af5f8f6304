/** The binary frame exchanged with the device process over its Unix-domain socket. */
module FrameCodec {

  type Byte = x: int | 0 <= x < 256

  const MAGIC: nat := 0x4F435331
  const PROTOCOL_VERSION: nat := 1
  const HEADER_SIZE: nat := 32
  const MAX_PAYLOAD_SIZE: nat := 1024 * 1024
  const FIRST_MESSAGE_TYPE: nat := 1
  const LAST_MESSAGE_TYPE: nat := 16

  type U16 = x: int | 0 <= x < 0x1_0000
  type U32 = x: int | 0 <= x < 0x1_0000_0000
  type U64 = x: int | 0 <= x < 0x1_0000_0000_0000_0000

  datatype Frame = Frame(
    version: U16,
    messageType: U16,
    flags: U32,
    requestId: U64,
    generation: U64,
    payload: seq<Byte>)

  datatype CodecError = UnsupportedVersion | PayloadTooLarge | Malformed

  datatype Coded<T> = Good(value: T) | Bad(error: CodecError)

  predicate KnownMessageType(t: nat)
  {
    FIRST_MESSAGE_TYPE <= t <= LAST_MESSAGE_TYPE
  }

  // ---------------------------------------------------------------- big-endian integers

  function Pow256(n: nat): (r: nat)
    ensures r >= 1
  {
    if n == 0 then 1 else 256 * Pow256(n - 1)
  }

  function BigEndian(value: nat, width: nat): (bs: seq<Byte>)
    ensures |bs| == width
  {
    if width == 0 then [] else BigEndian(value / 256, width - 1) + [value % 256]
  }

  function Value(bs: seq<Byte>): nat
  {
    if bs == [] then 0 else Value(bs[..|bs| - 1]) * 256 + bs[|bs| - 1]
  }

  lemma {:induction false} ValueOfBigEndian(value: nat, width: nat)
    requires value < Pow256(width)
    ensures Value(BigEndian(value, width)) == value
  {
    if width > 0 {
      ValueOfBigEndian(value / 256, width - 1);
      var bs := BigEndian(value, width);
      assert bs[..width - 1] == BigEndian(value / 256, width - 1);
    }
  }

  lemma {:induction false} BigEndianOfValue(bs: seq<Byte>)
    ensures BigEndian(Value(bs), |bs|) == bs && Value(bs) < Pow256(|bs|)
  {
    if bs != [] {
      BigEndianOfValue(bs[..|bs| - 1]);
    }
  }

  /** A quotient is determined by its bounds. */
  lemma QuotientIs(x: nat, y: nat, q: nat)
    requires y >= 1 && q * y <= x < q * y + y
    ensures x / y == q
  {
    var d := x / y;
    assert x == d * y + x % y;
    assert d > q ==> d * y >= (q + 1) * y;
    assert d < q ==> q * y >= (d + 1) * y;
  }

  lemma DivideTwice(x: nat, y: nat)
    requires y >= 1
    ensures (x / 256) / y == x / (256 * y)
  {
    var q := x / 256;
    var d := q / y;
    assert q == d * y + q % y;
    assert x == 256 * q + x % 256;
    assert d * (256 * y) == 256 * (d * y);
    QuotientIs(x, 256 * y, d);
  }

  /** The bytes come most significant first. */
  lemma {:induction false} ByteAt(value: nat, width: nat, i: nat)
    requires i < width
    ensures BigEndian(value, width)[i] == value / Pow256(width - 1 - i) % 256
  {
    if i < width - 1 {
      ByteAt(value / 256, width - 1, i);
      DivideTwice(value, Pow256(width - 2 - i));
    }
  }

  /** `value >> (8 * n)`. */
  function Shifted(value: nat, n: nat): nat
  {
    if n == 0 then value else Shifted(value, n - 1) / 256
  }

  lemma {:induction false} ShiftBound(value: nat, n: nat, width: nat)
    requires value < Pow256(width) && n <= width
    ensures Shifted(value, n) < Pow256(width - n)
  {
    if n > 0 { ShiftBound(value, n - 1, width); }
  }

  /** Most significant byte first. */
  method AppendBigEndian(output: seq<Byte>, value: nat, width: nat) returns (out: seq<Byte>)
    requires value < Pow256(width)
    ensures out == output + BigEndian(value, width)
  {
    out := output;
    var offset := width;
    ShiftBound(value, width, width);
    while offset > 0
      invariant 0 <= offset <= width
      invariant out == output + BigEndian(Shifted(value, offset), width - offset)
    {
      var byte := Shifted(value, offset - 1) % 256;
      out := out + [byte];
      offset := offset - 1;
    }
  }

  method ReadBigEndian(input: seq<Byte>, offset: nat, width: nat) returns (value: nat, next: nat)
    requires offset + width <= |input|
    ensures value == Value(input[offset..offset + width]) && next == offset + width
  {
    value := 0;
    for index := 0 to width
      invariant value == Value(input[offset..offset + index])
    {
      assert input[offset..offset + index + 1][..index] == input[offset..offset + index];
      value := value * 256 + input[offset + index];
    }
    next := offset + width;
  }

  // ---------------------------------------------------------------- frames

  /** The 32 header bytes followed by the payload. */
  function Bytes(f: Frame): seq<Byte>
  {
    BigEndian(MAGIC, 4) + BigEndian(f.version, 2) + BigEndian(f.messageType, 2) + BigEndian(f.flags, 4)
    + BigEndian(f.requestId, 8) + BigEndian(|f.payload|, 4) + BigEndian(f.generation, 8) + f.payload
  }

  function Encoded(f: Frame): Coded<seq<Byte>>
  {
    if f.version != PROTOCOL_VERSION then Bad(UnsupportedVersion)
    else if |f.payload| > MAX_PAYLOAD_SIZE then Bad(PayloadTooLarge)
    else Good(Bytes(f))
  }

  lemma Widths()
    ensures Pow256(2) == 0x1_0000 && Pow256(4) == 0x1_0000_0000 && Pow256(8) == 0x1_0000_0000_0000_0000
  {
    assert Pow256(1) == 256;
    assert Pow256(2) == 0x1_0000;
    assert Pow256(3) == 0x100_0000;
    assert Pow256(4) == 0x1_0000_0000;
    assert Pow256(5) == 0x100_0000_0000;
    assert Pow256(6) == 0x1_0000_0000_0000;
    assert Pow256(7) == 0x100_0000_0000_0000;
  }

  method Encode(f: Frame) returns (r: Coded<seq<Byte>>)
    ensures r == Encoded(f)
  {
    if f.version != PROTOCOL_VERSION {
      return Bad(UnsupportedVersion);
    }
    if |f.payload| > MAX_PAYLOAD_SIZE {
      return Bad(PayloadTooLarge);
    }
    Widths();
    var out: seq<Byte> := AppendBigEndian([], MAGIC, 4);
    assert out == BigEndian(MAGIC, 4);
    out := AppendBigEndian(out, f.version, 2);
    out := AppendBigEndian(out, f.messageType, 2);
    out := AppendBigEndian(out, f.flags, 4);
    out := AppendBigEndian(out, f.requestId, 8);
    out := AppendBigEndian(out, |f.payload|, 4);
    out := AppendBigEndian(out, f.generation, 8);
    ghost var header := out;
    for i := 0 to |f.payload|
      invariant out == header + f.payload[..i]
    {
      out := out + [f.payload[i]];
    }
    assert f.payload[..|f.payload|] == f.payload;
    r := Good(out);
  }

  /** What decoding accepts, and the frame it then returns. */
  function Decoded(bs: seq<Byte>): Coded<Frame>
  {
    if |bs| < HEADER_SIZE then Bad(Malformed)
    else if Value(bs[0..4]) != MAGIC then Bad(Malformed)
    else if Value(bs[4..6]) != PROTOCOL_VERSION then Bad(UnsupportedVersion)
    else if !KnownMessageType(Value(bs[6..8])) then Bad(Malformed)
    else if Value(bs[20..24]) > MAX_PAYLOAD_SIZE then Bad(PayloadTooLarge)
    else if |bs| != HEADER_SIZE + Value(bs[20..24]) then Bad(Malformed)
    else
      HeaderRanges(bs);
      Good(Frame(Value(bs[4..6]), Value(bs[6..8]), Value(bs[8..12]), Value(bs[12..20]), Value(bs[24..32]), bs[32..]))
  }

  lemma HeaderRanges(bs: seq<Byte>)
    requires |bs| >= HEADER_SIZE
    ensures Value(bs[4..6]) < 0x1_0000 && Value(bs[6..8]) < 0x1_0000 && Value(bs[8..12]) < 0x1_0000_0000
    ensures Value(bs[12..20]) < 0x1_0000_0000_0000_0000 && Value(bs[24..32]) < 0x1_0000_0000_0000_0000
  {
    Widths();
    BigEndianOfValue(bs[4..6]);
    BigEndianOfValue(bs[6..8]);
    BigEndianOfValue(bs[8..12]);
    BigEndianOfValue(bs[12..20]);
    BigEndianOfValue(bs[24..32]);
  }

  method Decode(bs: seq<Byte>) returns (r: Coded<Frame>)
    ensures r == Decoded(bs)
  {
    if |bs| < HEADER_SIZE {
      return Bad(Malformed);
    }
    HeaderRanges(bs);
    var magic, offset := ReadBigEndian(bs, 0, 4);
    var version, messageType, flags, requestId, length, generation;
    version, offset := ReadBigEndian(bs, offset, 2);
    messageType, offset := ReadBigEndian(bs, offset, 2);
    flags, offset := ReadBigEndian(bs, offset, 4);
    requestId, offset := ReadBigEndian(bs, offset, 8);
    length, offset := ReadBigEndian(bs, offset, 4);
    generation, offset := ReadBigEndian(bs, offset, 8);
    if magic != MAGIC {
      return Bad(Malformed);
    }
    if version != PROTOCOL_VERSION {
      return Bad(UnsupportedVersion);
    }
    if !KnownMessageType(messageType) {
      return Bad(Malformed);
    }
    if length > MAX_PAYLOAD_SIZE {
      return Bad(PayloadTooLarge);
    }
    if |bs| != HEADER_SIZE + length {
      return Bad(Malformed);
    }
    var payload: seq<Byte> := [];
    while offset < |bs|
      invariant HEADER_SIZE <= offset <= |bs|
      invariant payload == bs[32..offset]
    {
      payload := payload + [bs[offset]];
      offset := offset + 1;
    }
    assert bs[32..|bs|] == bs[32..];
    r := Good(Frame(version, messageType, flags, requestId, generation, payload));
  }

  // ---------------------------------------------------------------- bijection

  lemma Layout(f: Frame)
    ensures var b := Bytes(f);
      && |b| == HEADER_SIZE + |f.payload|
      && b[0..4] == BigEndian(MAGIC, 4) && b[4..6] == BigEndian(f.version, 2)
      && b[6..8] == BigEndian(f.messageType, 2) && b[8..12] == BigEndian(f.flags, 4)
      && b[12..20] == BigEndian(f.requestId, 8) && b[20..24] == BigEndian(|f.payload|, 4)
      && b[24..32] == BigEndian(f.generation, 8) && b[32..] == f.payload
  {
  }

  /** Decoding what was encoded returns the frame exactly when its message type is a known one:
      encoding does not look at the type, decoding refuses unknown values. */
  lemma DecodeEncode(f: Frame)
    requires Encoded(f).Good?
    ensures Decoded(Encoded(f).value) == if KnownMessageType(f.messageType) then Good(f) else Bad(Malformed)
  {
    Layout(f);
    Widths();
    ValueOfBigEndian(MAGIC, 4);
    ValueOfBigEndian(f.version, 2);
    ValueOfBigEndian(f.messageType, 2);
    ValueOfBigEndian(f.flags, 4);
    ValueOfBigEndian(f.requestId, 8);
    ValueOfBigEndian(|f.payload|, 4);
    ValueOfBigEndian(f.generation, 8);
  }

  lemma Split(bs: seq<Byte>)
    requires |bs| >= HEADER_SIZE
    ensures bs == bs[0..4] + bs[4..6] + bs[6..8] + bs[8..12] + bs[12..20] + bs[20..24] + bs[24..32] + bs[32..]
  {
  }

  /** Every byte string that decodes is re-encoded to the same bytes. */
  lemma EncodeDecode(bs: seq<Byte>)
    requires Decoded(bs).Good?
    ensures Encoded(Decoded(bs).value) == Good(bs)
  {
    Split(bs);
    BigEndianOfValue(bs[0..4]);
    BigEndianOfValue(bs[4..6]);
    BigEndianOfValue(bs[6..8]);
    BigEndianOfValue(bs[8..12]);
    BigEndianOfValue(bs[12..20]);
    BigEndianOfValue(bs[20..24]);
    BigEndianOfValue(bs[24..32]);
  }
}
