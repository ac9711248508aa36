/** The 540-byte form of a segment: a 28-byte big-endian header followed by 512 payload bytes. */
module WireFormat {
  import opened Segments
  import opened Segmentation

  const SEG_HEADER_SIZE: nat := 28
  const SEGMENT_DATA_SIZE: nat := 540

  const FLAG_MF: nat := 1
  const FLAG_CONTROL: nat := 2
  const FLAG_ACK: nat := 4

  /** `(flag & bit) != 0` for a power of two. */
  predicate HasFlag(flag: nat, bit: nat)
    requires bit > 0
  {
    (flag / bit) % 2 == 1
  }

  function SetFlag(flag: nat, bit: nat): nat
    requires bit > 0
  {
    if HasFlag(flag, bit) then flag else flag + bit
  }

  /** The receiver's view of a buffer. Overlong: more payload is announced than there is; reading it would fail. */
  datatype Received = Ack | Normal(segment: Segment) | Overlong(segment: Segment)

  function Decode(b: seq<byte>): Received
    requires |b| == SEGMENT_DATA_SIZE
  {
    var flag := ReadU32(b[8..]);
    var len := ReadU32(b[4..]);
    var cls, more := if HasFlag(flag, FLAG_CONTROL) then Control else Data, HasFlag(flag, FLAG_MF);
    if HasFlag(flag, FLAG_ACK) then Ack
    else if len > SEG_SIZE then Overlong(Segment(ReadU32(b), cls, more, b[SEG_HEADER_SIZE..]))
    else Normal(Segment(ReadU32(b), cls, more, b[SEG_HEADER_SIZE..SEG_HEADER_SIZE + len]))
  }

  ghost predicate Field(b: seq<byte>, offset: nat, value: nat)
    requires value < 0x1_0000_0000
  {
    offset + 4 <= |b| && b[offset..offset + 4] == U32(value)
  }

  function Flags(s: Segment): nat {
    (if s.more then FLAG_MF else 0) + (if s.cls == Control then FLAG_CONTROL else 0)
  }

  ghost predicate Sendable(s: Segment) {
    s.no < 0x1_0000_0000 && |s.payload| <= SEG_SIZE
  }

  /** The buffer describes `s`; timestamps and the bytes behind the payload are arbitrary. */
  ghost predicate Describes(b: seq<byte>, s: Segment)
    requires Sendable(s)
  {
    && |b| == SEGMENT_DATA_SIZE
    && Field(b, 0, s.no) && Field(b, 4, |s.payload|) && Field(b, 8, Flags(s))
    && b[SEG_HEADER_SIZE..SEG_HEADER_SIZE + |s.payload|] == s.payload
  }

  lemma FieldInverse(b: seq<byte>, offset: nat, value: nat)
    requires value < 0x1_0000_0000 && Field(b, offset, value)
    ensures ReadU32(b[offset..]) == value
  {
    assert b[offset..] == U32(value) + b[offset + 4..];
    U32Inverse(value, b[offset + 4..]);
  }

  lemma ReadIsBigEndian(b: seq<byte>, at: nat)
    requires at + 4 <= |b|
    ensures ReadU32(b[at..]) == BigEndian(b, at)
  {
    var t := b[at..];
    assert t[2..][0] == t[2] && t[2..][1] == t[3];
    assert forall k :: 0 <= k < 4 ==> t[k] == b[at + k];
  }

  lemma HighAndLow(high: nat, low: byte)
    ensures (256 * high + low as int) / 256 == high && (256 * high + low as int) % 256 == low as int
  {
  }

  lemma HalvesOf(high: nat, low: nat)
    requires low < 0x1_0000
    ensures (0x1_0000 * high + low) / 0x1_0000 == high && (0x1_0000 * high + low) % 0x1_0000 == low
  {
  }

  lemma BytesOfSum(a: byte, b: byte, c: byte, d: byte)
    ensures U32(16777216 * (a as int) + 65536 * (b as int) + 256 * (c as int) + d as int) == [a, b, c, d]
  {
    var high, low := 256 * (a as int) + b as int, 256 * (c as int) + d as int;
    HalvesOf(high, low);
    HighAndLow(a, b);
    HighAndLow(c, d);
    assert 16777216 * (a as int) + 65536 * (b as int) + low == 0x1_0000 * high + low;
  }

  /** The fields of the form, byte by byte. */
  lemma FieldIsBigEndian(b: seq<byte>, offset: nat, value: nat)
    requires value < 0x1_0000_0000 && offset + 4 <= |b|
    ensures Field(b, offset, value) <==> BigEndian(b, offset) == value
  {
    var four := b[offset..offset + 4];
    assert four == [b[offset], b[offset + 1], b[offset + 2], b[offset + 3]];
    BytesOfSum(four[0], four[1], four[2], four[3]);
    if Field(b, offset, value) {
      FieldInverse(b, offset, value);
      ReadIsBigEndian(b, offset);
    }
    hide U32;
  }

  /**
   * Number, payload length and flags at bytes 0, 4 and 8, the most significant first; 1 says that more follows and 2
   * that it is control; the payload at byte 28.
   */
  lemma DescribesExactly(b: seq<byte>, s: Segment)
    requires Sendable(s)
    ensures Describes(b, s)
       <==> |b| == 540 && BigEndian(b, 0) == s.no && BigEndian(b, 4) == |s.payload|
            && BigEndian(b, 8) == (if s.more then 1 else 0) + (if s.cls == Control then 2 else 0)
            && b[28..28 + |s.payload|] == s.payload
  {
    if |b| == 540 {
      FieldIsBigEndian(b, 0, s.no);
      FieldIsBigEndian(b, 4, |s.payload|);
      FieldIsBigEndian(b, 8, Flags(s));
    }
  }

  /** What any buffer is taken for. Bit 4 of the last flag byte makes it an acknowledgement. */
  lemma DecodeExactly(b: seq<byte>)
    requires |b| == 540
    ensures Decode(b).Ack? <==> (b[11] / 4) % 2 == 1
    ensures Decode(b).Overlong? <==> (b[11] / 4) % 2 == 0 && BigEndian(b, 4) > 512
    ensures !Decode(b).Ack? ==> var s := Decode(b).segment;
      && s.no == BigEndian(b, 0) && s.more == (b[11] % 2 == 1)
      && s.cls == (if (b[11] / 2) % 2 == 1 then Control else Data)
      && s.payload == b[28..28 + (if BigEndian(b, 4) > 512 then 512 else BigEndian(b, 4))]
  {
    ReadIsBigEndian(b, 0);
    ReadIsBigEndian(b, 4);
    ReadIsBigEndian(b, 8);
    assert b[0..] == b;
    var high := 65536 * (b[8] as int) + 256 * (b[9] as int) + b[10] as int;
    LowBits(high, b[11]);
    assert BigEndian(b, 8) == 256 * high + b[11] as int;
  }

  lemma EvenGoes(k: nat, q: nat)
    ensures (2 * k + q) % 2 == q % 2
  {
  }

  lemma Shifted(high: nat, low: nat)
    ensures (256 * high + low) / 2 == 128 * high + low / 2 && (256 * high + low) / 4 == 64 * high + low / 4
  {
  }

  lemma LowBits(high: nat, low: nat)
    ensures var n := 256 * high + low;
      n % 2 == low % 2 && (n / 2) % 2 == (low / 2) % 2 && (n / 4) % 2 == (low / 4) % 2 && n / 1 == n
  {
    Shifted(high, low);
    EvenGoes(128 * high, low);
    EvenGoes(64 * high, low / 2);
    EvenGoes(32 * high, low / 4);
    var n := 256 * high + low;
    assert n == 2 * (128 * high) + low && 128 * high + low / 2 == 2 * (64 * high) + low / 2;
    assert 64 * high + low / 4 == 2 * (32 * high) + low / 4;
  }

  /** Whatever describes a segment is received as exactly that segment, of its own class. */
  lemma DecodeInverse(b: seq<byte>, s: Segment)
    requires Sendable(s) && Describes(b, s)
    ensures Decode(b) == Normal(s)
  {
    FieldInverse(b, 0, s.no);
    FieldInverse(b, 4, |s.payload|);
    FieldInverse(b, 8, Flags(s));
    assert b[0..] == b;
  }

  /** The four bytes at the offset, one by one. */
  ghost predicate BytesAre(b: seq<byte>, offset: nat, four: seq<byte>)
    requires |four| == 4 && offset + 4 <= |b|
  {
    b[offset] == four[0] && b[offset + 1] == four[1] && b[offset + 2] == four[2] && b[offset + 3] == four[3]
  }

  lemma FieldIs(b: seq<byte>, offset: nat, value: nat)
    requires value < 0x1_0000_0000 && offset + 4 <= |b| && BytesAre(b, offset, U32(value))
    ensures Field(b, offset, value)
  {
    assert b[offset..offset + 4] == U32(value);
  }

  method WriteField(data: array<byte>, offset: nat, value: nat)
    requires data.Length == SEGMENT_DATA_SIZE && offset + 4 <= SEG_HEADER_SIZE && value < 0x1_0000_0000
    modifies data
    ensures BytesAre(data[..], offset, U32(value))
    ensures forall i :: 0 <= i < data.Length && !(offset <= i < offset + 4) ==> data[i] == old(data[i])
  {
    var net := U32(value);
    data[offset], data[offset + 1], data[offset + 2], data[offset + 3] := net[0], net[1], net[2], net[3];
  }

  method CopyPayload(data: array<byte>, payload: seq<byte>)
    requires data.Length == SEGMENT_DATA_SIZE && |payload| <= SEG_SIZE
    modifies data
    ensures data[SEG_HEADER_SIZE..SEG_HEADER_SIZE + |payload|] == payload
    ensures forall i :: 0 <= i < data.Length && !(SEG_HEADER_SIZE <= i < SEG_HEADER_SIZE + |payload|) ==>
              data[i] == old(data[i])
  {
    for k := 0 to |payload|
      invariant forall i :: SEG_HEADER_SIZE <= i < SEG_HEADER_SIZE + k ==> data[i] == payload[i - SEG_HEADER_SIZE]
      invariant forall i :: 0 <= i < data.Length && !(SEG_HEADER_SIZE <= i < SEG_HEADER_SIZE + k) ==>
                  data[i] == old(data[i])
    {
      data[SEG_HEADER_SIZE + k] := payload[k];
    }
  }

  /**
   * Fills a buffer from the pool, whatever it held before: header fields as the sender computes them
   * from the position of the fragment, then the payload.
   */
  method SerializeSegment(data: array<byte>, seqNo: nat, payload: seq<byte>, moreFollows: bool, isControl: bool,
                          tsSec: nat, tsUsec: nat)
    requires data.Length == SEGMENT_DATA_SIZE && seqNo < 0x1_0000_0000 && |payload| <= SEG_SIZE
    requires tsSec < 0x1_0000_0000 && tsUsec < 0x1_0000_0000
    modifies data
    ensures Describes(data[..], Segment(seqNo, if isControl then Control else Data, moreFollows, payload))
    ensures Field(data[..], 12, tsSec) && Field(data[..], 16, tsUsec) && data[20..28] == old(data[20..28])
    ensures data[28 + |payload|..] == old(data[28 + |payload|..])
  {
    var flag := 0;
    if moreFollows { flag := SetFlag(flag, FLAG_MF); }
    if isControl { flag := SetFlag(flag, FLAG_CONTROL); }
    assert flag == Flags(Segment(seqNo, if isControl then Control else Data, moreFollows, payload));
    WriteField(data, 0, seqNo);
    WriteField(data, 4, |payload|);
    WriteField(data, 8, flag);
    WriteField(data, 12, tsSec);
    WriteField(data, 16, tsUsec);
    CopyPayload(data, payload);
    ghost var b := data[..];
    FieldIs(b, 0, seqNo);
    FieldIs(b, 4, |payload|);
    FieldIs(b, 8, flag);
    FieldIs(b, 12, tsSec);
    FieldIs(b, 16, tsUsec);
    assert b[SEG_HEADER_SIZE..SEG_HEADER_SIZE + |payload|] == payload;
  }

  /** The adapter stamps the media time into the buffer just before sending: the segment is unharmed. */
  method StampMediaTime(data: array<byte>, tsSec: nat, tsUsec: nat, ghost s: Segment)
    requires data.Length == SEGMENT_DATA_SIZE && tsSec < 0x1_0000_0000 && tsUsec < 0x1_0000_0000
    requires Sendable(s) && Describes(data[..], s)
    modifies data
    ensures Describes(data[..], s)
    ensures Field(data[..], 20, tsSec) && Field(data[..], 24, tsUsec)
    ensures data[..20] == old(data[..20]) && data[28..] == old(data[28..])
  {
    ghost var before := data[..];
    WriteField(data, 20, tsSec);
    WriteField(data, 24, tsUsec);
    FieldIs(data[..], 20, tsSec);
    FieldIs(data[..], 24, tsUsec);
    assert data[..][0..4] == before[0..4] && data[..][4..8] == before[4..8] && data[..][8..12] == before[8..12];
    ghost var end := SEG_HEADER_SIZE + |s.payload|;
    assert data[..][SEG_HEADER_SIZE..end] == before[SEG_HEADER_SIZE..end];
  }
}
