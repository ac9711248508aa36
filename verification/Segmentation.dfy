/** Packet headers, cutting packets into segments, and putting messages together again. */
module Segmentation {
  import opened Segments

  // --- Big-endian fields ---

  function U16(n: nat): (b: seq<byte>)
    requires n < 0x1_0000
    ensures |b| == 2
  {
    [n / 256, n % 256]
  }

  function U32(n: nat): (b: seq<byte>)
    requires n < 0x1_0000_0000
    ensures |b| == 4
  {
    U16(n / 0x1_0000) + U16(n % 0x1_0000)
  }

  function ReadU16(b: seq<byte>): nat
    requires |b| >= 2
  {
    (b[0] as int) * 256 + b[1] as int
  }

  function ReadU32(b: seq<byte>): nat
    requires |b| >= 4
  {
    ReadU16(b) * 0x1_0000 + ReadU16(b[2..])
  }

  // --- Packets (ProtocolManager) ---

  const PROT_HEADER_SIZE: nat := 6

  datatype Message = Message(id: nat, payload: seq<byte>)

  /** The id is 16 bits wide; the length has to be a non-negative Java int on the Android side. */
  ghost predicate ValidMessage(m: Message) {
    m.id < 0x1_0000 && |m.payload| < 0x8000_0000
  }

  function Serialize(m: Message): (b: seq<byte>)
    requires m.id < 0x1_0000 && |m.payload| < 0x1_0000_0000
    ensures |b| == PROT_HEADER_SIZE + |m.payload|
  {
    U16(m.id) + U32(|m.payload|) + m.payload
  }

  datatype Header = Header(id: nat, len: nat)

  function ParseHeader(b: seq<byte>): Header
    requires |b| >= PROT_HEADER_SIZE
  {
    Header(ReadU16(b), ReadU32(b[2..]))
  }

  lemma U32Inverse(n: nat, rest: seq<byte>)
    requires n < 0x1_0000_0000
    ensures ReadU32(U32(n) + rest) == n
  {
    var b := U32(n) + rest;
    assert b[2..][0] == b[2] && b[2..][1] == b[3];
  }

  /** The header read back from any cut of the packet that contains it. */
  lemma HeaderInverse(m: Message, k: nat)
    requires m.id < 0x1_0000 && |m.payload| < 0x1_0000_0000
    requires PROT_HEADER_SIZE <= k <= |Serialize(m)|
    ensures ParseHeader(Serialize(m)[..k]) == Header(m.id, |m.payload|)
  {
    var cut := Serialize(m)[..k];
    var len := U32(|m.payload|);
    assert cut[2..] == len + cut[6..];
    U32Inverse(|m.payload|, cut[6..]);
  }

  /** The number in four bytes, the most significant first. */
  function BigEndian(b: seq<byte>, at: nat): int
    requires at + 4 <= |b|
  {
    16777216 * (b[at] as int) + 65536 * (b[at + 1] as int) + 256 * (b[at + 2] as int) + b[at + 3] as int
  }

  /** The packet byte by byte: two of the id, four of the length, both the most significant first, then the payload. */
  lemma PacketBytes(m: Message)
    requires m.id < 0x1_0000 && |m.payload| < 0x1_0000_0000
    ensures var b := Serialize(m);
      && 256 * (b[0] as int) + b[1] as int == m.id && BigEndian(b, 2) == |m.payload| && b[6..] == m.payload
  {
  }

  /** What is read from any six bytes. */
  lemma HeaderBytes(b: seq<byte>)
    requires |b| >= 6
    ensures ParseHeader(b) == Header(256 * (b[0] as int) + b[1] as int, BigEndian(b, 2))
  {
    assert b[2..][0] == b[2] && b[2..][1] == b[3];
    assert b[2..][2..][0] == b[4] && b[2..][2..][1] == b[5];
  }

  // --- Cutting (send_to_segment_manager) ---

  function NumSegments(len: nat): nat {
    (len + SEG_SIZE - 1) / SEG_SIZE
  }

  /** Fragment `i`: offset `i * 512`, MF unless it reaches the end. */
  function SegmentAt(cls: Class, first: nat, bytes: seq<byte>, i: nat): Segment
    requires i < NumSegments(|bytes|)
  {
    var offset := i * SEG_SIZE;
    var len := if |bytes| - offset < SEG_SIZE then |bytes| - offset else SEG_SIZE;
    Segment(first + i, cls, offset + len < |bytes|, bytes[offset..offset + len])
  }

  function Fragment(cls: Class, first: nat, bytes: seq<byte>): (p: seq<Segment>)
    ensures |p| == NumSegments(|bytes|)
    ensures |bytes| > 0 ==> |p| > 0
  {
    seq(NumSegments(|bytes|), i requires 0 <= i < NumSegments(|bytes|) => SegmentAt(cls, first, bytes, i))
  }

  function Join(segs: seq<Segment>): seq<byte> {
    if segs == [] then [] else segs[0].payload + Join(segs[1..])
  }

  /** One packet: consecutive numbers, one class, MF on exactly the non-final segments. */
  ghost predicate IsPacket(p: seq<Segment>, cls: Class, first: nat) {
    && p != []
    && (forall i :: 0 <= i < |p| ==> p[i].no == first + i && p[i].cls == cls && (p[i].more <==> i < |p| - 1))
  }

  lemma {:induction false} JoinFrom(cls: Class, first: nat, bytes: seq<byte>, i: nat)
    requires i < NumSegments(|bytes|)
    ensures Join(Fragment(cls, first, bytes)[i..]) == bytes[i * SEG_SIZE..]
    decreases NumSegments(|bytes|) - i
  {
    var p := Fragment(cls, first, bytes);
    assert p[i..][0] == SegmentAt(cls, first, bytes, i);
    assert p[i..][1..] == p[i + 1..];
    if i + 1 < |p| {
      JoinFrom(cls, first, bytes, i + 1);
      assert bytes[i * SEG_SIZE..] == bytes[i * SEG_SIZE..(i + 1) * SEG_SIZE] + bytes[(i + 1) * SEG_SIZE..];
    } else {
      assert p[i + 1..] == [];
      assert Join(p[i..]) == p[i].payload + [];
    }
  }

  lemma FragmentShape(cls: Class, first: nat, bytes: seq<byte>)
    requires |bytes| > 0
    ensures var p := Fragment(cls, first, bytes);
      && IsPacket(p, cls, first)
      && Join(p) == bytes
      && (forall i :: 0 <= i < |p| - 1 ==> |p[i].payload| == 512)
      && 0 < |p[|p| - 1].payload| <= 512
  {
    JoinFrom(cls, first, bytes, 0);
    assert Fragment(cls, first, bytes)[0..] == Fragment(cls, first, bytes);
  }

  // --- Putting together (recv_from_segment_manager) ---

  /** The type of the write offset: uint16_t on Linux, int on Android. */
  datatype OffsetType = Uint16 | Int

  function Advance(t: OffsetType, offset: nat, n: nat): nat {
    if t == Uint16 then (offset + n) % 0x1_0000 else offset + n
  }

  /** memcpy of `chunk` to `offset`. */
  function Copied(buffer: seq<byte>, offset: nat, chunk: seq<byte>): (b: seq<byte>)
    requires offset + |chunk| <= |buffer|
    ensures |b| == |buffer|
  {
    buffer[..offset] + chunk + buffer[offset + |chunk|..]
  }

  /** Copies the chunks one after the other; None is a write past the end of the buffer. */
  function Fill(t: OffsetType, buffer: seq<byte>, offset: nat, chunks: seq<seq<byte>>): Option<seq<byte>>
    decreases |chunks|
  {
    if chunks == [] then Some(buffer)
    else if offset + |chunks[0]| > |buffer| then None
    else Fill(t, Copied(buffer, offset, chunks[0]), Advance(t, offset, |chunks[0]|), chunks[1..])
  }

  function Payloads(segs: seq<Segment>): seq<seq<byte>> {
    seq(|segs|, i requires 0 <= i < |segs| => segs[i].payload)
  }

  function Chunks(p: seq<Segment>): seq<seq<byte>>
    requires p != [] && |p[0].payload| >= PROT_HEADER_SIZE
  {
    [p[0].payload[PROT_HEADER_SIZE..]] + Payloads(p[1..])
  }

  /** A buffer fresh from calloc / new byte[]. */
  function Zeros(n: nat): (z: seq<byte>)
    ensures |z| == n && forall i :: 0 <= i < n ==> z[i] == 0
  {
    seq(n, i => 0)
  }

  /** What a receiver makes of one packet: nothing for length 0 (NULL), else the filled buffer. */
  function Assemble(t: OffsetType, p: seq<Segment>): Option<seq<byte>>
    requires p != [] && |p[0].payload| >= PROT_HEADER_SIZE
  {
    var len := ParseHeader(p[0].payload).len;
    if len == 0 then None else Fill(t, Zeros(len), 0, Chunks(p))
  }

  function Concat(chunks: seq<seq<byte>>): seq<byte>
    decreases |chunks|
  {
    if chunks == [] then [] else chunks[0] + Concat(chunks[1..])
  }

  lemma {:induction false} JoinIsConcat(segs: seq<Segment>)
    ensures Concat(Payloads(segs)) == Join(segs)
  {
    if segs != [] {
      JoinIsConcat(segs[1..]);
      assert Payloads(segs)[1..] == Payloads(segs[1..]);
    }
  }

  /** As long as every chunk starts below 2^16 the two offset types agree and the buffer fills up. */
  lemma {:induction false} FillInOrder(t: OffsetType, buffer: seq<byte>, offset: nat, chunks: seq<seq<byte>>)
    requires |buffer| == offset + |Concat(chunks)|
    requires t == Int || chunks == [] || offset + |Concat(chunks[..|chunks| - 1])| < 0x1_0000
    ensures Fill(t, buffer, offset, chunks) == Some(buffer[..offset] + Concat(chunks))
    decreases |chunks|
  {
    if chunks == [] {
      assert buffer[..offset] + [] == buffer;
    } else {
      var c, rest := chunks[0], chunks[1..];
      var next := Copied(buffer, offset, c);
      if rest == [] {
        assert Concat(chunks) == c + Concat(rest) == c;
        assert next == buffer[..offset] + c;
      } else {
        assert chunks[..|chunks| - 1][1..] == rest[..|rest| - 1];
        assert Concat(chunks[..|chunks| - 1]) == c + Concat(rest[..|rest| - 1]);
        FillInOrder(t, next, offset + |c|, rest);
        assert next[..offset + |c|] == buffer[..offset] + c;
        assert buffer[..offset] + c + Concat(rest) == buffer[..offset] + Concat(chunks);
      }
    }
  }

  /** The bytes one packet of a message carries after its header. */
  lemma PacketChunks(cls: Class, first: nat, m: Message)
    requires m.id < 0x1_0000 && |m.payload| < 0x1_0000_0000
    ensures var p := Fragment(cls, first, Serialize(m));
      && |p[0].payload| >= PROT_HEADER_SIZE
      && ParseHeader(p[0].payload) == Header(m.id, |m.payload|)
      && Concat(Chunks(p)) == m.payload
      && |Chunks(p)| == NumSegments(PROT_HEADER_SIZE + |m.payload|)
      && (forall i :: 1 <= i < |p| - 1 ==> |Chunks(p)[i]| == SEG_SIZE)
      && (forall i :: 1 <= i < |p| ==> |Chunks(p)[i]| <= SEG_SIZE)
      && |Chunks(p)[0]| <= SEG_SIZE - PROT_HEADER_SIZE
      && (|p| > 1 ==> |Chunks(p)[0]| == SEG_SIZE - PROT_HEADER_SIZE)
  {
    var bytes := Serialize(m);
    var p := Fragment(cls, first, bytes);
    FragmentShape(cls, first, bytes);
    var k := if |bytes| <= SEG_SIZE then |bytes| else SEG_SIZE;
    assert p[0] == SegmentAt(cls, first, bytes, 0);
    HeaderInverse(m, k);
    JoinIsConcat(p[1..]);
    assert Chunks(p)[1..] == Payloads(p[1..]);
    assert bytes == p[0].payload + Join(p[1..]);
    assert bytes[PROT_HEADER_SIZE..] == m.payload;
    assert bytes[PROT_HEADER_SIZE..] == p[0].payload[PROT_HEADER_SIZE..] + Join(p[1..]);
  }

  /** Android: cutting and putting together are inverse for every non-empty message. */
  lemma AndroidRoundTrip(cls: Class, first: nat, m: Message)
    requires ValidMessage(m)
    ensures var p := Fragment(cls, first, Serialize(m));
      && p != [] && |p[0].payload| >= PROT_HEADER_SIZE
      && Assemble(Int, p) == (if m.payload == [] then None else Some(m.payload))
  {
    PacketChunks(cls, first, m);
    FragmentShape(cls, first, Serialize(m));
    var p := Fragment(cls, first, Serialize(m));
    if m.payload != [] {
      FillInOrder(Int, Zeros(|m.payload|), 0, Chunks(p));
      assert Zeros(|m.payload|)[..0] + m.payload == m.payload;
    }
  }

  lemma ConcatCons(chunk: seq<byte>, chunks: seq<seq<byte>>)
    ensures Concat([chunk] + chunks) == chunk + Concat(chunks)
  {
    assert ([chunk] + chunks)[1..] == chunks;
  }

  /** Whatever the chunks are: they are copied one behind the other if they fit, and the rest of the buffer stays. */
  lemma {:induction false} FillExactly(buffer: seq<byte>, offset: nat, chunks: seq<seq<byte>>)
    requires offset <= |buffer|
    ensures var all := Concat(chunks);
      Fill(Int, buffer, offset, chunks)
      == if offset + |all| <= |buffer| then Some(buffer[..offset] + all + buffer[offset + |all|..]) else None
    decreases |chunks|
  {
    if chunks == [] {
      assert buffer == buffer[..offset] + [] + buffer[offset..];
    } else if offset + |chunks[0]| <= |buffer| {
      var c, rest := chunks[0], chunks[1..];
      var next := Copied(buffer, offset, c);
      FillExactly(next, offset + |c|, rest);
      var all := Concat(rest);
      assert next[..offset + |c|] == buffer[..offset] + c;
      if offset + |c| + |all| <= |buffer| {
        assert next[offset + |c| + |all|..] == buffer[offset + |c| + |all|..];
        assert buffer[..offset] + c + all == buffer[..offset] + (c + all);
      }
    }
  }

  /** The bytes a packet carries behind its header. */
  lemma ChunksAreContent(p: seq<Segment>)
    requires p != [] && |p[0].payload| >= 6
    ensures |Join(p)| >= 6 && Concat(Chunks(p)) == Join(p)[6..]
  {
    JoinIsConcat(p[1..]);
    ConcatCons(p[0].payload[6..], Payloads(p[1..]));
    HeadOff(p[0].payload, Join(p[1..]), 6);
  }

  lemma HeadOff(a: seq<byte>, b: seq<byte>, n: nat)
    requires n <= |a|
    ensures (a + b)[n..] == a[n..] + b
  {
  }

  lemma FilledUp(bytes: seq<byte>, len: nat)
    requires |bytes| <= len
    ensures Zeros(len)[..0] + bytes + Zeros(len)[|bytes|..] == bytes + Zeros(len - |bytes|)
  {
  }

  /**
   * Android on any packet, whole or not: nothing for length 0; else the bytes behind the header, filled up with zeros
   * to the announced length; and no result if there are more bytes than announced.
   */
  lemma AssembledExactly(p: seq<Segment>)
    requires p != [] && |p[0].payload| >= 6
    ensures |Join(p)| >= 6 && BigEndian(p[0].payload, 2) >= 0
    ensures var len: nat, bytes := BigEndian(p[0].payload, 2), Join(p)[6..];
      Assemble(Int, p) == if len == 0 || |bytes| > len then None else Some(bytes + Zeros(len - |bytes|))
  {
    HeaderBytes(p[0].payload);
    ChunksAreContent(p);
    var len: nat := BigEndian(p[0].payload, 2);
    hide Chunks, Join, BigEndian, ParseHeader, Fill, Concat, Zeros;
    FillExactly(Zeros(len), 0, Chunks(p));
    var bytes := Join(p)[6..];
    if |bytes| <= len { FilledUp(bytes, len); }
  }

  // --- The exact reach of the 16-bit offset ---

  /** 506 + 128 * 512: where the offset has wrapped round to the end of the first chunk. */
  const LINUX_REACH: nat := 66042

  /** Full chunks before the last one. */
  ghost predicate FullButLast(chunks: seq<seq<byte>>) {
    && (forall i :: 0 <= i < |chunks| - 1 ==> |chunks[i]| == SEG_SIZE)
    && (forall i :: 0 <= i < |chunks| ==> |chunks[i]| <= SEG_SIZE)
  }

  lemma {:induction false} ConcatFull(chunks: seq<seq<byte>>)
    requires forall i :: 0 <= i < |chunks| ==> |chunks[i]| == SEG_SIZE
    ensures |Concat(chunks)| == SEG_SIZE * |chunks|
    decreases |chunks|
  {
    if chunks != [] { ConcatFull(chunks[1..]); }
  }

  /** Once wrapped, no write ever reaches byte 66042 again. */
  lemma {:induction false} FillStaysLow(buffer: seq<byte>, offset: nat, chunks: seq<seq<byte>>)
    requires |buffer| > LINUX_REACH && FullButLast(chunks)
    requires offset < 0x1_0000 && offset % SEG_SIZE == SEG_SIZE - PROT_HEADER_SIZE
    ensures Fill(Uint16, buffer, offset, chunks).Some?
    ensures |Fill(Uint16, buffer, offset, chunks).value| == |buffer|
    ensures Fill(Uint16, buffer, offset, chunks).value[LINUX_REACH] == buffer[LINUX_REACH]
    decreases |chunks|
  {
    if chunks != [] {
      var c := chunks[0];
      assert offset + |c| <= LINUX_REACH;
      var next := Copied(buffer, offset, c);
      assert |next| == |buffer| && next[LINUX_REACH] == buffer[LINUX_REACH];
      if |chunks| > 1 {
        FillStaysLow(next, Advance(Uint16, offset, |c|), chunks[1..]);
      }
    }
  }

  lemma FillFromStartStaysLow(buffer: seq<byte>, chunks: seq<seq<byte>>)
    requires |buffer| > LINUX_REACH && chunks != [] && FullButLast(chunks[1..])
    requires |chunks[0]| == SEG_SIZE - PROT_HEADER_SIZE
    ensures Fill(Uint16, buffer, 0, chunks).Some?
    ensures |Fill(Uint16, buffer, 0, chunks).value| == |buffer|
    ensures Fill(Uint16, buffer, 0, chunks).value[LINUX_REACH] == buffer[LINUX_REACH]
  {
    FillStaysLow(Copied(buffer, 0, chunks[0]), |chunks[0]|, chunks[1..]);
  }

  lemma LinuxWithinReach(cls: Class, first: nat, m: Message)
    requires m.id < 0x1_0000 && 1 <= |m.payload| <= LINUX_REACH
    ensures var p := Fragment(cls, first, Serialize(m));
      && p != [] && |p[0].payload| >= PROT_HEADER_SIZE
      && Assemble(Uint16, p) == Some(m.payload)
  {
    PacketChunks(cls, first, m);
    FragmentShape(cls, first, Serialize(m));
    var p := Fragment(cls, first, Serialize(m));
    var chunks := Chunks(p);
    var front := chunks[..|chunks| - 1];
    assert |Concat(front)| < 0x1_0000 by {
      if |chunks| > 1 {
        ConcatFull(front[1..]);
        assert |Concat(front)| == SEG_SIZE - PROT_HEADER_SIZE + SEG_SIZE * (|chunks| - 2);
      }
    }
    FillInOrder(Uint16, Zeros(|m.payload|), 0, chunks);
    assert Zeros(|m.payload|)[..0] + m.payload == m.payload;
  }

  lemma LinuxBeyondReach(cls: Class, first: nat, m: Message)
    requires m.id < 0x1_0000 && LINUX_REACH < |m.payload| < 0x1_0000_0000
    ensures var p := Fragment(cls, first, Serialize(m));
      && p != [] && |p[0].payload| >= PROT_HEADER_SIZE
      && Assemble(Uint16, p).Some? && |Assemble(Uint16, p).value| == |m.payload|
      && Assemble(Uint16, p).value[LINUX_REACH] == 0
  {
    PacketChunks(cls, first, m);
    FragmentShape(cls, first, Serialize(m));
    var p := Fragment(cls, first, Serialize(m));
    var chunks := Chunks(p);
    assert forall i :: 0 <= i < |chunks[1..]| ==> chunks[1..][i] == chunks[i + 1];
    FillFromStartStaysLow(Zeros(|m.payload|), chunks);
  }

  /**
   * The Linux receiver returns every message of a given length unchanged exactly if the length lies
   * between 1 and 66042.
   */
  lemma LinuxExactReach(cls: Class, first: nat, len: nat)
    requires len < 0x1_0000_0000
    ensures (forall m: Message :: m.id < 0x1_0000 && |m.payload| == len ==>
               var p := Fragment(cls, first, Serialize(m));
               p != [] && |p[0].payload| >= PROT_HEADER_SIZE && Assemble(Uint16, p) == Some(m.payload))
       <==> 1 <= len <= 66042
  {
    if 1 <= len <= LINUX_REACH {
      forall m: Message | m.id < 0x1_0000 && |m.payload| == len
        ensures var p := Fragment(cls, first, Serialize(m));
          p != [] && |p[0].payload| >= PROT_HEADER_SIZE && Assemble(Uint16, p) == Some(m.payload)
      {
        LinuxWithinReach(cls, first, m);
      }
    } else if len == 0 {
      var m := Message(0, []);
      AndroidRoundTrip(cls, first, m);
      PacketChunks(cls, first, m);
      assert Assemble(Uint16, Fragment(cls, first, Serialize(m))) == None;
    } else {
      var m := Message(0, Zeros(len)[LINUX_REACH := 1]);
      LinuxBeyondReach(cls, first, m);
    }
  }
}
