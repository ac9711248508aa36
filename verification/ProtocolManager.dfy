/** Packets as the ProtocolManager builds them in a buffer, and the way of a received buffer into its queue. */
module ProtocolManager {
  import opened Segments
  import opened Segmentation
  import WireFormat
  import AndroidQueue

  /** memcpy of the bytes to `offset`. */
  method CopyTo(vec: array<byte>, offset: nat, bytes: seq<byte>)
    requires offset + |bytes| <= vec.Length
    modifies vec
    ensures vec[..] == old(vec[..offset]) + bytes + old(vec[offset + |bytes|..])
  {
    forall k | 0 <= k < |bytes| { vec[offset + k] := bytes[k]; }
  }

  class Packets {
    /** The 16-bit packet counter. */
    var sPacketId: nat

    ghost predicate Valid()
      reads this
    {
      sPacketId < 0x1_0000
    }

    /** The counter starts at 1 on Linux and at 0 on Android. */
    constructor (first: nat)
      requires first < 0x1_0000
      ensures Valid() && sPacketId == first
    {
      sPacketId := first;
    }

    /** data_to_protocol_data: takes the next id, which wraps around. */
    method TakeId() returns (id: nat)
      requires Valid()
      modifies this
      ensures Valid() && id == old(sPacketId) && sPacketId == (id + 1) % 0x1_0000
    {
      id := sPacketId;
      sPacketId := (sPacketId + 1) % 0x1_0000;
    }

    /** A packet for `payloadSize` bytes of `data` from `offset` on. */
    method SerializePacket(data: seq<byte>, offset: nat, payloadSize: nat) returns (packet: array<byte>)
      requires Valid() && offset + payloadSize <= |data| && payloadSize < 0x1_0000_0000
      modifies this
      ensures Valid() && fresh(packet)
      ensures packet[..] == Serialize(Message(old(sPacketId), data[offset..offset + payloadSize]))
      ensures sPacketId == (old(sPacketId) + 1) % 0x1_0000
    {
      var id := TakeId();
      packet := new byte[PROT_HEADER_SIZE + payloadSize](_ => 0);
      SerializeHeader(id, payloadSize, packet);
      CopyTo(packet, PROT_HEADER_SIZE, data[offset..offset + payloadSize]);
      assert packet[..PROT_HEADER_SIZE] == U16(id) + U32(payloadSize);
    }
  }

  method SerializeHeader(id: nat, len: nat, vec: array<byte>)
    requires id < 0x1_0000 && len < 0x1_0000_0000 && vec.Length >= PROT_HEADER_SIZE
    modifies vec
    ensures vec[..PROT_HEADER_SIZE] == U16(id) + U32(len)
    ensures vec[PROT_HEADER_SIZE..] == old(vec[PROT_HEADER_SIZE..])
  {
    var vecOffset := 0;
    CopyTo(vec, vecOffset, U16(id));
    vecOffset := vecOffset + 2;
    assert vec[..2] == U16(id);
    assert vec[6..] == old(vec[6..]);
    CopyTo(vec, vecOffset, U32(len));
    assert vec[..6] == vec[..2] + vec[2..6];
  }

  /** Reads the header back, field by field. */
  method ParsePacketHeader(serialized: array<byte>) returns (header: Header, vecOffset: nat)
    requires serialized.Length >= PROT_HEADER_SIZE
    ensures header == ParseHeader(serialized[..]) && vecOffset == PROT_HEADER_SIZE
    ensures forall m: Message :: m.id < 0x1_0000 && |m.payload| < 0x1_0000_0000 && serialized[..] == Serialize(m) ==>
              header == Header(m.id, |m.payload|)
  {
    vecOffset := 0;
    var id := ReadU16(serialized[vecOffset..vecOffset + 2]);
    vecOffset := vecOffset + 2;
    var len := ReadU32(serialized[vecOffset..vecOffset + 4]);
    vecOffset := vecOffset + 4;
    header := Header(id, len);
    assert serialized[..][2..][2..] == serialized[4..];
    assert serialized[2..6][2..] == serialized[4..6];
    forall m: Message | m.id < 0x1_0000 && |m.payload| < 0x1_0000_0000 && serialized[..] == Serialize(m)
      ensures header == Header(m.id, |m.payload|)
    {
      HeaderInverse(m, |Serialize(m)|);
      assert Serialize(m)[..|Serialize(m)|] == Serialize(m);
    }
  }

  /** The queue of class `c` once the buffer has been handled. */
  function Arrives(received: WireFormat.Received, c: Class, q: Queue): Queue {
    if !received.Ack? && received.segment.cls == c then AndroidQueue.Received(q, received.segment) else q
  }

  /** The Android receiver threads share one receive queue per class. */
  class AndroidReceiver {
    const mQueues: PerClass<AndroidQueue.ReceiveQueue>

    constructor ()
      ensures mQueues.data != mQueues.control && fresh(mQueues.data) && fresh(mQueues.control)
      ensures mQueues.data.Contents() == mQueues.control.Contents() == EMPTY_QUEUE
    {
      var data := new AndroidQueue.ReceiveQueue();
      var control := new AndroidQueue.ReceiveQueue();
      mQueues := PerClass(data, control);
    }

    /** One round of a receiver thread: an ACK is dropped, any other segment joins the queue of its class. */
    method OnBuffer(buffer: array<byte>)
      requires mQueues.data != mQueues.control && buffer.Length == WireFormat.SEGMENT_DATA_SIZE
      modifies mQueues.data, mQueues.control
      ensures forall c: Class ::
        mQueues.At(c).Contents() == Arrives(WireFormat.Decode(buffer[..]), c, old(mQueues.At(c).Contents()))
      ensures (buffer[11] / 4) % 2 == 1 ==>
        forall c: Class :: mQueues.At(c).Contents() == old(mQueues.At(c).Contents())
    {
      WireFormat.DecodeExactly(buffer[..]);
      var received := WireFormat.Decode(buffer[..]);
      if received.Ack? { return; }
      var segment := received.segment;
      if segment.cls == Control {
        var _ := mQueues.control.Enqueue(segment);
      } else {
        var _ := mQueues.data.Enqueue(segment);
      }
    }

    /** A buffer that describes a segment feeds exactly this segment to the queue of its class. */
    method OnSegment(buffer: array<byte>, ghost s: Segment)
      requires mQueues.data != mQueues.control
      requires WireFormat.Sendable(s) && WireFormat.Describes(buffer[..], s)
      modifies mQueues.data, mQueues.control
      ensures mQueues.At(s.cls).Contents() == AndroidQueue.Received(old(mQueues.At(s.cls).Contents()), s)
      ensures forall c: Class :: c != s.cls ==> mQueues.At(c).Contents() == old(mQueues.At(c).Contents())
    {
      WireFormat.DecodeInverse(buffer[..], s);
      OnBuffer(buffer);
    }
  }
}
