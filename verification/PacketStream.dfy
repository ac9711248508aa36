/** The numbered stream of a class as the concatenation of its packets, and the messages read from it. */
module PacketStream {
  import opened Segments
  import opened Segmentation

  ghost predicate AllValid(ms: seq<Message>) {
    forall i :: 0 <= i < |ms| ==> ValidMessage(ms[i])
  }

  /** The segments of the messages in reservation order, numbered from `first`. */
  function Stream(cls: Class, first: nat, ms: seq<Message>): seq<Segment>
    requires AllValid(ms)
    decreases |ms|
  {
    if ms == [] then []
    else
      var p := Fragment(cls, first, Serialize(ms[0]));
      p + Stream(cls, first + |p|, ms[1..])
  }

  lemma {:induction false} StreamNumbered(cls: Class, first: nat, ms: seq<Message>)
    requires AllValid(ms)
    ensures forall i :: 0 <= i < |Stream(cls, first, ms)| ==>
              Stream(cls, first, ms)[i].no == first + i && Stream(cls, first, ms)[i].cls == cls
    decreases |ms|
  {
    if ms != [] {
      FragmentShape(cls, first, Serialize(ms[0]));
      StreamNumbered(cls, first + |Fragment(cls, first, Serialize(ms[0]))|, ms[1..]);
    }
  }

  lemma SplitHead(a: seq<Message>, b: seq<Message>)
    requires a != []
    ensures a == [a[0]] + a[1..]
    ensures a + b == [a[0]] + (a[1..] + b)
  {
  }

  lemma FirstValid(ms: seq<Message>)
    requires AllValid(ms) && ms != []
    ensures ValidMessage(ms[0]) && AllValid(ms[1..])
  {
  }

  lemma StreamCons(cls: Class, first: nat, m: Message, rest: seq<Message>)
    requires ValidMessage(m) && AllValid(rest)
    ensures AllValid([m] + rest)
    ensures var p := Fragment(cls, first, Serialize(m));
      Stream(cls, first, [m] + rest) == p + Stream(cls, first + |p|, rest)
  {
    assert ([m] + rest)[1..] == rest;
  }

  /** Nothing in front changes nothing. */
  lemma StreamOfNothing(cls: Class, first: nat, b: seq<Message>)
    ensures [] + b == b
    ensures Stream(cls, first, []) == []
  {
  }

  lemma {:induction false} StreamConcat(cls: Class, first: nat, a: seq<Message>, b: seq<Message>)
    requires AllValid(a) && AllValid(b)
    ensures AllValid(a + b)
    ensures Stream(cls, first, a + b) == Stream(cls, first, a) + Stream(cls, first + |Stream(cls, first, a)|, b)
    decreases |a|
  {
    hide Stream, AllValid, Fragment, Serialize, ValidMessage;
    StreamOfNothing(cls, first, b);
    if a != [] {
      var m, rest := a[0], a[1..];
      FirstValid(a);
      var p := Fragment(cls, first, Serialize(m));
      var s := Stream(cls, first + |p|, rest);
      var t := Stream(cls, first + |p| + |s|, b);
      SplitHead(a, b);
      StreamConcat(cls, first + |p|, rest, b);
      StreamCons(cls, first, m, rest);
      StreamCons(cls, first, m, rest + b);
      ConcatIsAssociative(p, s, t);
    }
  }

  lemma ConcatIsAssociative(p: seq<Segment>, s: seq<Segment>, t: seq<Segment>)
    ensures p + (s + t) == (p + s) + t
  {
  }

  /** Reserving for one more message appends its packet to the stream. */
  lemma StreamSnoc(cls: Class, first: nat, ms: seq<Message>, m: Message)
    requires AllValid(ms) && ValidMessage(m)
    ensures AllValid(ms + [m])
    ensures Stream(cls, first, ms + [m])
         == Stream(cls, first, ms) + Fragment(cls, first + |Stream(cls, first, ms)|, Serialize(m))
  {
    StreamConcat(cls, first, ms, [m]);
    var next := first + |Stream(cls, first, ms)|;
    assert Stream(cls, next, [m]) == Fragment(cls, next, Serialize(m)) + [];
  }

  /** Where the packet of message `k` starts in the stream. */
  function PacketStart(cls: Class, ms: seq<Message>, k: nat): nat
    requires AllValid(ms) && k <= |ms|
  {
    |Stream(cls, 0, ms[..k])|
  }

  /** The packet of message `k` is one stretch of the stream, with MF on exactly its non-final segments. */
  lemma PacketIsStretch(cls: Class, ms: seq<Message>, k: nat)
    requires AllValid(ms) && k < |ms|
    ensures var start, end := PacketStart(cls, ms, k), PacketStart(cls, ms, k + 1);
      && start < end <= |Stream(cls, 0, ms)|
      && Stream(cls, 0, ms)[start..end] == Fragment(cls, start, Serialize(ms[k]))
      && IsPacket(Stream(cls, 0, ms)[start..end], cls, start)
  {
    var a, b := ms[..k], ms[k + 1..];
    var start := PacketStart(cls, ms, k);
    var p := Fragment(cls, start, Serialize(ms[k]));
    CutMessages(ms, k);
    hide Stream, Fragment, Serialize;
    StreamSnoc(cls, 0, a, ms[k]);
    StreamConcat(cls, 0, a + [ms[k]], b);
    FragmentShape(cls, start, Serialize(ms[k]));
    Middle(Stream(cls, 0, a), p, Stream(cls, start + |p|, b));
  }

  lemma CutMessages(ms: seq<Message>, k: nat)
    requires k < |ms|
    ensures ms[..k + 1] == ms[..k] + [ms[k]] && ms == (ms[..k] + [ms[k]]) + ms[k + 1..]
  {
  }

  lemma Middle(a: seq<Segment>, p: seq<Segment>, b: seq<Segment>)
    ensures ((a + p) + b)[|a|..|a + p|] == p
  {
  }

  // --- Reading messages off a run of segments ---

  /** Number of segments up to and including the first one without MF. */
  function PacketEnd(segs: seq<Segment>): Option<nat>
    ensures PacketEnd(segs).Some? ==> 0 < PacketEnd(segs).value <= |segs|
  {
    if segs == [] then None
    else if !segs[0].more then Some(1)
    else match PacketEnd(segs[1..]) case None => None case Some(k) => Some(k + 1)
  }

  /** The successive results of the receive call; None stands for the NULL of an empty message. */
  function Reassembled(t: OffsetType, segs: seq<Segment>): seq<Option<seq<byte>>>
    decreases |segs|
  {
    match PacketEnd(segs)
    case None => []
    case Some(k) =>
      if |segs[0].payload| < PROT_HEADER_SIZE then []
      else [Assemble(t, segs[..k])] + Reassembled(t, segs[k..])
  }

  function Outcome(m: Message): Option<seq<byte>> {
    if m.payload == [] then None else Some(m.payload)
  }

  function Outcomes(ms: seq<Message>): seq<Option<seq<byte>>> {
    seq(|ms|, i requires 0 <= i < |ms| => Outcome(ms[i]))
  }

  /** How many whole messages lie within the first `k` segments. */
  function WholeMessages(cls: Class, first: nat, ms: seq<Message>, k: nat): nat
    requires AllValid(ms)
    ensures WholeMessages(cls, first, ms, k) <= |ms|
    decreases |ms|
  {
    if ms == [] then 0
    else
      var n := |Fragment(cls, first, Serialize(ms[0]))|;
      if k < n then 0 else 1 + WholeMessages(cls, first + n, ms[1..], k - n)
  }

  lemma {:induction false} PacketEndOf(p: seq<Segment>, rest: seq<Segment>, cls: Class, first: nat)
    requires IsPacket(p, cls, first)
    ensures PacketEnd(p + rest) == Some(|p|)
    decreases |p|
  {
    var all := p + rest;
    if |p| > 1 {
      assert all[1..] == p[1..] + rest;
      PacketEndOf(p[1..], rest, cls, first + 1);
    }
  }

  lemma {:induction false} NoPacketEnd(segs: seq<Segment>)
    requires forall i :: 0 <= i < |segs| ==> segs[i].more
    ensures PacketEnd(segs) == None
  {
    if segs != [] { NoPacketEnd(segs[1..]); }
  }

  /** A cut behind, or inside, the first packet. */
  lemma ReadFirst(t: OffsetType, p: seq<Segment>, rest: seq<Segment>, k: nat, cls: Class, first: nat)
    requires IsPacket(p, cls, first) && |p[0].payload| >= PROT_HEADER_SIZE && k <= |p| + |rest|
    ensures Reassembled(t, (p + rest)[..k])
         == if k < |p| then [] else [Assemble(t, p)] + Reassembled(t, rest[..k - |p|])
  {
    var segs := (p + rest)[..k];
    if k < |p| {
      NoPacketEnd(segs);
    } else {
      assert segs == p + rest[..k - |p|];
      PacketEndOf(p, rest[..k - |p|], cls, first);
      assert segs[..|p|] == p && segs[|p|..] == rest[..k - |p|];
    }
  }

  /** What the offset type can put together. */
  ghost predicate Fits(t: OffsetType, m: Message) {
    t == Uint16 ==> |m.payload| <= LINUX_REACH
  }

  lemma GenuinePacket(t: OffsetType, cls: Class, first: nat, m: Message)
    requires ValidMessage(m)
    ensures var p := Fragment(cls, first, Serialize(m));
      && IsPacket(p, cls, first) && |p[0].payload| >= PROT_HEADER_SIZE
      && (Fits(t, m) ==> Assemble(t, p) == Outcome(m))
  {
    FragmentShape(cls, first, Serialize(m));
    AndroidRoundTrip(cls, first, m);
    if t == Uint16 && Fits(t, m) {
      if m.payload == [] { PacketChunks(cls, first, m); } else { LinuxWithinReach(cls, first, m); }
    }
  }

  /** One result for each of the first `w` messages, and the message itself where it fits. */
  ghost predicate ReadsBack(t: OffsetType, results: seq<Option<seq<byte>>>, ms: seq<Message>, w: nat) {
    && |results| == w <= |ms|
    && forall i :: 0 <= i < w && Fits(t, ms[i]) ==> results[i] == Outcome(ms[i])
  }

  lemma ReadsNothing(t: OffsetType, ms: seq<Message>)
    ensures Reassembled(t, []) == [] && ReadsBack(t, [], ms, 0)
  {
  }

  lemma ReadsOneMore(t: OffsetType, result: Option<seq<byte>>, m: Message, results: seq<Option<seq<byte>>>,
                     rest: seq<Message>, w: nat)
    requires (Fits(t, m) ==> result == Outcome(m)) && ReadsBack(t, results, rest, w)
    ensures ReadsBack(t, [result] + results, [m] + rest, w + 1)
  {
  }

  /** A cut inside the first packet gives nothing, one behind it one message more than the rest. */
  lemma ReadsOn(t: OffsetType, p: seq<Segment>, tail: seq<Segment>, k: nat, cls: Class, first: nat, m: Message,
                rest: seq<Message>, w: nat)
    requires IsPacket(p, cls, first) && |p[0].payload| >= PROT_HEADER_SIZE && k <= |p| + |tail|
    requires Fits(t, m) ==> Assemble(t, p) == Outcome(m)
    requires k >= |p| ==> ReadsBack(t, Reassembled(t, tail[..k - |p|]), rest, w)
    ensures ReadsBack(t, Reassembled(t, (p + tail)[..k]), [m] + rest, if k < |p| then 0 else w + 1)
  {
    ReadFirst(t, p, tail, k, cls, first);
    if k < |p| {
      ReadsNothing(t, [m] + rest);
    } else {
      ReadsOneMore(t, Assemble(t, p), m, Reassembled(t, tail[..k - |p|]), rest, w);
    }
  }

  /** Where all fit, as they do on Android, exactly the messages are read. */
  lemma AllReadBack(t: OffsetType, results: seq<Option<seq<byte>>>, ms: seq<Message>, w: nat)
    requires ReadsBack(t, results, ms, w) && forall i :: 0 <= i < w ==> Fits(t, ms[i])
    ensures results == Outcomes(ms[..w])
  {
  }

  lemma NothingSent(t: OffsetType, cls: Class, first: nat, k: nat)
    requires AllValid([]) && k <= |Stream(cls, first, [])|
    ensures ReadsBack(t, Reassembled(t, Stream(cls, first, [])[..k]), [], WholeMessages(cls, first, [], k))
  {
  }

  /** How stream and count start, in terms of the first packet. */
  lemma StreamStart(cls: Class, first: nat, ms: seq<Message>, k: nat)
    requires AllValid(ms) && ms != []
    ensures ValidMessage(ms[0]) && AllValid(ms[1..]) && ms == [ms[0]] + ms[1..]
    ensures ms[0].id < 0x1_0000 && |ms[0].payload| < 0x1_0000_0000
    ensures var p := Fragment(cls, first, Serialize(ms[0]));
      && Stream(cls, first, ms) == p + Stream(cls, first + |p|, ms[1..])
      && WholeMessages(cls, first, ms, k)
         == if k < |p| then 0 else 1 + WholeMessages(cls, first + |p|, ms[1..], k - |p|)
  {
  }

  /**
   * From the first `k` segments of a stream one message is read for each that lies within them, in reservation order,
   * and it comes back unchanged if it fits, also behind messages that do not.
   */
  lemma {:induction false} PrefixGivesMessages(t: OffsetType, cls: Class, first: nat, ms: seq<Message>, k: nat)
    requires AllValid(ms) && k <= |Stream(cls, first, ms)|
    ensures ReadsBack(t, Reassembled(t, Stream(cls, first, ms)[..k]), ms, WholeMessages(cls, first, ms, k))
    decreases |ms|
  {
    hide *;
    if ms == [] {
      NothingSent(t, cls, first, k);
    } else {
      StreamStart(cls, first, ms, k);
      var m, rest := ms[0], ms[1..];
      var p := Fragment(cls, first, Serialize(m));
      var tail := Stream(cls, first + |p|, rest);
      GenuinePacket(t, cls, first, m);
      if k >= |p| { PrefixGivesMessages(t, cls, first + |p|, rest, k - |p|); }
      ReadsOn(t, p, tail, k, cls, first, m, rest,
              WholeMessages(cls, first + |p|, rest, if k < |p| then 0 else k - |p|));
    }
  }

  /** All of the stream gives all of the messages. */
  lemma {:induction false} WholeStreamIsWhole(cls: Class, first: nat, ms: seq<Message>)
    requires AllValid(ms)
    ensures WholeMessages(cls, first, ms, |Stream(cls, first, ms)|) == |ms|
    decreases |ms|
  {
    if ms != [] {
      WholeStreamIsWhole(cls, first + |Fragment(cls, first, Serialize(ms[0]))|, ms[1..]);
    }
  }

  // --- The receive call ---

  /** memcpy into the message buffer. */
  method CopyInto(buffer: array<byte>, offset: nat, chunk: seq<byte>)
    requires offset + |chunk| <= buffer.Length
    modifies buffer
    ensures buffer[..] == Copied(old(buffer[..]), offset, chunk)
  {
    ghost var before := buffer[..];
    for k := 0 to |chunk|
      invariant forall i :: 0 <= i < buffer.Length ==>
          buffer[i] == if offset <= i < offset + k then chunk[i - offset] else before[i]
    {
      buffer[offset + k] := chunk[k];
    }
  }

  /**
   * One receive call on a queue that holds a whole packet: returns the buffer (null for an empty
   * message) and how many segments were dequeued. The precondition on `Fill` is memory safety.
   */
  method Receive(t: OffsetType, queue: seq<Segment>) returns (serialized: array?<byte>, used: nat)
    requires PacketEnd(queue).Some? && |queue[0].payload| >= PROT_HEADER_SIZE
    requires var p := queue[..PacketEnd(queue).value];
             ParseHeader(p[0].payload).len > 0 ==> Assemble(t, p).Some?
    ensures var p := queue[..PacketEnd(queue).value];
      if ParseHeader(p[0].payload).len == 0
      then serialized == null && used == 1 && Assemble(t, p) == None
      else serialized != null && used == |p| && Assemble(t, p) == Some(serialized[..])
  {
    ghost var end := PacketEnd(queue).value;
    ghost var p := queue[..end];
    var seg := queue[0];
    used := 1;
    var header := ParseHeader(seg.payload);
    if header.len == 0 { return null, 1; }
    var buffer := new byte[header.len](i => 0);
    assert buffer[..] == Zeros(header.len);
    var chunk := seg.payload[PROT_HEADER_SIZE..];
    ghost var all := Chunks(p);
    assert all[0] == chunk;
    CopyInto(buffer, 0, chunk);
    var offset := Advance(t, 0, |chunk|);
    var cont := seg.more;
    MoreUntilEnd(queue);
    while cont
      invariant 1 <= used <= end
      invariant cont <==> used < end
      invariant Fill(t, buffer[..], offset, all[used..]) == Assemble(t, p)
      decreases end - used
    {
      seg := queue[used];
      assert all[used] == p[used].payload == seg.payload;
      assert all[used..][1..] == all[used + 1..];
      CopyInto(buffer, offset, seg.payload);
      offset := Advance(t, offset, |seg.payload|);
      cont := seg.more;
      used := used + 1;
    }
    assert all[used..] == [];
    serialized := buffer;
  }

  lemma {:induction false} MoreUntilEnd(segs: seq<Segment>)
    requires PacketEnd(segs).Some?
    ensures forall i :: 0 <= i < PacketEnd(segs).value ==> (segs[i].more <==> i < PacketEnd(segs).value - 1)
  {
    if segs[0].more { MoreUntilEnd(segs[1..]); }
  }
}
