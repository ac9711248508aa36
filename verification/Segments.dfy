/** Values shared by the Linux and the Android side of the segment transport. */
module Segments {

  datatype Option<+T> = None | Some(value: T)

  type byte = x: int | 0 <= x < 256

  /** The two sequence-number spaces (kSNData, kSNControl). */
  datatype Class = Data | Control

  /** One value per class. */
  datatype PerClass<T> = PerClass(data: T, control: T) {
    function At(c: Class): T {
      if c == Data then data else control
    }

    function With(c: Class, v: T): PerClass<T> {
      if c == Data then PerClass(v, control) else PerClass(data, v)
    }
  }

  /** Payload bytes carried by one full segment (kSegSize). */
  const SEG_SIZE: nat := 512

  /** A numbered segment as an immutable value; `more` is the MF flag. */
  datatype Segment = Segment(no: nat, cls: Class, more: bool, payload: seq<byte>)

  /** A reordering queue: consecutive segments, out-of-order segments, next number wanted. */
  datatype Queue = Queue(main: seq<Segment>, pending: seq<Segment>, expected: nat)

  const EMPTY_QUEUE: Queue := Queue([], [], 0)

  ghost predicate Ascending(l: seq<Segment>) {
    forall i, j :: 0 <= i < j < |l| ==> l[i].no < l[j].no
  }

  /** `stream[i]` is segment number `i`. */
  ghost predicate Numbered(stream: seq<Segment>) {
    forall i :: 0 <= i < |stream| ==> stream[i].no == i
  }

  /** `s` is the segment the stream holds under its number. */
  ghost predicate Genuine(s: Segment, stream: seq<Segment>) {
    s.no < |stream| && stream[s.no] == s
  }

  ghost predicate AllGenuine(l: seq<Segment>, stream: seq<Segment>) {
    forall s :: s in l ==> Genuine(s, stream)
  }

  ghost predicate HasNo(l: seq<Segment>, n: nat) {
    exists i :: 0 <= i < |l| && l[i].no == n
  }
}
