/**
 * When the Android receive queue comes to the same as a sorted one. Its pending list is not sorted: a new segment lands
 * behind the first larger one, and only the head is ever taken out.
 */
module AndroidDraining {
  import opened Segments
  import opened AndroidQueue
  import LinuxQueue

  // --- The orders of arrival it copes with ---

  /** All smaller numbers arrived before it. */
  ghost predicate IsLeastMissing(before: seq<Segment>, n: nat) {
    forall m :: 0 <= m < n ==> HasNo(before, m)
  }

  ghost predicate IsLargest(before: seq<Segment>, n: nat) {
    forall i :: 0 <= i < |before| ==> before[i].no < n
  }

  /** Each arrival is the least number missing or larger than all before it. */
  ghost predicate Orderly(arrivals: seq<Segment>) {
    forall k :: 0 <= k < |arrivals| ==>
      IsLeastMissing(arrivals[..k], arrivals[k].no) || IsLargest(arrivals[..k], arrivals[k].no)
  }

  // --- While the arrivals are orderly ---

  lemma {:induction false} DrainIsPurge(q: Queue)
    requires Ascending(q.pending) && (q.pending != [] ==> q.pending[0].no >= q.expected)
    ensures LinuxQueue.Drain(q) == Purge(q)
    decreases |q.pending|
  {
    if q.pending != [] && q.pending[0].no == q.expected {
      DrainIsPurge(Queue(q.main + [q.pending[0]], q.pending[1..], q.expected + 1));
    }
  }

  lemma {:induction false} LargestGoesLast(pending: seq<Segment>, s: Segment)
    requires forall i :: 0 <= i < |pending| ==> pending[i].no < s.no
    ensures LinuxQueue.InsertSorted(pending, s) == InsertBehindLarger(pending, s) == pending + [s]
  {
    if pending != [] { LargestGoesLast(pending[1..], s); }
  }

  /** `q` is what both queues hold after these arrivals. */
  ghost predicate Holds(q: Queue, arrivals: seq<Segment>) {
    && Ascending(q.pending)
    && (forall i :: 0 <= i < |q.pending| ==> q.pending[i].no > q.expected && HasNo(arrivals, q.pending[i].no))
    && (forall n :: 0 <= n < q.expected ==> HasNo(arrivals, n))
    && !HasNo(arrivals, q.expected)
    && (forall i :: 0 <= i < |arrivals| ==> arrivals[i].no < q.expected || HasNo(q.pending, arrivals[i].no))
  }

  lemma {:induction false} EnqueueAllSnoc(q: Queue, arrivals: seq<Segment>, s: Segment)
    ensures LinuxQueue.EnqueueAll(q, arrivals + [s]) == LinuxQueue.Enqueued(LinuxQueue.EnqueueAll(q, arrivals), s)
    decreases |arrivals|
  {
    if arrivals == [] {
      assert [s][1..] == [] && [] + [s] == [s];
    } else {
      assert (arrivals + [s])[1..] == arrivals[1..] + [s];
      EnqueueAllSnoc(LinuxQueue.Enqueued(q, arrivals[0]), arrivals[1..], s);
    }
  }

  lemma ReceivedAllSnoc(q: Queue, arrivals: seq<Segment>, s: Segment)
    ensures ReceivedAll(q, arrivals + [s]) == Received(ReceivedAll(q, arrivals), s)
  {
    ReceivedAllConcat(q, arrivals, [s]);
    assert [s][1..] == [];
  }

  lemma ArrivedHas(arrivals: seq<Segment>, n: nat)
    requires LinuxQueue.DistinctNos(arrivals)
    ensures n in LinuxQueue.Arrived(map[], arrivals) <==> HasNo(arrivals, n)
  {
    LinuxQueue.ArrivedIs(map[], arrivals);
  }

  ghost predicate SameNumbers(arrivals: seq<Segment>, arrived: map<nat, Segment>) {
    forall n: nat :: n in arrived <==> HasNo(arrivals, n)
  }

  lemma ViewHolds(q: Queue, arrivals: seq<Segment>, arrived: map<nat, Segment>)
    requires LinuxQueue.Views(q, [], arrived) && SameNumbers(arrivals, arrived)
    ensures Holds(q, arrivals)
  {
    assert [] + q.main == q.main;
    assert forall n :: 0 <= n < q.expected ==> n in arrived;
    forall i | 0 <= i < |q.pending| ensures q.pending[i].no > q.expected && HasNo(arrivals, q.pending[i].no) {
      assert q.pending[i] in q.pending;
    }
    forall i | 0 <= i < |arrivals| && arrivals[i].no >= q.expected ensures HasNo(q.pending, arrivals[i].no) {
      assert HasNo(arrivals, arrivals[i].no);
      assert arrived[arrivals[i].no] in q.pending;
    }
  }

  /** What the sorted queue holds, in terms of the arrivals. */
  lemma SortedHolds(arrivals: seq<Segment>)
    requires LinuxQueue.DistinctNos(arrivals)
    ensures Holds(LinuxQueue.EnqueueAll(EMPTY_QUEUE, arrivals), arrivals)
  {
    assert LinuxQueue.Views(EMPTY_QUEUE, [], map[]);
    hide LinuxQueue.EnqueueAll, LinuxQueue.Arrived, LinuxQueue.Views, Holds;
    LinuxQueue.EnqueueAllViews(EMPTY_QUEUE, arrivals, [], map[]);
    var arrived := LinuxQueue.Arrived(map[], arrivals);
    forall n: nat ensures n in arrived <==> HasNo(arrivals, n) { ArrivedHas(arrivals, n); }
    ViewHolds(LinuxQueue.EnqueueAll(EMPTY_QUEUE, arrivals), arrivals, arrived);
  }

  /** An orderly arrival changes both queues alike. */
  lemma OrderlyStep(q: Queue, before: seq<Segment>, s: Segment)
    requires Holds(q, before) && !HasNo(before, s.no)
    requires IsLeastMissing(before, s.no) || IsLargest(before, s.no)
    ensures Received(q, s) == LinuxQueue.Enqueued(q, s)
  {
    assert s.no >= q.expected;
    if s.no == q.expected {
      DrainIsPurge(q.(main := q.main + [s], expected := q.expected + 1));
    } else {
      assert IsLargest(before, s.no);
      forall i | 0 <= i < |q.pending| ensures q.pending[i].no < s.no {
        var k :| 0 <= k < |before| && before[k].no == q.pending[i].no;
      }
      LargestGoesLast(q.pending, s);
      assert Ascending(q.pending + [s]);
      DrainIsPurge(q.(pending := q.pending + [s]));
    }
  }

  lemma Front(arrivals: seq<Segment>)
    requires arrivals != [] && LinuxQueue.DistinctNos(arrivals)
    ensures var front := arrivals[..|arrivals| - 1];
      && LinuxQueue.DistinctNos(front) && !HasNo(front, arrivals[|arrivals| - 1].no)
      && (Orderly(arrivals) ==> Orderly(front))
  {
    var front := arrivals[..|arrivals| - 1];
    assert forall k :: 0 <= k < |front| ==> front[k] == arrivals[k] && front[..k] == arrivals[..k];
  }

  lemma {:induction false} SameWhileOrderly(arrivals: seq<Segment>)
    requires LinuxQueue.DistinctNos(arrivals) && Orderly(arrivals)
    ensures ReceivedAll(EMPTY_QUEUE, arrivals) == LinuxQueue.EnqueueAll(EMPTY_QUEUE, arrivals)
    decreases |arrivals|
  {
    if arrivals != [] {
      var front, s := arrivals[..|arrivals| - 1], arrivals[|arrivals| - 1];
      Front(arrivals);
      SameWhileOrderly(front);
      SortedHolds(front);
      OrderlyStep(LinuxQueue.EnqueueAll(EMPTY_QUEUE, front), front, s);
      assert arrivals == front + [s];
      EnqueueAllSnoc(EMPTY_QUEUE, front, s);
      ReceivedAllSnoc(EMPTY_QUEUE, front, s);
    }
  }

  // --- After the first disorderly one ---

  /** Number `x` stands behind a larger one, with only smaller ones before that. */
  ghost predicate Behind(pending: seq<Segment>, x: nat) {
    && pending != []
    && (pending[0].no > x ==> HasNo(pending[1..], x))
    && (pending[0].no <= x ==> pending[0].no < x && Behind(pending[1..], x))
  }

  /** Number `x` is caught: it will not become the head before the wanted number has passed it. */
  ghost predicate Wedged(q: Queue, x: nat) {
    q.expected <= x && Behind(q.pending, x)
  }

  lemma {:induction false} PurgeStaysWedged(q: Queue, x: nat)
    requires Wedged(q, x)
    ensures Wedged(Purge(q), x)
    decreases |q.pending|
  {
    if q.expected > q.pending[0].no {
      PurgeStaysWedged(q.(pending := q.pending[1..]), x);
    } else if q.expected == q.pending[0].no {
      PurgeStaysWedged(Queue(q.main + [q.pending[0]], q.pending[1..], q.expected + 1), x);
    }
  }

  lemma HasInserted(pending: seq<Segment>, s: Segment, n: nat)
    ensures HasNo(InsertBehindLarger(pending, s), n) <==> HasNo(pending, n) || n == s.no
  {
    var p := InsertBehindLarger(pending, s);
    InsertBehindLargerMembers(pending, s);
    if HasNo(pending, n) {
      var i :| 0 <= i < |pending| && pending[i].no == n;
      assert pending[i] in p;
    }
    assert s in p;
    if HasNo(p, n) {
      var i :| 0 <= i < |p| && p[i].no == n;
      assert p[i] in p;
    }
  }

  lemma HasCons(h: Segment, rest: seq<Segment>, n: nat)
    ensures HasNo([h] + rest, n) <==> h.no == n || HasNo(rest, n)
  {
    var l := [h] + rest;
    assert l[0] == h && forall i :: 0 <= i < |rest| ==> l[i + 1] == rest[i];
  }

  lemma {:induction false} InsertStaysBehind(pending: seq<Segment>, s: Segment, x: nat)
    requires Behind(pending, x) && s.no != x
    ensures Behind(InsertBehindLarger(pending, s), x)
  {
    var h, rest := pending[0], pending[1..];
    if h.no > s.no {
      var p := [h, s] + rest;
      assert InsertBehindLarger(pending, s) == p && p[1..] == [s] + rest && ([s] + rest)[1..] == rest;
      HasCons(s, rest, x);
    } else {
      var tail := InsertBehindLarger(rest, s);
      assert InsertBehindLarger(pending, s) == [h] + tail && ([h] + tail)[1..] == tail;
      HasInserted(rest, s, x);
      if h.no < x { InsertStaysBehind(rest, s, x); }
    }
  }

  lemma WedgedStays(q: Queue, s: Segment, x: nat)
    requires Wedged(q, x) && s.no != x
    ensures Wedged(Received(q, s), x)
  {
    if s.no == q.expected {
      PurgeStaysWedged(q.(main := q.main + [s], expected := q.expected + 1), x);
    } else if s.no > q.expected {
      InsertStaysBehind(q.pending, s, x);
      PurgeStaysWedged(q.(pending := InsertBehindLarger(q.pending, s)), x);
    }
  }

  /** Caught once, a number stays caught until it is sent again. */
  lemma {:induction false} WedgedForever(q: Queue, arrivals: seq<Segment>, x: nat)
    requires Wedged(q, x) && !HasNo(arrivals, x)
    ensures Wedged(ReceivedAll(q, arrivals), x)
    decreases |arrivals|
  {
    if arrivals != [] {
      HasCons(arrivals[0], arrivals[1..], x);
      assert arrivals == [arrivals[0]] + arrivals[1..];
      WedgedStays(q, arrivals[0], x);
      WedgedForever(Received(q, arrivals[0]), arrivals[1..], x);
    }
  }

  lemma {:induction false} LandsBehind(pending: seq<Segment>, s: Segment, i: nat)
    requires i < |pending| && pending[i].no > s.no && !HasNo(pending, s.no)
    ensures Behind(InsertBehindLarger(pending, s), s.no)
  {
    var h, rest := pending[0], pending[1..];
    assert pending == [h] + rest;
    HasCons(h, rest, s.no);
    if h.no > s.no {
      var p := [h, s] + rest;
      assert InsertBehindLarger(pending, s) == p && p[1..][0] == s;
    } else {
      assert rest[i - 1] == pending[i];
      LandsBehind(rest, s, i - 1);
      assert ([h] + InsertBehindLarger(rest, s))[1..] == InsertBehindLarger(rest, s);
    }
  }

  /** A new number that is neither the wanted one nor the largest gets caught. */
  lemma DisorderlyStep(q: Queue, before: seq<Segment>, s: Segment)
    requires Holds(q, before) && !HasNo(before, s.no)
    requires !IsLeastMissing(before, s.no) && !IsLargest(before, s.no)
    ensures Wedged(Received(q, s), s.no)
  {
    assert s.no > q.expected;
    var k :| 0 <= k < |before| && before[k].no >= s.no;
    assert HasNo(before, before[k].no) && before[k].no > s.no;
    var i :| 0 <= i < |q.pending| && q.pending[i].no == before[k].no;
    assert !HasNo(q.pending, s.no);
    LandsBehind(q.pending, s, i);
    PurgeStaysWedged(q.(pending := InsertBehindLarger(q.pending, s)), s.no);
  }

  lemma BehindIsUnsorted(pending: seq<Segment>, x: nat)
    requires Behind(pending, x)
    ensures pending != [] && !Ascending(pending)
  {
    if pending[0].no > x {
      var i :| 0 <= i < |pending[1..]| && pending[1..][i].no == x;
      assert pending[i + 1].no == x;
    } else {
      BehindIsUnsorted(pending[1..], x);
      var i, j :| 0 <= i < j < |pending[1..]| && pending[1..][i].no >= pending[1..][j].no;
      assert pending[i + 1].no >= pending[j + 1].no;
    }
  }

  /** From the first disorderly arrival on, some number is caught. */
  lemma {:induction false} CaughtWhenDisorderly(arrivals: seq<Segment>) returns (x: nat)
    requires LinuxQueue.DistinctNos(arrivals) && !Orderly(arrivals)
    ensures HasNo(arrivals, x) && Wedged(ReceivedAll(EMPTY_QUEUE, arrivals), x)
    decreases |arrivals|
  {
    var front, s := arrivals[..|arrivals| - 1], arrivals[|arrivals| - 1];
    Front(arrivals);
    assert arrivals == front + [s];
    hide Orderly, Wedged, Received, ReceivedAll, LinuxQueue.EnqueueAll;
    ReceivedAllSnoc(EMPTY_QUEUE, front, s);
    if Orderly(front) {
      x := s.no;
      assert arrivals[|arrivals| - 1].no == x;
      LastIsDisorderly(arrivals);
      SameWhileOrderly(front);
      SortedHolds(front);
      DisorderlyStep(LinuxQueue.EnqueueAll(EMPTY_QUEUE, front), front, s);
    } else {
      x := CaughtWhenDisorderly(front);
      var i :| 0 <= i < |front| && front[i].no == x;
      assert arrivals[i].no == x;
      WedgedStays(ReceivedAll(EMPTY_QUEUE, front), s, x);
    }
  }

  lemma LastIsDisorderly(arrivals: seq<Segment>)
    requires arrivals != [] && !Orderly(arrivals) && Orderly(arrivals[..|arrivals| - 1])
    ensures var front, n := arrivals[..|arrivals| - 1], arrivals[|arrivals| - 1].no;
      !IsLeastMissing(front, n) && !IsLargest(front, n)
  {
    var front := arrivals[..|arrivals| - 1];
    assert forall k :: 0 <= k < |front| ==> front[k] == arrivals[k] && front[..k] == arrivals[..k];
  }

  // --- Exactly when ---

  /** For arrivals without repetition, the unsorted queue ends up like the sorted one exactly if they are orderly. */
  lemma SortsExactly(arrivals: seq<Segment>)
    requires LinuxQueue.DistinctNos(arrivals)
    ensures ReceivedAll(EMPTY_QUEUE, arrivals) == LinuxQueue.EnqueueAll(EMPTY_QUEUE, arrivals) <==> Orderly(arrivals)
  {
    if Orderly(arrivals) {
      SameWhileOrderly(arrivals);
    } else {
      var x := CaughtWhenDisorderly(arrivals);
      BehindIsUnsorted(ReceivedAll(EMPTY_QUEUE, arrivals).pending, x);
      SortedHolds(arrivals);
    }
  }

  /**
   * When all of a stream has arrived, each segment once and in any order, the queue has drained by itself exactly if
   * each arrival was the least number missing or larger than all before it.
   */
  lemma DrainsExactly(stream: seq<Segment>, arrivals: seq<Segment>)
    requires Numbered(stream) && LinuxQueue.DistinctNos(arrivals)
    requires forall s :: s in arrivals <==> s in stream
    ensures ReceivedAll(EMPTY_QUEUE, arrivals).pending == [] <==> Orderly(arrivals)
    ensures Orderly(arrivals) ==> ReceivedAll(EMPTY_QUEUE, arrivals) == Queue(stream, [], |stream|)
  {
    if Orderly(arrivals) {
      SameWhileOrderly(arrivals);
      LinuxQueue.PermutationDrains(stream, arrivals);
    } else {
      var x := CaughtWhenDisorderly(arrivals);
      BehindIsUnsorted(ReceivedAll(EMPTY_QUEUE, arrivals).pending, x);
    }
  }
}
