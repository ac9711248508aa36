/** The sorted list of sent segments: insertion from the back, freeing and range retransmission. */
module SentList {
  import opened Segments

  /** Walks from the back to the first smaller number; a number already present is not added again. */
  function Inserted(l: seq<Segment>, s: Segment): seq<Segment>
    decreases |l|
  {
    if l == [] then [s]
    else
      var last := l[|l| - 1];
      if last.no < s.no then l + [s]
      else if last.no > s.no then
        var front := Inserted(l[..|l| - 1], s);
        front + [last]
      else l
  }

  /** What is left when the peer acknowledges everything up to `last`. */
  function Freed(l: seq<Segment>, last: nat): seq<Segment> {
    if l == [] then []
    else if l[0].no <= last then Freed(l[1..], last)
    else [l[0]] + Freed(l[1..], last)
  }

  /** The held segments of a requested range, in list order. */
  function InRange(l: seq<Segment>, first: nat, last: nat): seq<Segment> {
    if l == [] then []
    else if first <= l[0].no <= last then [l[0]] + InRange(l[1..], first, last)
    else InRange(l[1..], first, last)
  }

  /** The list `f` is `front` with `s`; a larger last segment goes behind both. */
  lemma InsertedBefore(front: seq<Segment>, f: seq<Segment>, s: Segment, last: Segment)
    requires Ascending(f) && s.no < last.no && forall x :: x in front ==> x.no < last.no
    requires forall x :: x in f <==> x in front || (x == s && !HasNo(front, s.no))
    requires forall n :: HasNo(f, n) <==> HasNo(front, n) || n == s.no
    ensures Ascending(f + [last])
    ensures forall x :: x in f + [last] <==> x in front + [last] || (x == s && !HasNo(front + [last], s.no))
    ensures forall n :: HasNo(f + [last], n) <==> HasNo(front + [last], n) || n == s.no
  {
    forall i | 0 <= i < |f| ensures f[i].no < last.no { assert f[i] in f; }
    forall n ensures HasNo(f + [last], n) <==> HasNo(front + [last], n) || n == s.no {
      NoSnoc(f, last, n);
      NoSnoc(front, last, n);
    }
    NoSnoc(front, last, s.no);
  }

  lemma {:induction false} InsertedIs(l: seq<Segment>, s: Segment)
    requires Ascending(l)
    ensures Ascending(Inserted(l, s))
    ensures forall x :: x in Inserted(l, s) <==> x in l || (x == s && !HasNo(l, s.no))
    ensures forall n :: HasNo(Inserted(l, s), n) <==> HasNo(l, n) || n == s.no
    decreases |l|
  {
    if l == [] {
      assert Inserted(l, s)[0].no == s.no;
    } else {
      var front, last := l[..|l| - 1], l[|l| - 1];
      assert l == front + [last];
      if last.no < s.no {
        forall n ensures HasNo(l + [s], n) <==> HasNo(l, n) || n == s.no { NoSnoc(l, s, n); }
      } else if last.no > s.no {
        InsertedIs(front, s);
        var f := Inserted(front, s);
        InsertedBefore(front, f, s, last);
      }
    }
  }

  lemma NoSnoc(l: seq<Segment>, s: Segment, n: nat)
    ensures HasNo(l + [s], n) <==> HasNo(l, n) || s.no == n
  {
    var r := l + [s];
    assert r[|l|] == s;
    assert forall i :: 0 <= i < |l| ==> r[i] == l[i];
  }

  lemma NoCons(s: Segment, l: seq<Segment>, n: nat)
    ensures HasNo([s] + l, n) <==> s.no == n || HasNo(l, n)
  {
    var r := [s] + l;
    assert r[0] == s;
    assert forall i :: 0 <= i < |l| ==> r[i + 1] == l[i];
  }

  lemma {:induction false} FreedIs(l: seq<Segment>, last: nat)
    ensures forall x :: x in Freed(l, last) <==> x in l && x.no > last
    ensures Ascending(l) ==> Ascending(Freed(l, last))
    ensures forall n: nat :: HasNo(Freed(l, last), n) <==> HasNo(l, n) && n > last
  {
    if l != [] {
      FreedIs(l[1..], last);
      assert l == [l[0]] + l[1..];
      forall n: nat ensures HasNo(Freed(l, last), n) <==> HasNo(l, n) && n > last {
        NoCons(l[0], l[1..], n);
        NoCons(l[0], Freed(l[1..], last), n);
      }
    }
  }

  lemma {:induction false} InRangeIs(l: seq<Segment>, first: nat, last: nat)
    ensures forall x :: x in InRange(l, first, last) <==> x in l && first <= x.no <= last
    ensures Ascending(l) ==> Ascending(InRange(l, first, last))
  {
    if l != [] {
      InRangeIs(l[1..], first, last);
      assert l == [l[0]] + l[1..];
    }
  }

  /** An ascending list of numbers from a range has at most one entry per number. */
  lemma {:induction false} AscendingFits(l: seq<Segment>, first: nat, last: nat)
    requires Ascending(l) && first <= last + 1
    requires forall x :: x in l ==> first <= x.no <= last
    ensures |l| <= last + 1 - first
    ensures |l| == last + 1 - first ==> forall i :: 0 <= i < |l| ==> l[i].no == first + i
    ensures |l| == last + 1 - first <==> forall n :: first <= n <= last ==> HasNo(l, n)
    decreases |l|
  {
    if l == [] {
      if first <= last { assert !HasNo(l, first); }
    } else {
      var rest := l[1..];
      assert l[0] in l;
      assert l == [l[0]] + rest;
      AscendingFits(rest, l[0].no + 1, last);
      forall n ensures HasNo(l, n) <==> n == l[0].no || HasNo(rest, n) { NoCons(l[0], rest, n); }
      if forall n :: first <= n <= last ==> HasNo(l, n) {
        assert HasNo(l, first);
        assert l[0].no == first;
        assert forall n :: first + 1 <= n <= last ==> HasNo(rest, n);
      }
      if |l| == last + 1 - first {
        assert l[0].no == first;
        assert forall n :: first + 1 <= n <= last ==> HasNo(rest, n);
      }
    }
  }

  /** The number of retransmitted segments equals the number requested exactly if none is missing. */
  lemma RetransmitCount(l: seq<Segment>, first: nat, last: nat)
    requires Ascending(l) && first <= last
    ensures |InRange(l, first, last)| <= last - first + 1
    ensures |InRange(l, first, last)| == last - first + 1 <==> forall n :: first <= n <= last ==> HasNo(l, n)
  {
    InRangeIs(l, first, last);
    AscendingFits(InRange(l, first, last), first, last);
    forall n | first <= n <= last ensures HasNo(l, n) <==> HasNo(InRange(l, first, last), n) {
      var r := InRange(l, first, last);
      if HasNo(l, n) {
        var i :| 0 <= i < |l| && l[i].no == n;
        assert l[i] in r;
      }
      if HasNo(r, n) {
        var i :| 0 <= i < |r| && r[i].no == n;
        assert r[i] in l;
      }
    }
  }

  /** With nothing missing, a range of a genuine list is the corresponding slice of the stream. */
  lemma RetransmitIsSlice(l: seq<Segment>, stream: seq<Segment>, first: nat, last: nat)
    requires Ascending(l) && AllGenuine(l, stream) && first <= last < |stream|
    requires forall n :: first <= n <= last ==> HasNo(l, n)
    ensures InRange(l, first, last) == stream[first..last + 1]
  {
    InRangeIs(l, first, last);
    RetransmitCount(l, first, last);
    var r := InRange(l, first, last);
    AscendingFits(r, first, last);
    assert forall i :: 0 <= i < |r| ==> r[i] in r;
  }

  // --- Whole histories of the list ---

  datatype Op = Insert(s: Segment) | Free(last: nat) | Retransmit(first: nat, last: nat)

  function After(l: seq<Segment>, op: Op): seq<Segment> {
    match op
    case Insert(s) => Inserted(l, s)
    case Free(last) => Freed(l, last)
    case Retransmit(_, _) => l
  }

  function Run(ops: seq<Op>): seq<Segment> {
    if ops == [] then [] else After(Run(ops[..|ops| - 1]), ops[|ops| - 1])
  }

  /** Number `n` was inserted and no later acknowledgement reached it. */
  predicate Alive(ops: seq<Op>, n: nat) {
    if ops == [] then false
    else
      var before := Alive(ops[..|ops| - 1], n);
      match ops[|ops| - 1]
      case Insert(s) => s.no == n || before
      case Free(last) => n > last && before
      case Retransmit(_, _) => before
  }

  /** After any history the list is strictly ascending and holds exactly the unacknowledged insertions. */
  lemma {:induction false} RunExactly(ops: seq<Op>)
    ensures Ascending(Run(ops))
    ensures forall n :: HasNo(Run(ops), n) <==> Alive(ops, n)
  {
    if ops != [] {
      RunExactly(ops[..|ops| - 1]);
      match ops[|ops| - 1]
      case Insert(s) => InsertedIs(Run(ops[..|ops| - 1]), s);
      case Free(last) => FreedIs(Run(ops[..|ops| - 1]), last);
      case Retransmit(_, _) =>
    }
  }
}
