/** What the receiving half of the BayTCP agent does with data: trimming, the in-order path, and the queue of segments
    that arrived too early. The agent and its queue share one `rcv_nxt_`, here `next`. */
module BayReassembly {

  datatype Flags = Flags(fin: bool, push: bool)
  datatype Segment = Segment(start: int, end: int, flags: Flags)
  datatype State = State(queue: seq<Segment>, next: int)

  const NO_FLAGS := Flags(false, false)

  /** The first queued segment starting at `end` or later. */
  function Follower(q: seq<Segment>, end: int): (i: nat)
    ensures i <= |q| && (forall k | 0 <= k < i :: q[k].start < end) && (i < |q| ==> q[i].start >= end)
  {
    if q == [] || q[0].start >= end then 0 else 1 + Follower(q[1..], end)
  }

  function Place(q: seq<Segment>, s: Segment): (i: nat)
    ensures i <= |q|
  {
    if q == [] then 0 else if q[|q| - 1].end <= s.start then |q| else Follower(q, s.end)
  }

  function Insert(q: seq<Segment>, s: Segment): (r: seq<Segment>)
    ensures |r| == |q| + 1
  {
    q[..Place(q, s)] + [s] + q[Place(q, s)..]
  }

  /** How many segments at the head of the queue follow each other without a hole. */
  function RunLength(q: seq<Segment>): (k: nat)
    requires q != []
    ensures 1 <= k <= |q|
  {
    if |q| == 1 || q[0].end < q[1].start then 1 else 1 + RunLength(q[1..])
  }

  function Join(q: seq<Segment>): Flags {
    if q == [] then NO_FLAGS
    else var f := Join(q[..|q| - 1]);
      Flags(f.fin || q[|q| - 1].flags.fin, f.push || q[|q| - 1].flags.push)
  }

  /** Inserts, then takes what has become contiguous off the queue. */
  function Add(st: State, s: Segment): (State, Flags) {
    var q := Insert(st.queue, s);
    if q[0].start > st.next then (State(q, st.next), NO_FLAGS)
    else var k := RunLength(q);
      (State(q[k..], q[k - 1].end), Join(q[..k]))
  }

  /** Cuts off what lies before `next`. The packet's size does not change with it: see `AsQueued`. */
  function Trim(next: int, s: Segment): Segment {
    var todrop, datalen := next - s.start, s.end - s.start;
    if todrop <= 0 then s
    else if todrop > datalen || (todrop == datalen && !s.flags.fin)
    then Segment(s.end, s.end, s.flags.(fin := false))
    else Segment(next, s.end, s.flags)
  }

  /** What the queue makes of a trimmed packet: it starts at the new sequence number, and ends as far behind it as the
      whole packet was long. */
  function AsQueued(next: int, arriving: Segment): Segment {
    var s := Trim(next, arriving);
    Segment(s.start, s.start + (arriving.end - arriving.start), s.flags)
  }

  /** Whether anything of an arriving segment is new, and whether it can be delivered at once. */
  predicate IsNew(st: State, arriving: Segment) {
    var s := Trim(st.next, arriving);
    s.end > s.start || s.flags.fin
  }

  predicate InOrder(st: State, arriving: Segment) {
    IsNew(st, arriving) && Trim(st.next, arriving).start == st.next && st.queue == []
  }

  /** One arriving segment; the flags are those left for the rest of the handler to act on. */
  function Receive(st: State, arriving: Segment): (State, Flags) {
    var s := Trim(st.next, arriving);
    var (st', flags) :=
      if s.end > s.start || s.flags.fin then
        if s.start == st.next && st.queue == [] then
          (State([], s.end + if s.flags.fin then 1 else 0), Flags(s.flags.fin, false))
        else Add(st, AsQueued(st.next, arriving))
      else (st, s.flags);
    (if flags.fin then st'.(queue := []) else st', flags)
  }

  function Run(isn: int, segs: seq<Segment>): State {
    if segs == [] then State([], isn)
    else Receive(Run(isn, segs[..|segs| - 1]), segs[|segs| - 1]).0
  }

  // ---------- data cut from one segmentation ----------

  predicate SameRange(a: Segment, b: Segment) {
    a.start == b.start && a.end == b.end
  }

  predicate Apart(a: Segment, b: Segment) {
    a.end <= b.start || b.end <= a.start
  }

  /** Data segments of one fixed segmentation of the bytes from `isn` on, in any order, with duplicates. */
  predicate Cut(isn: int, segs: seq<Segment>) {
    && (forall a | a in segs :: isn <= a.start < a.end && !a.flags.fin)
    && (forall a, b | a in segs && b in segs :: SameRange(a, b) || Apart(a, b))
  }

  predicate Covered(segs: seq<Segment>, x: int) {
    exists a | a in segs :: a.start <= x < a.end
  }

  predicate Sorted(q: seq<Segment>) {
    forall i, j | 0 <= i < j < |q| :: SameRange(q[i], q[j]) || q[i].end <= q[j].start
  }

  predicate Queued(q: seq<Segment>, a: Segment) {
    exists i | 0 <= i < |q| :: SameRange(q[i], a)
  }

  predicate WellCut(q: seq<Segment>) {
    forall a | a in q :: a.start < a.end && !a.flags.fin
  }

  /** What is queued was received, and starts beyond `next`. */
  predicate Early(segs: seq<Segment>, q: seq<Segment>, next: int) {
    forall a | a in q :: a in segs && a.start > next
  }

  /** What was received lies before `next` or is queued. */
  predicate Kept(segs: seq<Segment>, q: seq<Segment>, next: int) {
    forall a | a in segs :: a.end <= next || Queued(q, a)
  }

  ghost predicate Filled(segs: seq<Segment>, from: int, next: int) {
    forall x | from <= x < next :: Covered(segs, x)
  }

  ghost predicate Agrees(isn: int, segs: seq<Segment>, st: State) {
    && isn <= st.next && Sorted(st.queue) && Early(segs, st.queue, st.next) && Kept(segs, st.queue, st.next)
    && Filled(segs, isn, st.next)
  }

  /** A segment reaching back before `next` has been received before, and is dropped whole. */
  lemma OldIsWholly(isn: int, segs: seq<Segment>, st: State, s: Segment)
    requires Cut(isn, segs + [s]) && Agrees(isn, segs, st) && s.start < st.next
    ensures s.end <= st.next && Receive(st, s).0 == st
  {
    assert s in segs + [s];
    assert Covered(segs, st.next - 1);
    var a :| a in segs && a.start <= st.next - 1 < a.end;
    assert a in segs + [s];
    KeptEarly(segs, st.queue, st.next, a);
  }

  /** No received segment straddles `next`. */
  lemma KeptEarly(segs: seq<Segment>, q: seq<Segment>, next: int, a: Segment)
    requires Kept(segs, q, next) && Early(segs, q, next) && a in segs
    ensures a.end <= next || a.start > next
    ensures a.end <= next || exists b | b in q :: SameRange(a, b)
  {
    if Queued(q, a) {
      var i :| 0 <= i < |q| && SameRange(q[i], a);
      assert q[i] in q;
    }
  }

  // ---------- inserting ----------

  predicate Fits(q: seq<Segment>, s: Segment) {
    s.start < s.end && forall a | a in q :: SameRange(a, s) || Apart(a, s)
  }

  predicate Splits(q: seq<Segment>, s: Segment, i: nat)
    requires i <= |q|
  {
    && (forall k | 0 <= k < i :: SameRange(q[k], s) || q[k].end <= s.start)
    && (forall k | i <= k < |q| :: s.end <= q[k].start)
  }

  lemma PlaceSplits(q: seq<Segment>, s: Segment)
    requires Sorted(q) && WellCut(q) && Fits(q, s)
    ensures Splits(q, s, Place(q, s))
  {
    var i := Place(q, s);
    assert forall k | 0 <= k < |q| :: q[k] in q;
    if q != [] && q[|q| - 1].end <= s.start {
      assert i == |q|;
    } else {
      forall k | i <= k < |q| ensures s.end <= q[k].start {
        if k > i {
          assert SameRange(q[i], q[k]) || q[i].end <= q[k].start;
        }
      }
    }
  }

  lemma SplitSorted(q: seq<Segment>, s: Segment, i: nat)
    requires Sorted(q) && i <= |q| && Splits(q, s, i)
    ensures Sorted(q[..i] + [s] + q[i..])
  {
    var r := q[..i] + [s] + q[i..];
    forall j, k | 0 <= j < k < |r| ensures SameRange(r[j], r[k]) || r[j].end <= r[k].start {
      var j', k' := if j < i then j else j - 1, if k < i then k else k - 1;
      if j == i || k == i {
      } else {
        assert r[j] == q[j'] && r[k] == q[k'];
      }
    }
  }

  lemma InsertHas(q: seq<Segment>, s: Segment)
    ensures forall a :: a in Insert(q, s) <==> a in q || a == s
    ensures forall a | Queued(q, a) || SameRange(s, a) :: Queued(Insert(q, s), a)
  {
    var i, r := Place(q, s), Insert(q, s);
    assert q == q[..i] + q[i..];
    assert r[i] == s;
    forall a | Queued(q, a) ensures Queued(r, a) {
      var k :| 0 <= k < |q| && SameRange(q[k], a);
      assert r[if k < i then k else k + 1] == q[k];
    }
  }

  // ---------- taking off the run at the head ----------

  /** In a sorted queue a hole comes after the run at the head. */
  lemma {:induction false} RunEnds(q: seq<Segment>)
    requires q != [] && Sorted(q) && WellCut(q)
    ensures var k := RunLength(q);
      && (forall i | 0 <= i < k :: q[i].end <= q[k - 1].end)
      && (forall i | k <= i < |q| :: q[i].start > q[k - 1].end)
  {
    hide Sorted, WellCut;
    var k := RunLength(q);
    if k == 1 {
      if |q| > 1 { HoleAfter(q); }
    } else {
      TailSorted(q);
      RunEnds(q[1..]);
      TailEnds(q, k);
    }
  }

  lemma TailSorted(q: seq<Segment>)
    requires |q| > 1 && Sorted(q) && WellCut(q)
    ensures Sorted(q[1..]) && WellCut(q[1..]) && q[0].end <= q[1].end
  {
    assert q[1] in q;
    assert SameRange(q[0], q[1]) || q[0].end <= q[1].start;
  }

  lemma HoleAfter(q: seq<Segment>)
    requires |q| > 1 && Sorted(q) && WellCut(q) && q[0].end < q[1].start
    ensures forall i | 1 <= i < |q| :: q[i].start > q[0].end
  {
    assert q[1] in q;
    forall i | 1 <= i < |q| ensures q[i].start > q[0].end {
      if i > 1 { assert SameRange(q[1], q[i]) || q[1].end <= q[i].start; }
    }
  }

  lemma TailEnds(q: seq<Segment>, k: nat)
    requires 1 < k <= |q| && q[0].end <= q[1].end
    requires var t := q[1..];
      && (forall i | 0 <= i < k - 1 :: t[i].end <= t[k - 2].end)
      && (forall i | k - 1 <= i < |t| :: t[i].start > t[k - 2].end)
    ensures forall i | 0 <= i < k :: q[i].end <= q[k - 1].end
    ensures forall i | k <= i < |q| :: q[i].start > q[k - 1].end
  {
    var t := q[1..];
    forall i | 0 <= i < k ensures q[i].end <= q[k - 1].end {
      assert t[if i == 0 then 0 else i - 1].end <= q[k - 1].end;
    }
    forall i | k <= i < |q| ensures q[i].start > q[k - 1].end {
      assert t[i - 1] == q[i];
    }
  }

  /** The run itself leaves no hole. */
  lemma {:induction false} RunHasNoHole(q: seq<Segment>)
    requires q != []
    ensures Filled(q, q[0].start, q[RunLength(q) - 1].end)
  {
    var k := RunLength(q);
    if k > 1 {
      var t := q[1..];
      RunHasNoHole(t);
      assert t[k - 2] == q[k - 1];
      hide RunLength;
      forall x | q[0].start <= x < q[k - 1].end ensures Covered(q, x) {
        if x >= q[0].end { CoveredTail(q, x); }
      }
    }
  }

  lemma CoveredTail(q: seq<Segment>, x: int)
    requires q != [] && Covered(q[1..], x)
    ensures Covered(q, x)
  {
  }

  lemma FilledMore(segs: seq<Segment>, q: seq<Segment>, more: seq<Segment>, from: int, mid: int, next: int)
    requires Filled(segs, from, mid) && Filled(q, mid, next)
    requires (forall a | a in segs :: a in more) && (forall a | a in q :: a in more)
    ensures Filled(more, from, next)
  {
    forall x | from <= x < next ensures Covered(more, x) {
      assert Covered(if x < mid then segs else q, x);
    }
  }

  lemma TakeOff(segs: seq<Segment>, q: seq<Segment>, next: int)
    requires q != [] && Sorted(q) && WellCut(q) && Kept(segs, q, next) && next <= q[0].start
    ensures var k := RunLength(q); var end := q[k - 1].end;
      next <= end && Sorted(q[k..]) && (forall a | a in q[k..] :: a in q && a.start > end) && Kept(segs, q[k..], end)
  {
    RunEnds(q);
    var k := RunLength(q);
    var end := q[k - 1].end;
    assert q[0] in q && q[0].end <= end;
    hide RunLength, Filled, WellCut;
    forall a | a in segs && a.end > end ensures Queued(q[k..], a) {
      var i :| 0 <= i < |q| && SameRange(q[i], a);
      assert q[k..][i - k] == q[i];
    }
  }

  lemma InsertIs(q: seq<Segment>, s: Segment)
    ensures Insert(q, s) == q[..Place(q, s)] + [s] + q[Place(q, s)..]
  {
  }

  /** The queue once the segment is in it. */
  lemma InsertReady(isn: int, segs: seq<Segment>, st: State, s: Segment)
    requires Cut(isn, segs + [s]) && Agrees(isn, segs, st) && s.start >= st.next
    ensures var q, more := Insert(st.queue, s), segs + [s];
      && Sorted(q) && WellCut(q) && Kept(more, q, st.next) && q[0].start >= st.next
      && (forall a | a in q :: a in more)
  {
    hide Insert, Place, Sorted, Cut, Fits, Splits, Kept, WellCut, Filled, Early;
    QueueFits(isn, segs, st, s);
    InsertKeeps(isn, segs, st, s);
    PlaceSplits(st.queue, s);
    SplitSorted(st.queue, s, Place(st.queue, s));
    InsertIs(st.queue, s);
  }

  lemma DrainAgrees(isn: int, segs: seq<Segment>, st: State, s: Segment)
    requires Cut(isn, segs + [s]) && Agrees(isn, segs, st) && s.start >= st.next
    ensures Agrees(isn, segs + [s], Add(st, s).0) && !Add(st, s).1.fin
  {
    hide Insert, Cut, Sorted, Kept, WellCut, Filled, Early, Join, RunLength;
    InsertReady(isn, segs, st, s);
    var q, more := Insert(st.queue, s), segs + [s];
    assert forall a | a in segs :: a in more;
    if q[0].start > st.next {
      Waits(isn, segs, more, q, st.next);
    } else {
      Advances(isn, segs, more, q, st.next);
      hide Agrees;
    }
  }

  lemma Waits(isn: int, segs: seq<Segment>, more: seq<Segment>, q: seq<Segment>, next: int)
    requires isn <= next && q != [] && Sorted(q) && WellCut(q) && Kept(more, q, next) && q[0].start > next
    requires Filled(segs, isn, next) && (forall a | a in segs :: a in more) && (forall a | a in q :: a in more)
    ensures Agrees(isn, more, State(q, next))
  {
    forall a | a in q ensures a.start > next { StartsFirst(q, a); }
    hide Covered, Sorted, Kept, WellCut;
    assert Filled([], next, next);
    FilledMore(segs, [], more, isn, next, next);
  }

  lemma Advances(isn: int, segs: seq<Segment>, more: seq<Segment>, q: seq<Segment>, next: int)
    requires isn <= next && q != [] && Sorted(q) && WellCut(q) && Kept(more, q, next) && q[0].start == next
    requires Filled(segs, isn, next) && (forall a | a in segs :: a in more) && (forall a | a in q :: a in more)
    ensures var k := RunLength(q);
      Agrees(isn, more, State(q[k..], q[k - 1].end)) && !Join(q[..k]).fin
  {
    hide Covered, Sorted, Kept, WellCut, Filled, RunLength, Join;
    var k := RunLength(q);
    TakeOff(more, q, next);
    RunHasNoHole(q);
    PrefixNoFins(q, k);
    FilledMore(segs, q, more, isn, next, q[k - 1].end);
  }

  lemma QueueFits(isn: int, segs: seq<Segment>, st: State, s: Segment)
    requires Cut(isn, segs + [s]) && Agrees(isn, segs, st)
    ensures WellCut(st.queue) && Fits(st.queue, s)
  {
    assert s in segs + [s];
    forall a | a in st.queue
      ensures a.start < a.end && !a.flags.fin && (SameRange(a, s) || Apart(a, s))
    {
      assert a in segs + [s];
    }
  }

  lemma InsertKeeps(isn: int, segs: seq<Segment>, st: State, s: Segment)
    requires Cut(isn, segs + [s]) && Agrees(isn, segs, st) && WellCut(st.queue) && s.start >= st.next
    ensures var q, more := Insert(st.queue, s), segs + [s];
      WellCut(q) && Kept(more, q, st.next) && (forall a | a in q :: a in more) && q[0].start >= st.next
  {
    hide Place, Sorted;
    var q, more := Insert(st.queue, s), segs + [s];
    assert s in more && SameRange(s, s) && q[0] in q;
    InsertHas(st.queue, s);
    hide Insert;
  }

  /** In a sorted queue nothing starts before the head. */
  lemma StartsFirst(q: seq<Segment>, s: Segment)
    requires Sorted(q) && WellCut(q) && s in q
    ensures q[0].start <= s.start
  {
    var i :| 0 <= i < |q| && q[i] == s;
    assert q[0] in q;
  }

  lemma PrefixNoFins(q: seq<Segment>, k: nat)
    requires WellCut(q) && k <= |q|
    ensures !Join(q[..k]).fin
  {
    NoFins(q[..k]);
  }

  lemma {:induction false} NoFins(q: seq<Segment>)
    requires forall a | a in q :: !a.flags.fin
    ensures !Join(q).fin
  {
    if q != [] { NoFins(q[..|q| - 1]); }
  }

  lemma OldAgrees(isn: int, segs: seq<Segment>, st: State, s: Segment)
    requires Agrees(isn, segs, st) && s.end <= st.next
    ensures Agrees(isn, segs + [s], st)
  {
    hide Covered, Sorted;
    FilledMore(segs, [], segs + [s], isn, st.next, st.next);
  }

  lemma InOrderAgrees(isn: int, segs: seq<Segment>, s: Segment)
    requires Agrees(isn, segs, State([], s.start)) && s.start < s.end
    ensures Agrees(isn, segs + [s], State([], s.end))
  {
    assert Filled([s], s.start, s.end) by {
      forall x | s.start <= x < s.end ensures Covered([s], x) { assert s in [s]; }
    }
    FilledMore(segs, [s], segs + [s], isn, s.start, s.end);
  }

  /** What `Receive` does with segments that were cut well. */
  lemma ReceiveCases(st: State, s: Segment)
    requires s.start < s.end && !s.flags.fin && s.start >= st.next && !Add(st, s).1.fin
    ensures Receive(st, s).0 == if s.start == st.next && st.queue == [] then State([], s.end) else Add(st, s).0
  {
    hide Add;
  }

  lemma ReceiveAgrees(isn: int, segs: seq<Segment>, st: State, s: Segment)
    requires Cut(isn, segs + [s]) && Agrees(isn, segs, st)
    ensures Agrees(isn, segs + [s], Receive(st, s).0)
  {
    hide Receive, Agrees, Add;
    assert s in segs + [s];
    if s.start < st.next {
      OldIsWholly(isn, segs, st, s);
      OldAgrees(isn, segs, st, s);
    } else {
      DrainAgrees(isn, segs, st, s);
      ReceiveCases(st, s);
      if s.start == st.next && st.queue == [] {
        assert st == State([], s.start);
        InOrderAgrees(isn, segs, s);
      }
    }
  }

  lemma EmptyAgrees(isn: int)
    ensures Agrees(isn, [], State([], isn))
  {
  }

  lemma {:induction false} RunAgrees(isn: int, segs: seq<Segment>)
    requires Cut(isn, segs)
    ensures Agrees(isn, segs, Run(isn, segs))
  {
    hide Receive, Agrees;
    if segs == [] {
      EmptyAgrees(isn);
    } else {
      var n := |segs| - 1;
      assert segs == segs[..n] + [segs[n]];
      RunAgrees(isn, segs[..n]);
      ReceiveAgrees(isn, segs[..n], Run(isn, segs[..n]), segs[n]);
    }
  }

  /** After segments of one segmentation in any order, with duplicates, `next` is the first byte missing; the queue
      holds segments that were received, in order, all beyond that byte; and no byte received is lost: it is below
      `next` or in the queue. */
  lemma NextIsFirstMissing(isn: int, segs: seq<Segment>)
    requires Cut(isn, segs)
    ensures var st := Run(isn, segs);
      && isn <= st.next && !Covered(segs, st.next) && (forall x | isn <= x < st.next :: Covered(segs, x))
      && Sorted(st.queue) && (forall a | a in st.queue :: a in segs && a.start > st.next)
      && (forall x | Covered(segs, x) && x >= st.next :: Covered(st.queue, x))
  {
    RunAgrees(isn, segs);
    var st := Run(isn, segs);
    hide Run, Cut;
    forall x | Covered(segs, x) && x >= st.next ensures Covered(st.queue, x) && x != st.next {
      var a :| a in segs && a.start <= x < a.end;
      KeptEarly(segs, st.queue, st.next, a);
    }
  }

  /** So neither the order nor the number of copies matters: the bytes received decide what is acknowledged. */
  lemma SameBytesSameNext(isn: int, a: seq<Segment>, b: seq<Segment>)
    requires Cut(isn, a) && Cut(isn, b) && forall x :: Covered(a, x) <==> Covered(b, x)
    ensures Run(isn, a).next == Run(isn, b).next
  {
    NextIsFirstMissing(isn, a);
    NextIsFirstMissing(isn, b);
  }

  /** Once the segments leave no hole, everything has been delivered and nothing is queued. */
  lemma AllDelivered(isn: int, segs: seq<Segment>, end: int)
    requires Cut(isn, segs) && isn <= end && forall x | isn <= x :: Covered(segs, x) <==> x < end
    ensures Run(isn, segs) == State([], end)
  {
    NextIsFirstMissing(isn, segs);
    var st := Run(isn, segs);
    hide Run;
    assert !Covered(segs, st.next) && !Covered(segs, end);
    if st.queue != [] {
      HeadCovered(isn, segs, st.queue);
      assert false;
    }
  }

  lemma HeadCovered(isn: int, segs: seq<Segment>, q: seq<Segment>)
    requires q != [] && Cut(isn, segs) && forall a | a in q :: a in segs
    ensures Covered(segs, q[0].start)
  {
    assert q[0] in q;
  }

  // ---------- segments that do not fit the segmentation ----------

  /** `next` is the first byte, from `isn` on, that no segment covers. */
  ghost predicate FirstMissing(isn: int, segs: seq<Segment>, next: int) {
    isn <= next && Filled(segs, isn, next) && !Covered(segs, next)
  }

  lemma AgreesFirstMissing(isn: int, segs: seq<Segment>, st: State)
    requires Agrees(isn, segs, st)
    ensures FirstMissing(isn, segs, st.next)
  {
    hide Kept, Early, Filled, Sorted;
    if Covered(segs, st.next) {
      var a :| a in segs && a.start <= st.next < a.end;
      KeptEarly(segs, st.queue, st.next, a);
    }
  }

  /** A data segment that does no harm: it is old, or early, or meets an empty queue, or starts where data is awaited and
      ends before the queue begins. */
  predicate Harmless(st: State, s: Segment) {
    s.end <= st.next || s.start > st.next || st.queue == [] || (s.start == st.next && s.end <= st.queue[0].start)
  }

  /** From a state that agrees with the segments received, whatever data segment arrives next: `next` is the first
      missing byte afterwards exactly if the segment is harmless. */
  lemma StaysFirstMissing(isn: int, segs: seq<Segment>, st: State, s: Segment)
    requires Cut(isn, segs) && Agrees(isn, segs, st) && s.start < s.end && !s.flags.fin
    ensures FirstMissing(isn, segs + [s], Receive(st, s).0.next) <==> Harmless(st, s)
  {
    hide Receive, Agrees, Filled, FirstMissing, Cut;
    if s.end <= st.next {
      OldDropped(st, s);
      OldAgrees(isn, segs, st, s);
      AgreesFirstMissing(isn, segs + [s], st);
    } else if s.start > st.next {
      EarlyWaits(isn, segs, st, s);
    } else if st.queue == [] {
      EmptyAdvances(isn, segs, st, s);
    } else if s.start == st.next && s.end <= st.queue[0].start {
      HeadAdvances(isn, segs, st, s);
    } else {
      Harms(isn, segs, st, s);
    }
  }

  lemma OldDropped(st: State, s: Segment)
    requires s.start < s.end <= st.next && !s.flags.fin
    ensures Receive(st, s).0 == st
  {
  }

  lemma QueueWellCut(isn: int, segs: seq<Segment>, st: State)
    requires Cut(isn, segs) && Agrees(isn, segs, st)
    ensures WellCut(st.queue) && forall i | 0 <= i < |st.queue| :: st.queue[i].start > st.next
  {
    assert forall i | 0 <= i < |st.queue| :: st.queue[i] in st.queue;
  }

  lemma AddNoFin(st: State, s: Segment)
    requires WellCut(st.queue) && s.start < s.end && !s.flags.fin
    ensures !Add(st, s).1.fin
  {
    InsertHas(st.queue, s);
    var q := Insert(st.queue, s);
    assert WellCut(q);
    hide Insert, Join, RunLength;
    if q[0].start <= st.next { PrefixNoFins(q, RunLength(q)); }
  }

  lemma EarlyWaits(isn: int, segs: seq<Segment>, st: State, s: Segment)
    requires Cut(isn, segs) && Agrees(isn, segs, st) && s.start < s.end && !s.flags.fin && s.start > st.next
    ensures FirstMissing(isn, segs + [s], Receive(st, s).0.next)
  {
    QueueWellCut(isn, segs, st);
    AddNoFin(st, s);
    ReceiveCases(st, s);
    HeadAfter(st.queue, s);
    AgreesFirstMissing(isn, segs, st);
    FilledMore(segs, [], segs + [s], isn, st.next, st.next);
    StaysMissing(segs, s, st.next);
  }

  lemma StaysMissing(segs: seq<Segment>, s: Segment, x: int)
    requires !Covered(segs, x) && !(s.start <= x < s.end)
    ensures !Covered(segs + [s], x)
  {
    forall a | a in segs + [s] ensures !(a.start <= x < a.end) {
      if a != s { assert a in segs; }
    }
  }

  lemma HeadAfter(q: seq<Segment>, s: Segment)
    ensures Insert(q, s)[0] == s || (q != [] && Insert(q, s)[0] == q[0])
  {
  }

  lemma EmptyAdvances(isn: int, segs: seq<Segment>, st: State, s: Segment)
    requires Agrees(isn, segs, st) && st.queue == [] && s.start <= st.next < s.end && !s.flags.fin
    ensures FirstMissing(isn, segs + [s], Receive(st, s).0.next)
  {
    var t := Segment(st.next, s.end, s.flags);
    assert Receive(st, s).0 == State([], s.end);
    InOrderAgrees(isn, segs, t);
    AgreesFirstMissing(isn, segs + [t], State([], s.end));
    Longer(isn, segs, t, s);
  }

  /** A segment that starts before what was missing covers as much of it as its later part does. */
  lemma Longer(isn: int, segs: seq<Segment>, t: Segment, s: Segment)
    requires FirstMissing(isn, segs + [t], t.end) && s.start <= t.start < t.end == s.end
    ensures FirstMissing(isn, segs + [s], t.end)
  {
    forall x | isn <= x < t.end ensures Covered(segs + [s], x) {
      assert Covered(segs + [t], x);
      var a :| a in segs + [t] && a.start <= x < a.end;
      var b := if a == t then s else a;
      assert b in segs + [s] && b.start <= x < b.end;
    }
    forall a | a in segs ensures !(a.start <= t.end < a.end) { assert a in segs + [t]; }
    StaysMissing(segs, s, t.end);
  }

  lemma HeadAdvances(isn: int, segs: seq<Segment>, st: State, s: Segment)
    requires Cut(isn, segs) && Agrees(isn, segs, st) && s.start < s.end && !s.flags.fin && st.queue != []
    requires s.start == st.next && s.end <= st.queue[0].start
    ensures FirstMissing(isn, segs + [s], Receive(st, s).0.next)
  {
    QueueWellCut(isn, segs, st);
    AddNoFin(st, s);
    ReceiveCases(st, s);
    BeforeHead(segs, st, s);
    var q, more := Insert(st.queue, s), segs + [s];
    assert forall a | a in q :: a in more;
    hide Insert, Sorted, WellCut, Kept, Filled, Join, RunLength;
    Advances(isn, segs, more, q, st.next);
    AgreesFirstMissing(isn, more, State(q[RunLength(q)..], q[RunLength(q) - 1].end));
  }

  lemma BeforeHead(segs: seq<Segment>, st: State, s: Segment)
    requires Sorted(st.queue) && WellCut(st.queue) && Kept(segs, st.queue, st.next) && st.queue != []
    requires s.start < s.end <= st.queue[0].start && !s.flags.fin
    ensures var q := Insert(st.queue, s);
      q == [s] + st.queue && Sorted(q) && WellCut(q) && Kept(segs + [s], q, st.next)
  {
    var q := st.queue;
    assert q[0] in q && q[|q| - 1] in q;
    StartsFirst(q, q[|q| - 1]);
    assert Place(q, s) == 0;
    assert Splits(q, s, 0) by {
      forall k | 0 <= k < |q| ensures s.end <= q[k].start { assert q[k] in q; StartsFirst(q, q[k]); }
    }
    SplitSorted(q, s, 0);
    assert q[..0] + [s] + q[0..] == [s] + q;
    InsertHas(q, s);
    assert SameRange(s, s);
  }

  /** Otherwise the segment waits behind the queue although it was awaited, or is taken to reach further than it does. */
  lemma Harms(isn: int, segs: seq<Segment>, st: State, s: Segment)
    requires Cut(isn, segs) && Agrees(isn, segs, st) && s.start <= st.next < s.end && !s.flags.fin && st.queue != []
    requires s.start < st.next || s.end > st.queue[0].start
    ensures !FirstMissing(isn, segs + [s], Receive(st, s).0.next)
  {
    QueueWellCut(isn, segs, st);
    var t := AsQueued(st.next, s);
    assert t == Segment(st.next, st.next + (s.end - s.start), s.flags) && t.end >= s.end;
    AddNoFin(st, t);
    assert Receive(st, s).0 == Add(st, t).0 by { hide Add; }
    hide Receive, Cut, Agrees, AsQueued;
    if t.end > st.queue[0].start {
      Stuck(st, t);
      assert s in segs + [s] && s.start <= st.next < s.end;
    } else {
      Overrun(isn, segs, st, s, t);
    }
  }

  lemma Stuck(st: State, t: Segment)
    requires st.queue != [] && Sorted(st.queue) && WellCut(st.queue) && st.queue[0].start > st.next == t.start
    requires t.end > st.queue[0].start
    ensures Add(st, t).0.next == st.next
  {
    var q := st.queue;
    assert q[|q| - 1] in q;
    StartsFirst(q, q[|q| - 1]);
    assert Place(q, t) > 0;
  }

  lemma Overrun(isn: int, segs: seq<Segment>, st: State, s: Segment, t: Segment)
    requires Agrees(isn, segs, st) && WellCut(st.queue) && st.queue != [] && s.start < st.next < s.end < t.end && !t.flags.fin
    requires t.start == st.next && t.end <= st.queue[0].start
    ensures !FirstMissing(isn, segs + [s], Add(st, t).0.next)
  {
    BeforeHead(segs, st, t);
    var q := Insert(st.queue, t);
    RunEnds(q);
    HoleStays(isn, segs, st, s);
    hide Place, Covered, Agrees, WellCut, Sorted, Kept;
    assert Add(st, t).0.next >= t.end;
    assert isn <= s.end by { FromIsn(isn, segs, st); }
  }

  lemma FromIsn(isn: int, segs: seq<Segment>, st: State)
    requires Agrees(isn, segs, st)
    ensures isn <= st.next
  {
  }

  /** The byte behind the segment is not covered: the queue begins later. */
  lemma HoleStays(isn: int, segs: seq<Segment>, st: State, s: Segment)
    requires Agrees(isn, segs, st) && WellCut(st.queue) && st.queue != [] && st.next < s.end < st.queue[0].start
    ensures !Covered(segs + [s], s.end)
  {
    hide Filled;
    forall a | a in segs ensures !(a.start <= s.end < a.end) {
      KeptEarly(segs, st.queue, st.next, a);
      forall b | b in st.queue ensures b.start > s.end { StartsFirst(st.queue, b); }
    }
    StaysMissing(segs, s, s.end);
  }

  /** A packet that reaches back before `next` counts as longer than it is when others wait: bytes 10 to 14 are
      acknowledged and never came. */
  lemma PartialTrimOverruns()
    ensures
      var segs := [Segment(0, 5, NO_FLAGS), Segment(20, 30, NO_FLAGS)];
      var s := Segment(0, 10, NO_FLAGS);
      && Run(0, segs) == State([segs[1]], 5)
      && Run(0, segs + [s]).next == 15 && !Covered(segs + [s], 10) && !Harmless(Run(0, segs), s)
  {
    hide Receive;
    var a, b, s := Segment(0, 5, NO_FLAGS), Segment(20, 30, NO_FLAGS), Segment(0, 10, NO_FLAGS);
    var segs := [a, b];
    OneDelivered(a, b);
    OneOverrun(b, s);
    assert (segs + [s])[..2] == segs;
    assert Run(0, segs + [s]) == Receive(Run(0, segs), s).0;
  }

  lemma OneDelivered(a: Segment, b: Segment)
    requires a == Segment(0, 5, NO_FLAGS) && b == Segment(20, 30, NO_FLAGS)
    ensures Run(0, [a, b]) == State([b], 5)
  {
    assert [a, b][..1] == [a] && [a][..0] == [];
    assert Run(0, [a]) == State([], 5);
    assert Insert([], b) == [b];
  }

  lemma OneOverrun(b: Segment, s: Segment)
    requires b == Segment(20, 30, NO_FLAGS) && s == Segment(0, 10, NO_FLAGS)
    ensures Receive(State([b], 5), s).0 == State([b], 15)
  {
    var t := Segment(5, 15, NO_FLAGS);
    AddNoFin(State([b], 5), t);
    QueuedLonger(b, t);
    assert AsQueued(5, s) == t;
    hide Add;
  }

  lemma QueuedLonger(b: Segment, t: Segment)
    requires b == Segment(20, 30, NO_FLAGS) && t == Segment(5, 15, NO_FLAGS)
    ensures Add(State([b], 5), t).0 == State([b], 15)
  {
    hide Join;
    assert Place([b], t) == 0;
    assert Insert([b], t) == [t, b];
    assert RunLength([t, b]) == 1 && [t, b][1..] == [b];
  }

  /** An early segment that overlaps the queue does harm later: bytes up to 30 have arrived, but `next` ends at 20. */
  lemma OverlapMovesBack()
    ensures
      var segs := [Segment(10, 30, NO_FLAGS), Segment(15, 20, NO_FLAGS), Segment(0, 10, NO_FLAGS)];
      Run(0, segs) == State([], 20) && Covered(segs, 20)
  {
    var a, b, c := Segment(10, 30, NO_FLAGS), Segment(15, 20, NO_FLAGS), Segment(0, 10, NO_FLAGS);
    var segs := [a, b, c];
    assert segs[..2] == [a, b] && [a, b][..1] == [a] && [a][..0] == [];
    TwoWait(a, b);
    ThirdJoins(a, b, c);
    assert Run(0, segs) == Receive(Run(0, [a, b]), c).0;
    assert a in segs;
  }

  lemma TwoWait(a: Segment, b: Segment)
    requires a == Segment(10, 30, NO_FLAGS) && b == Segment(15, 20, NO_FLAGS)
    ensures Run(0, [a, b]) == State([a, b], 0)
  {
    assert [a, b][..1] == [a] && [a][..0] == [];
    assert Insert([], a) == [a];
    assert Run(0, [a]) == State([a], 0);
    assert Place([a], b) == 1 by { assert [a][1..] == []; }
    assert Insert([a], b) == [a, b];
  }

  lemma ThirdJoins(a: Segment, b: Segment, c: Segment)
    requires a == Segment(10, 30, NO_FLAGS) && b == Segment(15, 20, NO_FLAGS) && c == Segment(0, 10, NO_FLAGS)
    ensures Receive(State([a, b], 0), c).0 == State([], 20)
  {
    var q := [c, a, b];
    assert Place([a, b], c) == 0;
    assert Insert([a, b], c) == q;
    assert q[1..] == [a, b] && [a, b][1..] == [b];
    assert RunLength([a, b]) == 2 && RunLength(q) == 3;
    assert q[..3] == q;
  }

  // ---------- the end of the data ----------

  /** A FIN that ends what is in order and meets an empty queue takes up one sequence number behind its data, whether the
      sender repeats old bytes before it or not. */
  lemma FinInOrder(st: State, s: Segment)
    requires s.flags.fin && st.queue == [] && s.start <= st.next <= s.end
    ensures Receive(st, s) == (State([], s.end + 1), Flags(true, false))
  {
  }

  /** A FIN that comes early waits, and nothing moves. */
  lemma FinEarly(st: State, s: Segment)
    requires s.flags.fin && s.start <= s.end && s.start > st.next && forall a | a in st.queue :: a.start > st.next
    ensures Receive(st, s) == (State(Insert(st.queue, s), st.next), NO_FLAGS)
  {
    var q := Insert(st.queue, s);
    assert q[0] == if Place(st.queue, s) == 0 then s else st.queue[0];
    assert AsQueued(st.next, s) == s;
  }

  /** Once the hole before it is filled, the FIN closes the connection and empties the queue, but it takes up no number:
      `next` ends one lower than if the same two segments had come in order. */
  lemma FinFromQueue(next: int, data: Segment, fin: Segment)
    requires data.start == next && data.start < data.end == fin.start <= fin.end && fin.flags.fin && !data.flags.fin
    ensures
      var early := Receive(Receive(State([], next), fin).0, data);
      var ordered := Receive(Receive(State([], next), data).0, fin);
      && early.0 == State([], fin.end) && early.1.fin
      && ordered.0 == State([], fin.end + 1) && ordered.1.fin
  {
    FinEarly(State([], next), fin);
    assert Insert([], fin) == [fin];
    assert Receive(State([], next), data).0 == State([], data.end);
    FinInOrder(State([], data.end), fin);
    FilledBefore(next, data, fin);
  }

  lemma FilledBefore(next: int, data: Segment, fin: Segment)
    requires data.start == next && data.start < data.end == fin.start <= fin.end && fin.flags.fin && !data.flags.fin
    ensures Receive(State([fin], next), data).0 == State([], fin.end) && Receive(State([fin], next), data).1.fin
  {
    var q := [data, fin];
    assert Place([fin], data) == 0;
    assert Insert([fin], data) == q;
    assert q[1..] == [fin] && RunLength(q) == 2 && q[..2] == q;
    assert [data, fin][..1] == [data] && [data][..0] == [];
    assert Join([data]) == Flags(false, data.flags.push);
  }
}
