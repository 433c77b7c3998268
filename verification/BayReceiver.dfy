/** The reassembly queue as the linked list it is, and the receiving agent that owns it. */
module BayReceiver {
  import opened BayReassembly

  class SegInfo {
    var next: SegInfo?
    var prev: SegInfo?
    const startseq: int
    const endseq: int
    const flags: Flags

    constructor (start: int, end: int, flags: Flags)
      ensures startseq == start && endseq == end && this.flags == flags
    {
      startseq, endseq, this.flags := start, end, flags;
    }

    function Value(): Segment {
      Segment(startseq, endseq, flags)
    }
  }

  /** `rcvNxt` is the agent's: the queue holds a reference to it. */
  class ReassemblyQueue {
    var head: SegInfo?
    var tail: SegInfo?
    var rcvNxt: int
    ghost var nodes: seq<SegInfo>
    ghost var footprint: set<SegInfo>

    /** The list is doubly linked from head to tail through `nodes`. */
    ghost predicate Valid()
      reads `head, `tail, `nodes, `footprint, footprint
    {
      && (forall i | 0 <= i < |nodes| :: nodes[i] in footprint)
      && (forall i, j | 0 <= i < j < |nodes| :: nodes[i] != nodes[j])
      && head == At(nodes, 0) && tail == At(nodes, |nodes| - 1)
      && forall i | 0 <= i < |nodes| :: LinkOk(nodes, i)
    }

    ghost function Segments(): (q: seq<Segment>)
      reads `nodes
    {
      Values(nodes)
    }

    ghost function Abstract(): State
      reads `nodes, `rcvNxt
    {
      State(Segments(), rcvNxt)
    }

    constructor (nxt: int)
      ensures Valid() && Abstract() == State([], nxt) && fresh(footprint)
    {
      head, tail, rcvNxt, nodes, footprint := null, null, nxt, [], {};
    }

    function Empty(): bool
      reads `head, `tail, `nodes, `footprint, footprint
      requires Valid()
      ensures Empty() <==> Segments() == []
    {
      head == null
    }

    method Clear()
      requires Valid()
      modifies this
      ensures Valid() && Abstract() == State([], old(rcvNxt)) && footprint == old(footprint)
    {
      head, tail := null, null;
      nodes := [];
    }

    /** Links a segment in behind those that start before its end. */
    method Insert(start: int, end: int, flags: Flags)
      requires Valid()
      modifies this, footprint
      ensures Valid() && rcvNxt == old(rcvNxt)
      ensures fresh(footprint - old(footprint))
      ensures Segments() == BayReassembly.Insert(old(Segments()), Segment(start, end, flags))
    {
      hide Valid, Place, LinkOk, Values;
      var n := new SegInfo(start, end, flags);
      ghost var was := nodes;
      if head == null {
        LinkOnly(n);
        ValuesSplit(was, n, 0);
      } else {
        var p, i := FindPlace(start, end, flags);
        Link(n, p, i);
        ValuesSplit(was, n, i);
      }
    }

    /** The segment to link a new one in behind, if any. */
    method FindPlace(start: int, end: int, flags: Flags) returns (p: SegInfo?, ghost i: nat)
      requires Valid() && head != null
      ensures i == Place(Segments(), Segment(start, end, flags)) && p == At(nodes, i - 1)
    {
      if tail.endseq <= start {
        p, i := tail, |nodes|;
      } else {
        var q;
        q, i := Find(end);
        assert q != null ==> LinkOk(nodes, i);
        p := if q == null then tail else q.prev;
      }
    }

    method LinkOnly(n: SegInfo)
      requires Valid() && head == null
      modifies this, n
      ensures Valid() && rcvNxt == old(rcvNxt) && old(nodes) == [] && nodes == [n] && footprint == old(footprint) + {n}
    {
      tail, head := n, n;
      n.prev, n.next := null, null;
      nodes, footprint := [n], footprint + {n};
    }

    /** Looks for the segment after the one that ends at `end`. */
    method Find(end: int) returns (q: SegInfo?, ghost i: nat)
      requires Valid()
      ensures i == Follower(Segments(), end) && q == At(nodes, i)
    {
      q, i := head, 0;
      while q != null && end > q.startseq
        invariant i <= |nodes| && q == At(nodes, i)
        invariant forall k | 0 <= k < i :: nodes[k].startseq < end
        decreases |nodes| - i
      {
        assert LinkOk(nodes, i);
        q := q.next;
        i := i + 1;
      }
      FollowerIs(Segments(), end, i);
    }

    method LinkHead(n: SegInfo)
      requires Valid() && n !in nodes && head != null
      modifies this, footprint, n
      ensures Valid() && rcvNxt == old(rcvNxt) && nodes == [n] + old(nodes) && footprint == old(footprint) + {n}
    {
      ghost var was := nodes;
      n.next, n.prev := head, null;
      head.prev := n;
      head := n;
      nodes, footprint := [n] + nodes, footprint + {n};
      assert forall k | 1 <= k < |nodes| :: nodes[k] == was[k - 1];
      forall k | 0 <= k < |nodes| ensures LinkOk(nodes, k) {
        if k > 0 { assert old(LinkOk(was, k - 1)); }
      }
    }

    method LinkAfter(n: SegInfo, p: SegInfo, ghost i: nat)
      requires Valid() && n !in nodes && i < |nodes| && p == nodes[i]
      modifies this, footprint, n
      ensures Valid() && rcvNxt == old(rcvNxt) && footprint == old(footprint) + {n}
      ensures nodes == old(nodes)[..i + 1] + [n] + old(nodes)[i + 1..]
    {
      ghost var was := nodes;
      assert LinkOk(was, i);
      n.next := p.next;
      if p.next != null {
        p.next.prev := n;
      }
      p.next := n;
      n.prev := p;
      if p == tail {
        tail := n;
      }
      nodes, footprint := nodes[..i + 1] + [n] + nodes[i + 1..], footprint + {n};
      assert forall k | 0 <= k <= i :: nodes[k] == was[k];
      assert nodes[i + 1] == n && forall k | i + 1 < k < |nodes| :: nodes[k] == was[k - 1];
      forall k | 0 <= k < |nodes| ensures LinkOk(nodes, k) {
        if k <= i {
          assert old(LinkOk(was, k));
        } else if k > i + 1 {
          assert old(LinkOk(was, k - 1));
        }
      }
    }

    /** Links a new node in behind p, or at the head. */
    method Link(n: SegInfo, p: SegInfo?, ghost i: nat)
      requires Valid() && n !in nodes && head != null && i <= |nodes| && p == At(nodes, i - 1)
      modifies this, footprint, n
      ensures Valid() && rcvNxt == old(rcvNxt) && footprint == old(footprint) + {n}
      ensures nodes == old(nodes)[..i] + [n] + old(nodes)[i..]
    {
      if p == null {
        LinkHead(n);
      } else {
        LinkAfter(n, p, i - 1);
      }
    }

    /** Takes the head off the list. The head has no segment before it to link past. */
    method Unlink()
      requires Valid() && head != null
      modifies this, footprint
      ensures Valid() && rcvNxt == old(rcvNxt) && nodes == old(nodes)[1..] && footprint == old(footprint)
      ensures head == old(head.next)
    {
      ghost var was := nodes;
      assert LinkOk(was, 0);
      var q := head;
      head := q.next;
      if q.next != null {
        q.next.prev := q.prev;
      } else {
        tail := q.prev;
      }
      nodes := nodes[1..];
      assert forall k | 0 <= k < |nodes| :: nodes[k] == was[k + 1];
      forall k | 0 <= k < |nodes| ensures LinkOk(nodes, k) {
        assert old(LinkOk(was, k + 1));
      }
    }

    /** Delivers the run of contiguous segments at the head. */
    method Drain() returns (tiflags: Flags)
      requires Valid() && head != null
      modifies this, footprint
      ensures Valid() && footprint == old(footprint)
      ensures var s := old(Segments()); var k := RunLength(s);
        Abstract() == State(s[k..], s[k - 1].end) && tiflags == Join(s[..k])
    {
      hide Valid, LinkOk, Values, RunLength, Join, InRun, RunOver;
      HeadFirst();
      ghost var all, s, k := nodes, Segments(), 0;
      RunStarts(s);
      tiflags := NO_FLAGS;
      var p := head;
      while p != null
        invariant Valid() && footprint == old(footprint) && p == head && k <= |s| && nodes == all[k..]
        invariant k > 0 ==> rcvNxt == s[k - 1].end
        invariant if p == null then RunOver(s, k, tiflags) else InRun(s, k, tiflags)
        decreases |nodes|
      {
        HeadFirst();
        assert p == all[k];
        RunGoesOn(s, k, tiflags);
        rcvNxt := p.endseq;
        tiflags := Flags(tiflags.fin || p.flags.fin, tiflags.push || p.flags.push);
        var q := p;
        var after := q.next;
        Unlink();
        k := k + 1;
        HeadFirst();
        assert after == At(all, k);
        if after != null && q.endseq < after.startseq {
          break;
        }
        p := after;
      }
      assert RunOver(s, k, tiflags);
      RunEnded(s, k, tiflags);
      ValuesDrop(all, k);
    }

    /** Where the list starts. */
    lemma HeadFirst()
      requires Valid()
      ensures head == At(nodes, 0) && (nodes != [] ==> nodes[0].next == At(nodes, 1))
    {
      assert nodes != [] ==> LinkOk(nodes, 0);
    }

    /** Queues a packet of `size` data bytes and delivers what has become contiguous. */
    method Add(start: int, size: nat, flags: Flags) returns (tiflags: Flags)
      requires Valid()
      modifies this, footprint
      ensures Valid() && (Abstract(), tiflags) == BayReassembly.Add(old(Abstract()), Segment(start, start + size, flags))
      ensures fresh(footprint - old(footprint))
    {
      hide Valid, LinkOk, RunLength, Join, Place;
      var end := start + size;
      Insert(start, end, flags);
      HeadFirst();
      if head.startseq > rcvNxt {
        return NO_FLAGS;
      }
      tiflags := Drain();
    }
  }

  ghost predicate LinkOk(nodes: seq<SegInfo>, i: nat)
    requires i < |nodes|
    reads nodes[i]
  {
    nodes[i].next == At(nodes, i + 1) && nodes[i].prev == At(nodes, i - 1)
  }

  ghost function At(nodes: seq<SegInfo>, i: int): SegInfo? {
    if 0 <= i < |nodes| then nodes[i] else null
  }

  ghost function Values(nodes: seq<SegInfo>): (q: seq<Segment>)
    ensures |q| == |nodes| && forall i | 0 <= i < |nodes| :: q[i] == nodes[i].Value()
  {
    seq(|nodes|, i requires 0 <= i < |nodes| => nodes[i].Value())
  }

  lemma ValuesSplit(nodes: seq<SegInfo>, n: SegInfo, i: nat)
    requires i <= |nodes|
    ensures Values(nodes[..i] + [n] + nodes[i..]) == Values(nodes)[..i] + [n.Value()] + Values(nodes)[i..]
  {
  }

  lemma ValuesDrop(nodes: seq<SegInfo>, k: nat)
    requires k <= |nodes|
    ensures Values(nodes[k..]) == Values(nodes)[k..]
  {
  }

  lemma FollowerIs(q: seq<Segment>, end: int, i: nat)
    requires i <= |q| && (forall k | 0 <= k < i :: q[k].start < end) && (i < |q| ==> q[i].start >= end)
    ensures Follower(q, end) == i
  {
  }

  /** The first k segments belong to the run at the head, which goes on. */
  ghost predicate InRun(s: seq<Segment>, k: nat, flags: Flags) {
    k < |s| && flags == Join(s[..k]) && RunLength(s) == k + RunLength(s[k..])
  }

  ghost predicate RunOver(s: seq<Segment>, k: nat, flags: Flags) {
    k <= |s| && s != [] && flags == Join(s[..k]) && RunLength(s) == k
  }

  lemma RunEnded(s: seq<Segment>, k: nat, flags: Flags)
    requires RunOver(s, k, flags)
    ensures 0 < k <= |s| && flags == Join(s[..k]) && RunLength(s) == k
  {
  }

  lemma RunStarts(s: seq<Segment>)
    requires s != []
    ensures InRun(s, 0, NO_FLAGS)
  {
    assert s[0..] == s;
  }

  lemma RunGoesOn(s: seq<Segment>, k: nat, flags: Flags)
    requires InRun(s, k, flags)
    ensures
      var more := Flags(flags.fin || s[k].flags.fin, flags.push || s[k].flags.push);
      if k + 1 == |s| || s[k].end < s[k + 1].start then RunOver(s, k + 1, more) else InRun(s, k + 1, more)
  {
    assert s[k..][1..] == s[k + 1..];
    assert s[..k + 1][..k] == s[..k];
  }

  /** The receiving side of an agent whose connection carries data. */
  class Agent {
    const rq: ReassemblyQueue
    var ackNow: bool
    var delAck: bool
    var dupseg: bool
    var closing: bool

    ghost predicate Valid()
      reads rq, rq.footprint
    {
      rq.Valid()
    }

    constructor (isn: int)
      ensures Valid() && fresh(rq) && fresh(rq.footprint) && rq.Abstract() == State([], isn)
      ensures !ackNow && !delAck && !dupseg && !closing
    {
      rq := new ReassemblyQueue(isn);
      ackNow, delAck, dupseg, closing := false, false, false, false;
    }

    /** An arriving segment without SYN or RST, `datalen` bytes from `seqno` on. */
    method Recv(seqno: int, datalen: nat, flags: Flags)
      requires Valid()
      modifies this, rq, rq.footprint
      ensures Valid()
      ensures fresh(rq.footprint - old(rq.footprint))
      ensures var (st, left) := Receive(old(rq.Abstract()), Segment(seqno, seqno + datalen, flags));
        rq.Abstract() == st && closing == (old(closing) || left.fin)
      ensures dupseg <==>
        && seqno < old(rq.rcvNxt) && seqno + datalen <= old(rq.rcvNxt)
        && !(flags.fin && seqno + datalen == old(rq.rcvNxt))
      ensures var st, s := old(rq.Abstract()), Segment(seqno, seqno + datalen, flags);
        && delAck == (old(delAck) || InOrder(st, s))
        && (ackNow <==> old(ackNow) || dupseg || (IsNew(st, s) && !InOrder(st, s) && !Receive(st, s).1.push)
                        || Receive(st, s).1.fin)
    {
      hide RunLength, Join, Place, Add, ReassemblyQueue.Valid, Values;
      ghost var st := rq.Abstract();
      var seq0, len, tiflags := seqno, datalen, flags;
      dupseg := false;
      var todrop := rq.rcvNxt - seq0;
      if todrop > 0 {
        if todrop > len || (todrop == len && !tiflags.fin) {
          tiflags := tiflags.(fin := false);
          ackNow := true;
          todrop := len;
          dupseg := true;
        }
        seq0 := seq0 + todrop;
        len := len - todrop;
      }
      assert Trim(st.next, Segment(seqno, seqno + datalen, flags)) == Segment(seq0, seq0 + len, tiflags);
      if len > 0 || tiflags.fin {
        if seq0 == rq.rcvNxt && rq.Empty() {
          tiflags := Flags(tiflags.fin, false);
          if tiflags.fin {
            rq.rcvNxt := rq.rcvNxt + 1;
          }
          delAck := true;
          rq.rcvNxt := rq.rcvNxt + len;
        } else {
          tiflags := rq.Add(seq0, datalen, tiflags);
          if !tiflags.push {
            ackNow := true;
          }
        }
      }
      if tiflags.fin {
        ackNow := true;
        rq.Clear();
        closing := true;
      }
    }
  }
}
