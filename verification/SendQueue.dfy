/** The send buffer as the singly linked list it is. */
module SendQueue {
  import opened SendBuffer

  class Packet {
    const id: nat
    const dst: int
    var ts: real
    var next: Packet?

    constructor (id: nat, dst: int)
      ensures this.id == id && this.dst == dst
    {
      this.id, this.dst, ts, next := id, dst, 0.0, null;
    }
  }

  ghost function At(nodes: seq<Packet>, i: int): Packet? {
    if 0 <= i < |nodes| then nodes[i] else null
  }

  ghost predicate LinkOk(nodes: seq<Packet>, i: nat)
    requires i < |nodes|
    reads nodes[i]
  {
    nodes[i].next == At(nodes, i + 1)
  }

  function ValueOf(p: Packet): Item
    reads p
  {
    Item(p.id, p.dst, p.ts)
  }

  ghost function Values(nodes: seq<Packet>): (q: seq<Item>)
    reads nodes
    ensures |q| == |nodes| && forall i | 0 <= i < |nodes| :: q[i] == ValueOf(nodes[i])
  {
    if nodes == [] then [] else Values(nodes[..|nodes| - 1]) + [ValueOf(nodes[|nodes| - 1])]
  }

  lemma FirstIs(q: seq<Item>, dst: int, i: nat)
    requires i <= |q| && (forall k | 0 <= k < i :: q[k].dst != dst) && (i < |q| ==> q[i].dst == dst)
    ensures First(q, dst) == i
  {
  }

  /** Packet i is the first that has timed out, or all are live. */
  ghost predicate NextAged(q: seq<Item>, now: real, i: nat) {
    i <= |q| && (forall k | 0 <= k < i :: !Aged(q[k], now)) && (i < |q| ==> Aged(q[i], now))
  }

  lemma AgedOut(q: seq<Item>, now: real, i: nat)
    requires NextAged(q, now, i) && i < |q|
    ensures Live(Without(q, i), now) == Live(q, now)
  {
    LiveWithout(q, i, now);
  }

  lemma NoneAged(q: seq<Item>, now: real)
    requires NextAged(q, now, |q|)
    ensures Live(q, now) == q
  {
    AllLive(q, now);
  }

  /** `drops` is what the drop target has been told. */
  class RQueue {
    var head: Packet?
    var tail: Packet?
    var len: nat
    var drops: seq<Notice>
    ghost var nodes: seq<Packet>
    ghost var footprint: set<Packet>

    /** The list runs from head to tail through `nodes`, and `len` is its length. */
    ghost predicate Valid()
      reads `head, `tail, `len, `nodes, `footprint, footprint
    {
      && (forall i | 0 <= i < |nodes| :: nodes[i] in footprint)
      && (forall i, j | 0 <= i < j < |nodes| :: nodes[i] != nodes[j])
      && head == At(nodes, 0) && tail == At(nodes, |nodes| - 1) && len == |nodes|
      && forall i | 0 <= i < |nodes| :: LinkOk(nodes, i)
    }

    ghost function Queue(): (q: seq<Item>)
      reads `nodes, nodes
      ensures |q| == |nodes| && forall i | 0 <= i < |nodes| :: q[i] == ValueOf(nodes[i])
    {
      Values(nodes)
    }

    constructor ()
      ensures Valid() && Queue() == [] && footprint == {} && drops == []
    {
      head, tail, len, drops, nodes, footprint := null, null, 0, [], [], {};
    }

    lemma HeadFirst()
      requires Valid()
      ensures head == At(nodes, 0) && len == |nodes|
    {
    }

    /** Counts the packets; the source asserts both results. */
    method VerifyQueue() returns (cnt: nat, prev: Packet?)
      requires Valid()
      ensures cnt == len && prev == tail
    {
      cnt, prev := 0, null;
      var p := head;
      while p != null
        invariant cnt <= |nodes| && p == At(nodes, cnt) && prev == At(nodes, cnt - 1)
        decreases |nodes| - cnt
      {
        assert LinkOk(nodes, cnt);
        cnt := cnt + 1;
        prev := p;
        p := p.next;
      }
    }

    /** Takes the head off, if there is one. */
    method RemoveHead() returns (p: Packet?)
      requires Valid()
      modifies this
      ensures Valid() && drops == old(drops) && footprint == old(footprint)
      ensures p == old(head) && if p == null then nodes == old(nodes) == [] else old(nodes) != [] && nodes == old(nodes)[1..]
    {
      p := head;
      ghost var was := nodes;
      assert was != [] ==> LinkOk(was, 0);
      if head == tail {
        head, tail := null, null;
      } else {
        head := head.next;
      }
      if p != null {
        len := len - 1;
        nodes := nodes[1..];
        forall k | 0 <= k < |nodes| ensures LinkOk(nodes, k) {
          assert LinkOk(was, k + 1);
        }
      }
    }

    /** Unlinks packet p, which comes behind prev or is the head. */
    method Unlink(p: Packet, prev: Packet?, ghost i: nat)
      requires Valid() && i < |nodes| && p == nodes[i] && prev == At(nodes, i - 1)
      modifies this, footprint
      ensures Valid() && drops == old(drops) && footprint == old(footprint) && nodes == old(nodes)[..i] + old(nodes)[i + 1..]
      ensures Queue() == Without(old(Queue()), i) && p.ts == old(p.ts)
      ensures forall n | n in nodes :: n in old(nodes)
    {
      hide Valid, Values, LinkOk;
      NodesIn();
      HeadFirst();
      if p == head {
        Same(i, 0);
        var _ := RemoveHead();
      } else {
        UnlinkAfter(p, prev, i);
      }
    }

    /** Each packet has one place. */
    lemma Same(i: nat, j: nat)
      requires Valid() && i < |nodes| && j < |nodes| && nodes[i] == nodes[j]
      ensures i == j
    {
    }

    method UnlinkAfter(p: Packet, prev: Packet?, ghost i: nat)
      requires Valid() && 0 < i < |nodes| && p == nodes[i] && prev == nodes[i - 1]
      modifies this, prev`next
      ensures Valid() && drops == old(drops) && footprint == old(footprint) && nodes == old(nodes)[..i] + old(nodes)[i + 1..]
    {
      ghost var was := nodes;
      assert LinkOk(was, i) && LinkOk(was, i - 1);
      if p == tail {
        Same(i, |was| - 1);
        prev.next := null;
        tail := prev;
      } else {
        prev.next := p.next;
      }
      len := len - 1;
      nodes := nodes[..i] + nodes[i + 1..];
      assert forall k | 0 <= k < |nodes| :: nodes[k] == if k < i then was[k] else was[k + 1];
      forall k | 0 <= k < |nodes| ensures LinkOk(nodes, k) {
        assert old(LinkOk(was, if k < i then k else k + 1));
      }
    }

    /** The first packet for `dst`, and the one before it. */
    method FindPacketWithDst(dst: int) returns (p: Packet?, prev: Packet?, ghost i: nat)
      requires Valid()
      ensures i == First(Queue(), dst) && p == At(nodes, i) && prev == At(nodes, i - 1)
      ensures p == At(nodes, First(Queue(), dst)) && prev == At(nodes, First(Queue(), dst) - 1)
    {
      prev, p, i := null, head, 0;
      while p != null
        invariant i <= |nodes| && p == At(nodes, i) && prev == At(nodes, i - 1)
        invariant forall k | 0 <= k < i :: nodes[k].dst != dst
        decreases |nodes| - i
      {
        if p.dst == dst {
          FirstIs(Queue(), dst, i);
          return;
        }
        assert LinkOk(nodes, i);
        prev := p;
        p := p.next;
        i := i + 1;
      }
      FirstIs(Queue(), dst, i);
    }

    /** The first packet that has timed out, and the one before it. */
    method FindAgedPacket(now: real) returns (found: bool, p: Packet?, prev: Packet?, ghost i: nat)
      requires Valid()
      ensures NextAged(Queue(), now, i) && found == (i < |nodes|) && p == At(nodes, i) && prev == At(nodes, i - 1)
    {
      found, prev, p, i := false, null, head, 0;
      while p != null
        invariant i <= |nodes| && p == At(nodes, i) && prev == At(nodes, i - 1) && !found
        invariant forall k | 0 <= k < i :: nodes[k].ts >= now
        decreases |nodes| - i
      {
        if p.ts < now {
          found := true;
          return;
        }
        assert LinkOk(nodes, i);
        prev := p;
        p := p.next;
        i := i + 1;
      }
    }

    /** Unlinks packets that have timed out, wherever they are, until there are none. */
    method Purge(now: real)
      requires Valid()
      modifies this, footprint
      ensures Valid() && drops == old(drops) && footprint == old(footprint) && Queue() == Live(old(Queue()), now)
      ensures forall n | n in nodes :: n in old(nodes)
    {
      hide Valid, Live, NextAged, Values, LinkOk, Without;
      var found, p, prev, i := FindAgedPacket(now);
      while found
        invariant Valid() && drops == old(drops) && footprint == old(footprint)
        invariant 0 <= i <= |nodes| && found == (i < |nodes|) && p == At(nodes, i) && prev == At(nodes, i - 1)
        invariant NextAged(Queue(), now, i)
        invariant Live(Queue(), now) == Live(old(Queue()), now)
        invariant forall n | n in nodes :: n in old(nodes)
        decreases |nodes|
      {
        AgedOut(Queue(), now, i);
        NodesIn();
        Unlink(p, prev, i);
        found, p, prev, i := FindAgedPacket(now);
      }
      NoneAged(Queue(), now);
    }

    lemma NodesIn()
      requires Valid()
      ensures forall i | 0 <= i < |nodes| :: nodes[i] in footprint
    {
    }

    /** Links a packet in at the end. */
    method Append(p: Packet)
      requires Valid() && p !in nodes && p.next == null
      modifies this, footprint
      ensures Valid() && drops == old(drops) && footprint == old(footprint) + {p} && nodes == old(nodes) + [p]
      ensures p.ts == old(p.ts) && Queue() == old(Queue()) + [ValueOf(p)] && forall q | q in old(footprint) :: q.ts == old(q.ts)
    {
      hide Values;
      ghost var was := nodes;
      if head == null {
        head, tail := p, p;
      } else {
        tail.next := p;
        tail := p;
      }
      len := len + 1;
      nodes, footprint := nodes + [p], footprint + {p};
      forall k | 0 <= k < |nodes| ensures LinkOk(nodes, k) {
        if k < |was| { assert old(LinkOk(was, k)); }
      }
    }

    /** Buffers a packet; the result is the one dropped to make room, if any, of which the drop target is told. */
    method Enque(p: Packet, now: real) returns (p0: Packet?)
      requires Valid() && p !in nodes
      modifies this, footprint, p
      ensures Valid() && footprint == old(footprint) + {p}
      ensures var (q, lost) := SendBuffer.Enque(old(Queue()), now, p.id, p.dst);
        Queue() == q && drops == old(drops) + Notices(lost, now) && if p0 == null then lost == None else lost == Some(ValueOf(p0))
    {
      hide Valid, Live, Aged, Values, LinkOk;
      Purge(now);
      HeadFirst();
      NodesIn();
      ghost var l, first := Queue(), nodes;
      label Purged:
      p.next := null;
      p.ts := now + TIMEOUT;
      Unmoved@Purged(p);
      p0 := MakeRoom(now);
      NodesIn();
      Append(p);
    }

    /** Drops the head of a full queue and tells the drop target why. */
    method MakeRoom(now: real) returns (p0: Packet?)
      requires Valid()
      modifies this
      ensures Valid() && footprint == old(footprint)
      ensures if old(len) == LIMIT
              then p0 != null && old(nodes) != [] && nodes == old(nodes)[1..] && Queue() == old(Queue())[1..]
                   && ValueOf(p0) == old(Queue())[0]
                   && drops == old(drops) + [Notice(ValueOf(p0), ReasonFor(ValueOf(p0), now))]
              else p0 == null && nodes == old(nodes) && Queue() == old(Queue()) && drops == old(drops)
    {
      hide Valid;
      HeadFirst();
      p0 := null;
      if len == LIMIT {
        p0 := RemoveHead();
        if p0.ts > now {
          drops := drops + [Notice(ValueOf(p0), QFull)];
        } else {
          drops := drops + [Notice(ValueOf(p0), QTimeout)];
        }
      }
    }

    /** The oldest packet that has not timed out. */
    method Deque(now: real) returns (p: Packet?)
      requires Valid()
      modifies this, footprint
      ensures Valid() && drops == old(drops) && footprint == old(footprint)
      ensures var (q, x) := SendBuffer.Deque(old(Queue()), now);
        Queue() == q && if p == null then x == None else x == Some(ValueOf(p))
    {
      hide Valid, Live, Aged;
      Purge(now);
      HeadFirst();
      p := RemoveHead();
    }

    /** The oldest packet for `dst` that has not timed out. */
    method DequeFor(dst: int, now: real) returns (p: Packet?)
      requires Valid()
      modifies this, footprint
      ensures Valid() && drops == old(drops) && footprint == old(footprint)
      ensures var (q, x) := SendBuffer.DequeFor(old(Queue()), now, dst);
        Queue() == q && if p == null then x == None else x == Some(ValueOf(p))
    {
      hide Valid, Live, Aged, First, Values, LinkOk, Without;
      Purge(now);
      var prev;
      ghost var i;
      p, prev, i := FindPacketWithDst(dst);
      if p != null {
        NodesIn();
        Unlink(p, prev, i);
      }
    }

    /** Whether a packet for `dst` waits, timed out or not. */
    method Find(dst: int) returns (found: bool)
      requires Valid()
      ensures found <==> exists x | x in Queue() :: x.dst == dst
    {
      var p, _, i := FindPacketWithDst(dst);
      found := p != null;
      if found { assert Queue()[i] in Queue(); }
    }

    /** Preparing a packet outside the list does not disturb the list. */
    twostate lemma Unmoved(p: Packet)
      requires old(Valid()) && p !in nodes && unchanged(this) && forall q | q in footprint && q != p :: unchanged(q)
      ensures Valid() && Queue() == old(Queue())
    {
    }
  }
}
