/** The doubly linked lists that both routing protocols keep their tables in: LIST_INSERT_HEAD,
    LIST_INSERT_AFTER and LIST_REMOVE of lib/bsd-list.h, proved against the sequence of elements. */
module BsdList {

  /** An element and its two links.  `prev` is null in the first link, whose predecessor is the head. */
  class Link<T> {
    var elem: T
    var next: Link?<T>
    var prev: Link?<T>

    constructor (elem: T)
      ensures this.elem == elem
    {
      this.elem := elem;
    }
  }

  ghost function At<T>(links: seq<Link<T>>, i: int): Link?<T> {
    if 0 <= i < |links| then links[i] else null
  }

  ghost predicate LinkOk<T>(links: seq<Link<T>>, i: nat)
    requires i < |links|
    reads links[i]
  {
    links[i].next == At(links, i + 1) && links[i].prev == At(links, i - 1)
  }

  ghost function Elems<T>(links: seq<Link<T>>): seq<T>
    reads links
  {
    seq(|links|, i requires 0 <= i < |links| reads links => links[i].elem)
  }

  lemma ElemsAre<T>(links: seq<Link<T>>, s: seq<T>)
    requires |links| == |s| && forall k | 0 <= k < |s| :: links[k].elem == s[k]
    ensures Elems(links) == s
  {
  }

  /** The links are there, each once. */
  ghost predicate Distinct<T>(links: seq<Link<T>>, footprint: set<object>) {
    && (forall i | 0 <= i < |links| :: links[i] in footprint)
    && forall i, j | 0 <= i < j < |links| :: links[i] != links[j]
  }

  lemma DistinctWithout<T>(links: seq<Link<T>>, footprint: set<object>, i: nat)
    requires Distinct(links, footprint) && i < |links|
    ensures Distinct(links[..i] + links[i + 1..], footprint)
  {
  }

  lemma OnlyHere<T>(links: seq<Link<T>>, footprint: set<object>, i: nat)
    requires Distinct(links, footprint) && i < |links|
    ensures links[i] in footprint && forall k | 0 <= k < |links| :: links[k] == links[i] ==> k == i
  {
  }

  class List<T> {
    var first: Link?<T>
    ghost var links: seq<Link<T>>
    ghost var footprint: set<object>

    ghost predicate Valid()
      reads this, footprint
    {
      && this !in footprint && Distinct(links, footprint)
      && first == At(links, 0)
      && forall i | 0 <= i < |links| :: LinkOk(links, i)
    }

    ghost function Values(): seq<T>
      reads this, links
    {
      Elems(links)
    }

    constructor ()
      ensures Valid() && links == [] && footprint == {}
    {
      first, links, footprint := null, [], {};
    }

    /** LIST_INSERT_HEAD of a new element. */
    method InsertHead(elem: T) returns (l: Link<T>)
      requires Valid()
      modifies this, footprint
      ensures Valid() && fresh(l) && footprint == old(footprint) + {l}
      ensures links == [l] + old(links) && Values() == [elem] + old(Values())
    {
      l := new Link<T>(elem);
      ghost var was := links;
      l.next, l.prev := first, null;
      if first != null {
        first.prev := l;
      }
      first := l;
      links, footprint := [l] + links, footprint + {l};
      assert forall k | 1 <= k < |links| :: links[k] == was[k - 1];
      forall k | 0 <= k < |links| ensures LinkOk(links, k) {
        if k > 0 { assert old(LinkOk(was, k - 1)); }
      }
    }

    /** LIST_INSERT_AFTER of a new element behind the last one. */
    method InsertAfter(p: Link<T>, elem: T) returns (l: Link<T>)
      requires Valid() && links != [] && p == links[|links| - 1]
      modifies this, footprint
      ensures Valid() && fresh(l) && footprint == old(footprint) + {l}
      ensures links == old(links) + [l] && Values() == old(Values()) + [elem]
    {
      ghost var was, vals := links, Values();
      assert LinkOk(was, |was| - 1);
      l := new Link<T>(elem);
      l.next := p.next;
      p.next := l;
      l.prev := p;
      links, footprint := links + [l], footprint + {l};
      assert forall k | 0 <= k < |was| :: links[k] == was[k];
      forall k | 0 <= k < |links| ensures LinkOk(links, k) {
        if k < |was| { assert old(LinkOk(was, k)); }
      }
      ElemsAre(links, vals + [elem]);
    }

    /** LIST_REMOVE: unlinks an element wherever it is, without a search. */
    method Remove(l: Link<T>, ghost i: nat)
      requires Valid() && i < |links| && l == links[i]
      modifies this, footprint
      ensures Valid() && footprint == old(footprint)
      ensures links == old(links)[..i] + old(links)[i + 1..]
      ensures Values() == old(Values())[..i] + old(Values())[i + 1..]
      ensures l.next == old(l.next) && l.elem == old(l.elem)
    {
      ghost var was, vals := links, Values();
      assert LinkOk(was, i);
      OnlyHere(was, footprint, i);
      if i + 1 < |was| { OnlyHere(was, footprint, i + 1); }
      if i > 0 { OnlyHere(was, footprint, i - 1); }
      DistinctWithout(was, footprint, i);
      if l.next != null {
        l.next.prev := l.prev;
      }
      if l.prev == null {
        first := l.next;
      } else {
        l.prev.next := l.next;
      }
      links := links[..i] + links[i + 1..];
      assert forall k | 0 <= k < |links| :: links[k] == if k < i then was[k] else was[k + 1];
      forall k | 0 <= k < |links| ensures LinkOk(links, k) {
        assert old(LinkOk(was, if k < i then k else k + 1));
      }
      ElemsAre(links, vals[..i] + vals[i + 1..]);
    }

    /** Writes an element in place. */
    method Set(l: Link<T>, ghost i: nat, elem: T)
      requires Valid() && i < |links| && l == links[i]
      modifies l`elem
      ensures Valid() && links == old(links) && Values() == old(Values())[i := elem]
    {
      OnlyHere(links, footprint, i);
      l.elem := elem;
      forall k | 0 <= k < |links| ensures LinkOk(links, k) {
        assert old(LinkOk(links, k));
      }
    }

    /** Where the list starts. */
    lemma Starts()
      requires Valid()
      ensures first == At(links, 0) && |Values()| == |links|
      ensures forall i | 0 <= i < |links| :: links[i] in footprint && links[i].elem == Values()[i]
    {
    }

    /** Where a walk over the list is after one more step. */
    lemma Next(i: nat)
      requires Valid() && i < |links|
      ensures links[i].next == At(links, i + 1)
    {
      assert LinkOk(links, i);
    }
  }
}
