/** The multicast classifier's hash tables. Addresses are 32 bits wide, as in the hash. */
module McastTable {

  const HASHSIZE := 256
  const ANY_IFACE := -2

  datatype Entry = Entry(src: bv32, dst: bv32, slot: int, iif: int)

  function Hash(src: bv32, dst: bv32): (h: nat)
    ensures h < HASHSIZE
  {
    var s := src ^ dst;
    var s := s ^ (s >> 16);
    var s := s ^ (s >> 8);
    (s & 0xff) as nat
  }

  // ---------- the flat table ----------

  predicate Matches(e: Entry, src: bv32, dst: bv32, iface: int) {
    e.src == src && e.dst == dst && (e.iif == iface || iface == ANY_IFACE)
  }

  /** The first entry of a list, newest first, that answers a query; the length if there is none. */
  function Search(q: seq<Entry>, src: bv32, dst: bv32, iface: int): (i: nat)
    ensures i <= |q| && (forall k | 0 <= k < i :: !Matches(q[k], src, dst, iface))
    ensures i < |q| ==> Matches(q[i], src, dst, iface)
  {
    if q == [] || Matches(q[0], src, dst, iface) then 0 else 1 + Search(q[1..], src, dst, iface)
  }

  function ChangeIface(q: seq<Entry>, src: bv32, dst: bv32, old_: int, new_: int): seq<Entry> {
    var i := Search(q, src, dst, old_);
    if i < |q| then q[i := q[i].(iif := new_)] else q
  }

  lemma SearchIs(q: seq<Entry>, src: bv32, dst: bv32, iface: int, i: nat)
    requires i <= |q| && (forall k | 0 <= k < i :: !Matches(q[k], src, dst, iface))
    requires i < |q| ==> Matches(q[i], src, dst, iface)
    ensures Search(q, src, dst, iface) == i
  {
  }

  /** An entry for one source and group, or a change to one, leaves the answers for all others alone. */
  lemma OthersUnaffected(q: seq<Entry>, e: Entry, src: bv32, dst: bv32, iface: int)
    requires !(e.src == src && e.dst == dst)
    ensures Search([e] + q, src, dst, iface) == Search(q, src, dst, iface) + 1
  {
    SearchIs([e] + q, src, dst, iface, Search(q, src, dst, iface) + 1);
  }

  lemma OthersUnchanged(q: seq<Entry>, s: bv32, d: bv32, was: int, new_: int, src: bv32, dst: bv32, iface: int)
    requires !(s == src && d == dst)
    ensures
      var i, r := Search(q, src, dst, iface), ChangeIface(q, s, d, was, new_);
      Search(r, src, dst, iface) == i && (i < |q| ==> r[i] == q[i])
  {
    SearchIs(ChangeIface(q, s, d, was, new_), src, dst, iface, Search(q, src, dst, iface));
  }

  /** After a change, the entry found for the old interface answers for the new one, unless a newer one does. */
  lemma ChangedAnswers(q: seq<Entry>, src: bv32, dst: bv32, was: int, new_: int)
    requires Search(q, src, dst, was) < |q|
    ensures
      var i, r := Search(q, src, dst, was), ChangeIface(q, src, dst, was, new_);
      var j := Search(r, src, dst, new_);
      j <= i && (j < i ==> j == Search(q, src, dst, new_)) && r[i].slot == q[i].slot
  {
    var i, r := Search(q, src, dst, was), ChangeIface(q, src, dst, was, new_);
    var j := Search(r, src, dst, new_);
    assert forall k | 0 <= k < i :: r[k] == q[k];
    assert Matches(r[i], src, dst, new_);
    if j < i { SearchIs(q, src, dst, new_, j); }
  }

  /** How a packet is classified: by a source entry for its interface, then by a group entry; failing that, by the newest
      entry for any interface, which must be one that accepts all. */
  datatype Verdict = Slot(slot: int) | CacheMiss | WrongIif

  function Classify(q: seq<Entry>, star: seq<Entry>, src: bv32, dst: bv32, iface: int): Verdict {
    var i, j := Search(q, src, dst, iface), Search(star, 0, dst, iface);
    if i < |q| then Slot(q[i].slot)
    else if j < |star| then Slot(star[j].slot)
    else Missed(q, star, src, dst)
  }

  function Missed(q: seq<Entry>, star: seq<Entry>, src: bv32, dst: bv32): Verdict {
    var i, j := Search(q, src, dst, ANY_IFACE), Search(star, 0, dst, ANY_IFACE);
    if i == |q| && j == |star| then CacheMiss
    else
      var e := if i < |q| then q[i] else star[j];
      if e.iif == ANY_IFACE then Slot(e.slot) else WrongIif
  }

  /** An entry for the source and group of a packet, whatever its interface. */
  predicate For(e: Entry, src: bv32, dst: bv32) {
    e.src == src && e.dst == dst
  }

  /** The entry lets packets in over this interface. */
  predicate Open(e: Entry, iface: int) {
    e.iif == iface || iface == ANY_IFACE
  }

  predicate AnyOpen(q: seq<Entry>, src: bv32, dst: bv32, iface: int) {
    exists i | 0 <= i < |q| :: For(q[i], src, dst) && Open(q[i], iface)
  }

  predicate AnyFor(q: seq<Entry>, src: bv32, dst: bv32) {
    exists i | 0 <= i < |q| :: For(q[i], src, dst)
  }

  /** The newest entry that lets the packet in has this slot. */
  predicate NewestOpen(q: seq<Entry>, src: bv32, dst: bv32, iface: int, slot: int) {
    exists i | 0 <= i < |q| ::
      && For(q[i], src, dst) && Open(q[i], iface) && q[i].slot == slot
      && forall k | 0 <= k < i :: !(For(q[k], src, dst) && Open(q[k], iface))
  }

  /** The newest entry, whatever interface it is for. */
  predicate NewestFor(q: seq<Entry>, src: bv32, dst: bv32, e: Entry) {
    exists i | 0 <= i < |q| :: q[i] == e && For(e, src, dst) && forall k | 0 <= k < i :: !For(q[k], src, dst)
  }

  /** Where a packet must go: a source entry open to its interface decides, whatever the group table holds; without one a
      group entry does; without that, the newest entry at all, a source entry before a group entry, and only if it accepts
      any interface; a miss is reported exactly if there is no entry at all. */
  ghost predicate Routed(q: seq<Entry>, star: seq<Entry>, src: bv32, dst: bv32, iface: int, v: Verdict) {
    && (AnyOpen(q, src, dst, iface) ==> v.Slot? && NewestOpen(q, src, dst, iface, v.slot))
    && (!AnyOpen(q, src, dst, iface) && AnyOpen(star, 0, dst, iface) ==> v.Slot? && NewestOpen(star, 0, dst, iface, v.slot))
    && (v.CacheMiss? <==> !AnyFor(q, src, dst) && !AnyFor(star, 0, dst))
    && (!AnyOpen(q, src, dst, iface) && !AnyOpen(star, 0, dst, iface) && !v.CacheMiss? ==>
          exists e ::
            && (if AnyFor(q, src, dst) then NewestFor(q, src, dst, e) else NewestFor(star, 0, dst, e))
            && v == if e.iif == ANY_IFACE then Slot(e.slot) else WrongIif)
  }

  lemma SearchOpen(q: seq<Entry>, src: bv32, dst: bv32, iface: int)
    ensures var i := Search(q, src, dst, iface);
      && (i < |q| <==> AnyOpen(q, src, dst, iface)) && (i < |q| ==> NewestOpen(q, src, dst, iface, q[i].slot))
  {
    var i := Search(q, src, dst, iface);
    assert forall k | 0 <= k < |q| :: Matches(q[k], src, dst, iface) <==> For(q[k], src, dst) && Open(q[k], iface);
  }

  lemma SearchAny(q: seq<Entry>, src: bv32, dst: bv32)
    ensures var i := Search(q, src, dst, ANY_IFACE);
      && (i < |q| <==> AnyFor(q, src, dst)) && (i < |q| ==> NewestFor(q, src, dst, q[i]))
  {
    var i := Search(q, src, dst, ANY_IFACE);
    assert forall k | 0 <= k < |q| :: Matches(q[k], src, dst, ANY_IFACE) <==> For(q[k], src, dst);
  }

  lemma OpenIsFor(q: seq<Entry>, src: bv32, dst: bv32, iface: int)
    ensures AnyOpen(q, src, dst, iface) ==> AnyFor(q, src, dst)
  {
  }

  lemma ClassifyRoutes(q: seq<Entry>, star: seq<Entry>, src: bv32, dst: bv32, iface: int)
    ensures Routed(q, star, src, dst, iface, Classify(q, star, src, dst, iface))
  {
    SearchOpen(q, src, dst, iface);
    SearchOpen(star, 0, dst, iface);
    SearchAny(q, src, dst);
    SearchAny(star, 0, dst);
    OpenIsFor(q, src, dst, iface);
    OpenIsFor(star, 0, dst, iface);
    hide AnyOpen, AnyFor, NewestOpen, NewestFor, Search;
  }

  // ---------- the hash table ----------

  class HashNode {
    const slot: int
    const src: bv32
    const dst: bv32
    var next: HashNode?
    var iif: int

    constructor (src: bv32, dst: bv32, slot: int, iif: int)
      ensures this.src == src && this.dst == dst && this.slot == slot && this.iif == iif
    {
      this.src, this.dst, this.slot, this.iif, next := src, dst, slot, iif, null;
    }
  }

  ghost function HashOf(n: HashNode): nat {
    Hash(n.src, n.dst)
  }

  ghost function At(all: seq<HashNode>, i: int): HashNode? {
    if 0 <= i < |all| then all[i] else null
  }

  /** The first node from position i on that belongs to bucket h. */
  ghost function NextIn(all: seq<HashNode>, i: nat, h: nat): (j: nat)
    requires i <= |all|
    ensures i <= j <= |all| && (forall k | i <= k < j :: HashOf(all[k]) != h) && (j < |all| ==> HashOf(all[j]) == h)
    decreases |all| - i
  {
    if i == |all| || HashOf(all[i]) == h then i else NextIn(all, i + 1, h)
  }

  lemma {:induction false} NextInShift(n: HashNode, all: seq<HashNode>, i: nat, h: nat)
    requires i <= |all|
    ensures NextIn([n] + all, i + 1, h) == NextIn(all, i, h) + 1
    decreases |all| - i
  {
    if i < |all| && HashOf(all[i]) != h {
      NextInShift(n, all, i + 1, h);
    }
  }

  lemma NextInHead(n: HashNode, all: seq<HashNode>, h: nat)
    ensures NextIn([n] + all, 0, h) == if HashOf(n) == h then 0 else NextIn(all, 0, h) + 1
  {
    if HashOf(n) != h { NextInShift(n, all, 0, h); }
  }

  ghost predicate LinkOk(all: seq<HashNode>, i: nat)
    requires i < |all|
    reads all[i]
  {
    all[i].next == At(all, NextIn(all, i + 1, HashOf(all[i])))
  }

  ghost function ValueOf(n: HashNode): Entry
    reads n
  {
    Entry(n.src, n.dst, n.slot, n.iif)
  }

  ghost function Values(all: seq<HashNode>): (q: seq<Entry>)
    reads all
    ensures |q| == |all| && forall i | 0 <= i < |all| :: q[i] == ValueOf(all[i])
  {
    if all == [] then [] else Values(all[..|all| - 1]) + [ValueOf(all[|all| - 1])]
  }

  /** One table of buckets. `all` lists the nodes of all buckets, newest first. */
  class HashTable {
    const ht: array<HashNode?>
    ghost var all: seq<HashNode>
    ghost var footprint: set<HashNode>

    ghost predicate Valid()
      reads this, ht, footprint
    {
      && ht.Length == HASHSIZE
      && (forall i | 0 <= i < |all| :: all[i] in footprint)
      && (forall i, j | 0 <= i < j < |all| :: all[i] != all[j])
      && (forall h | 0 <= h < HASHSIZE :: ht[h] == At(all, NextIn(all, 0, h)))
      && forall i | 0 <= i < |all| :: LinkOk(all, i)
    }

    ghost function Entries(): (q: seq<Entry>)
      reads `all, all
      ensures |q| == |all| && forall i | 0 <= i < |all| :: q[i] == ValueOf(all[i])
    {
      Values(all)
    }

    constructor ()
      ensures Valid() && Entries() == [] && footprint == {} && fresh(ht)
    {
      ht := new HashNode?[HASHSIZE](_ => null);
      all, footprint := [], {};
    }

    lemma NodesIn()
      requires Valid()
      ensures forall i | 0 <= i < |all| :: all[i] in footprint
    {
    }

    /** Puts an entry at the head of its bucket. */
    method SetHash(src: bv32, dst: bv32, slot: int, iface: int)
      requires Valid()
      modifies this, ht
      ensures Valid() && fresh(footprint - old(footprint))
      ensures Entries() == [Entry(src, dst, slot, iface)] + old(Entries())
    {
      hide Valid, Hash, Values;
      NodesIn();
      var p := new HashNode(src, dst, slot, iface);
      Link(p, Hash(src, dst));
    }

    method Link(p: HashNode, h: nat)
      requires Valid() && p !in all && h == HashOf(p)
      modifies this, ht, p`next
      ensures Valid() && footprint == old(footprint) + {p} && all == [p] + old(all)
    {
      hide Hash, NextIn;
      ghost var was := all;
      p.next := ht[h];
      ht[h] := p;
      all, footprint := [p] + all, footprint + {p};
      forall g | 0 <= g < HASHSIZE ensures ht[g] == At(all, NextIn(all, 0, g)) {
        NextInHead(p, was, g);
      }
      forall i | 0 <= i < |all| ensures LinkOk(all, i) {
        if i == 0 {
          NextInShift(p, was, 0, h);
        } else {
          assert old(LinkOk(was, i - 1));
          NextInShift(p, was, i, HashOf(was[i - 1]));
        }
      }
    }

    /** Searches one bucket, and finds what a search through all entries, newest first, would find. */
    method Lookup(src: bv32, dst: bv32, iface: int) returns (p: HashNode?)
      requires Valid()
      ensures p == At(all, Search(Entries(), src, dst, iface))
    {
      hide Hash;
      var h := Hash(src, dst);
      p := ht[h];
      ghost var i := NextIn(all, 0, h);
      while p != null
        invariant i <= |all| && p == At(all, i) && (i < |all| ==> HashOf(all[i]) == h)
        invariant forall k | 0 <= k < i :: !Matches(Entries()[k], src, dst, iface)
        decreases |all| - i
      {
        if p.src == src && p.dst == dst {
          if p.iif == iface || iface == ANY_IFACE {
            break;
          }
        }
        assert LinkOk(all, i);
        p := p.next;
        i := NextIn(all, i + 1, h);
      }
      SearchIs(Entries(), src, dst, iface, i);
    }

    /** Searches by group only, in a table whose entries all have source 0. */
    method LookupStar(dst: bv32, iface: int) returns (p: HashNode?)
      requires Valid() && forall i | 0 <= i < |all| :: all[i].src == 0
      ensures p == At(all, Search(Entries(), 0, dst, iface))
    {
      hide Hash;
      var h := Hash(0, dst);
      p := ht[h];
      ghost var i := NextIn(all, 0, h);
      while p != null
        invariant i <= |all| && p == At(all, i) && (i < |all| ==> HashOf(all[i]) == h)
        invariant forall k | 0 <= k < i :: !Matches(Entries()[k], 0, dst, iface)
        decreases |all| - i
      {
        if p.dst == dst && (iface == ANY_IFACE || p.iif == iface) {
          break;
        }
        assert LinkOk(all, i);
        p := p.next;
        i := NextIn(all, i + 1, h);
      }
      SearchIs(Entries(), 0, dst, iface, i);
    }

    /** Gives the entry found a new interface, in place. */
    method SetIface(p: HashNode?, ghost i: nat, newiface: int)
      requires Valid() && i <= |all| && p == At(all, i)
      modifies footprint
      ensures Valid() && footprint == old(footprint) && all == old(all)
      ensures Entries() == if i < |all| then old(Entries())[i := old(Entries())[i].(iif := newiface)] else old(Entries())
    {
      if p != null {
        p.iif := newiface;
        forall k | 0 <= k < |all| ensures LinkOk(all, k) {
          assert old(LinkOk(all, k));
        }
      }
    }
  }

  // ---------- the classifier ----------

  class Classifier {
    const ht: HashTable
    const htStar: HashTable

    ghost predicate Valid()
      reads ht, ht.ht, ht.footprint, htStar, htStar.ht, htStar.footprint
    {
      && ht.Valid() && htStar.Valid() && ht != htStar && ht.ht != htStar.ht && ht.footprint !! htStar.footprint
      && forall i | 0 <= i < |htStar.all| :: htStar.all[i].src == 0
    }

    constructor ()
      ensures Valid() && ht.Entries() == [] && htStar.Entries() == []
    {
      ht := new HashTable();
      htStar := new HashTable();
    }

    /** Installs an entry for a source and group, or for the group alone. */
    method Install(star: bool, src: bv32, dst: bv32, slot: int, iface: int)
      requires Valid()
      modifies ht, ht.ht, htStar, htStar.ht
      ensures Valid()
      ensures ht.Entries() == (if star then [] else [Entry(src, dst, slot, iface)]) + old(ht.Entries())
      ensures htStar.Entries() == (if star then [Entry(0, dst, slot, iface)] else []) + old(htStar.Entries())
    {
      hide HashTable.Valid, Values, Matches, Search, Hash;
      if star {
        htStar.SetHash(0, dst, slot, iface);
        assert forall i | 0 <= i < |htStar.all| :: htStar.all[i].src == htStar.Entries()[i].src;
      } else {
        ht.SetHash(src, dst, slot, iface);
      }
    }

    method ChangeIfaceOf(star: bool, src: bv32, dst: bv32, oldiface: int, newiface: int)
      requires Valid()
      modifies ht.footprint, htStar.footprint
      ensures Valid()
      ensures ht.Entries() == if star then old(ht.Entries()) else ChangeIface(old(ht.Entries()), src, dst, oldiface, newiface)
      ensures htStar.Entries() ==
        if star then ChangeIface(old(htStar.Entries()), 0, dst, oldiface, newiface) else old(htStar.Entries())
    {
      hide HashTable.Valid, Values, Matches, Search, Hash;
      ht.NodesIn();
      htStar.NodesIn();
      if star {
        var p := htStar.LookupStar(dst, oldiface);
        htStar.SetIface(p, Search(htStar.Entries(), 0, dst, oldiface), newiface);
      } else {
        var p := ht.Lookup(src, dst, oldiface);
        ht.SetIface(p, Search(ht.Entries(), src, dst, oldiface), newiface);
      }
    }

    /** What becomes of a packet that no entry lets in over its interface. */
    method ClassifyMissed(src: bv32, dst: bv32) returns (v: Verdict)
      requires Valid()
      ensures v == Missed(ht.Entries(), htStar.Entries(), src, dst)
    {
      hide HashTable.Valid, Values, Matches, Search, Hash;
      var p := ht.Lookup(src, dst, ANY_IFACE);
      if p == null {
        p := htStar.LookupStar(dst, ANY_IFACE);
      }
      if p == null {
        return CacheMiss;
      }
      if p.iif == ANY_IFACE {
        return Slot(p.slot);
      }
      return WrongIif;
    }

    /** Where a packet goes, or which complaint is sent up. */
    method ClassifyPacket(src: bv32, dst: bv32, iface: int) returns (v: Verdict)
      requires Valid()
      ensures v == Classify(ht.Entries(), htStar.Entries(), src, dst, iface)
      ensures Routed(ht.Entries(), htStar.Entries(), src, dst, iface, v)
    {
      hide HashTable.Valid, Values, Matches, Search, Hash, Routed;
      var p := ht.Lookup(src, dst, iface);
      if p == null {
        p := htStar.LookupStar(dst, iface);
      }
      if p != null {
        v := Slot(p.slot);
      } else {
        v := ClassifyMissed(src, dst);
      }
      ClassifyRoutes(ht.Entries(), htStar.Entries(), src, dst, iface);
    }
  }
}
