/** A route entry as the object that the handlers hold references to, with its own linked list of precursors:
    aodv/aodv_rtable.cc, and the two functions of aodv/aodv.cc that change one entry. */
module AodvRtable {
  import opened RoutingBase
  import opened BsdList
  import opened AodvNode
  import opened AodvProps

  lemma PcFound(pcs: seq<Addr>, id: Addr, k: nat)
    requires k <= |pcs| && (k < |pcs| ==> pcs[k] == id) && forall j | 0 <= j < k :: pcs[j] != id
    ensures PcFind(pcs, id) == k
  {
  }

  class RtEntry {
    const dst: Addr
    const pclist: List<Addr>
    var seqno: nat
    var hops: Hops
    var lastHops: Hops
    var nexthop: Addr
    var expire: real
    var up: bool
    var reqTimeout: real
    var reqCnt: nat
    var reqLastTtl: int

    ghost function Repr(): set<object>
      reads pclist
    {
      {this, pclist} + pclist.footprint
    }

    ghost predicate Valid()
      reads this, Repr()
    {
      pclist.Valid() && this !in pclist.footprint
    }

    ghost function Value(): Entry
      requires Valid()
      reads this, Repr()
    {
      Entry(seqno, hops, lastHops, nexthop, pclist.Values(), expire, up, reqTimeout, reqCnt, reqLastTtl)
    }

    /** The fields, as the specification names them. */
    lemma Shown()
      requires Valid()
      ensures var e := Value();
              && e.seqno == seqno && e.hops == hops && e.lastHops == lastHops && e.nexthop == nexthop
              && e.expire == expire && e.up == up && e.reqTimeout == reqTimeout && e.reqCnt == reqCnt
              && e.reqLastTtl == reqLastTtl && e.precursors == pclist.Values()
    {
    }

    constructor (dst: Addr)
      ensures Valid() && fresh(Repr()) && Value() == FRESH_ENTRY && this.dst == dst
    {
      this.dst := dst;
      pclist := new List<Addr>();
      seqno, hops, lastHops, nexthop := 0, Inf, Inf, 0;
      expire, up := 0.0, false;
      reqTimeout, reqCnt, reqLastTtl := 0.0, 0, 0;
    }

    // ---------- precursors ----------

    method PcLookup(id: Addr) returns (pc: Link?<Addr>, ghost k: nat)
      requires Valid()
      ensures k == PcFind(pclist.Values(), id) && pc == At(pclist.links, k)
      ensures pc == At(pclist.links, PcFind(pclist.Values(), id))
    {
      pclist.Starts();
      pc, k := pclist.first, 0;
      while pc != null && pc.elem != id
        invariant k <= |pclist.links| && pc == At(pclist.links, k)
        invariant forall j | 0 <= j < k :: pclist.Values()[j] != id
        decreases |pclist.links| - k
      {
        pclist.Next(k);
        pc, k := pc.next, k + 1;
      }
      PcFound(pclist.Values(), id, k);
    }

    method PcInsert(id: Addr)
      requires Valid()
      modifies Repr()
      ensures Valid() && fresh(Repr() - old(Repr()))
      ensures Value() == old(Value()).(precursors := AodvNode.PcInsert(old(Value()).precursors, id))
    {
      var pc, k := PcLookup(id);
      pclist.Starts();
      if pc == null {
        var l := pclist.InsertHead(id);
      }
    }

    method PcDelete(id: Addr)
      requires Valid()
      modifies Repr()
      ensures Valid() && Repr() == old(Repr())
      ensures Value() == old(Value()).(precursors := PcWithout(old(Value()).precursors, id))
    {
      var pc, k := PcLookup(id);
      pclist.Starts();
      if pc != null {
        pclist.Remove(pc, k);
      }
    }

    method PcDeleteAll()
      requires Valid()
      modifies Repr()
      ensures Valid() && Repr() == old(Repr()) && Value() == old(Value()).(precursors := [])
    {
      pclist.Starts();
      while pclist.first != null
        invariant Valid() && Repr() == old(Repr())
        invariant Value() == old(Value()).(precursors := pclist.Values())
        decreases |pclist.links|
      {
        pclist.Starts();
        pclist.Remove(pclist.first, 0);
      }
      pclist.Starts();
    }

    method PcEmpty() returns (empty: bool)
      requires Valid()
      ensures empty <==> Value().precursors == []
    {
      pclist.Starts();
      empty := pclist.first == null;
    }

    // ---------- up and down ----------

    method Update(seqno: nat, metric: nat, nexthop: Addr, expire: real)
      requires Valid()
      modifies this
      ensures Valid() && Repr() == old(Repr()) && Value() == RtUpdate(old(Value()), seqno, metric, nexthop, expire)
    {
      this.seqno, hops, up, this.nexthop, this.expire := seqno, Fin(metric), true, nexthop, expire;
    }

    method Down()
      requires Valid()
      modifies this
      ensures Valid() && Repr() == old(Repr()) && Value() == RtDown(old(Value()))
    {
      if !up {
        return;
      }
      lastHops := hops;
      hops, up, nexthop, expire := Inf, false, 0, 0.0;
    }

    // ---------- use and searches ----------

    /** forward() takes a packet over a route that is up, which lives on. */
    method Forward(now: real)
      requires Valid() && up
      modifies `expire
      ensures Valid() && Value() == old(Value()).(expire := now + ACTIVE_ROUTE_TIMEOUT)
    {
      assert up;
      expire := now + ACTIVE_ROUTE_TIMEOUT;
    }

    /** Packets the send buffer holds for this destination leave over the route. */
    method Drain(env: Env)
      requires Valid() && up
      modifies `expire
      ensures Valid() && Value() == Drained(old(Value()), dst, env)
    {
      if dst in env.waiting {
        Forward(env.now);
      }
    }

    /** The size of the next search ring, and when the one after it may start. */
    method NextRing(env: Env) returns (ttl: int)
      requires Valid()
      modifies this
      ensures Valid() && Repr() == old(Repr())
      ensures Value() == NextSearch(old(Value()), dst, env) && ttl == reqLastTtl && seqno == old(seqno)
    {
      hide SearchTimeout;
      if reqLastTtl < lastHops.Num() {
        reqLastTtl := lastHops.Num();
      }
      if reqLastTtl == 0 {
        ttl := TTL_START;
      } else if reqLastTtl < TTL_THRESHOLD {
        ttl := reqLastTtl + TTL_INCREMENT;
      } else {
        ttl := NETWORK_DIAMETER;
        reqCnt := reqCnt + 1;
      }
      reqLastTtl := ttl;
      reqTimeout := RingTimeout(ttl, reqCnt, PerHopTime(dst, env), env.now, MAX_RREQ_TIMEOUT);
      expire := 0.0;
    }

    /** The reverse route part of recvRequest. */
    method TakeReverse(m: Msg, env: Env)
      requires Valid() && m.Rreq? && m.src == dst
      modifies this
      ensures Valid() && Repr() == old(Repr()) && Value() == ReverseEntry(old(Value()), m, env)
    {
      var life := env.now + REV_ROUTE_LIFE;
      if expire < life {
        expire := life;
      }
      if m.srcSeqno > seqno || (m.srcSeqno == seqno && Fin(m.hopCount).Below(hops)) {
        Update(m.srcSeqno, m.hopCount, m.sender, if expire < life then life else expire);
        if reqTimeout > 0.0 {
          reqCnt, reqTimeout, reqLastTtl := 0, 0.0, m.hopCount;
          expire := env.now + ACTIVE_ROUTE_TIMEOUT;
        }
        Drain(env);
      }
    }

    /** The forward route part of recvReply, for a reply that offers a better route. */
    method TakeForward(m: Msg, env: Env)
      requires Valid() && m.Rrep? && m.dst == dst
      modifies this
      ensures Valid() && Repr() == old(Repr()) && Value() == ForwardEntry(old(Value()), m, env)
    {
      Update(m.dstSeqno, m.hopCount, m.sender, env.now + m.lifetime);
      reqCnt, reqTimeout, reqLastTtl := 0, 0.0, m.hopCount;
      Drain(env);
    }

    /** A route lost downstream goes down under the number reported; tells whether anyone must be told. */
    method Lose(reported: nat) returns (tell: bool)
      requires Valid() && up && seqno % 2 == 0
      modifies Repr()
      ensures Valid() && Repr() == old(Repr())
      ensures var down := RtDown(old(Value()).(seqno := reported));
              tell == (down.precursors != []) && Value() == down.(precursors := [])
    {
      assert up;
      assert seqno % 2 == 0;
      seqno := reported;
      Down();
      var empty := PcEmpty();
      tell := !empty;
      if tell {
        PcDeleteAll();
      }
    }

    /** The link to `id` is gone: a route over it goes down under the next number, and `id` is no precursor. */
    method Fail(id: Addr) returns (lost: bool)
      requires Valid() && EntryOk(Value())
      modifies Repr()
      ensures Valid() && Repr() == old(Repr())
      ensures lost == (old(Value()).hops.Fin? && old(Value()).nexthop == id)
      ensures var e := old(Value());
              var e := if lost then RtDown(e.(seqno := e.seqno + 1)) else e;
              Value() == e.(precursors := PcWithout(e.precursors, id))
    {
      lost := hops.Fin? && nexthop == id;
      if lost {
        assert up;
        assert seqno % 2 == 0;
        seqno := seqno + 1;
        Down();
      }
      PcDelete(id);
    }

    /** An expired route goes down under the next number. */
    method Expire()
      requires Valid() && up && EntryOk(Value())
      modifies this
      ensures Valid() && Repr() == old(Repr())
      ensures var e := old(Value()); Value() == RtDown(e.(seqno := e.seqno + 1))
    {
      assert hops.Fin?;
      seqno := seqno + 1;
      assert seqno % 2 == 1;
      Down();
    }

    /** After too many searches the route rests for the longest time. */
    method Rest(now: real)
      requires Valid()
      modifies this
      ensures Valid() && Repr() == old(Repr())
      ensures Value() == old(Value()).(reqTimeout := now + MAX_RREQ_TIMEOUT, reqCnt := 0)
    {
      reqTimeout := now + MAX_RREQ_TIMEOUT;
      reqCnt := 0;
    }
  }

  // ---------- the table ----------

  function DestsOf(es: seq<RtEntry>): seq<Addr> {
    seq(|es|, i requires 0 <= i < |es| => es[i].dst)
  }

  /** No two entries are for one destination. */
  ghost predicate OneEach(es: seq<RtEntry>) {
    forall i, j | 0 <= i < j < |es| :: es[i].dst != es[j].dst
  }

  ghost function EntryFor(es: seq<RtEntry>, d: Addr): (e: RtEntry)
    requires d in DestsOf(es)
    ensures e in es && e.dst == d
  {
    var i :| 0 <= i < |es| && DestsOf(es)[i] == d;
    es[i]
  }

  lemma OneFor(es: seq<RtEntry>, e: RtEntry)
    requires OneEach(es) && e in es
    ensures e.dst in DestsOf(es) && EntryFor(es, e.dst) == e
  {
    var i :| 0 <= i < |es| && es[i] == e;
    assert DestsOf(es)[i] == e.dst;
  }

  lemma OneMore(es: seq<RtEntry>, rt: RtEntry)
    requires OneEach(es) && rt.dst !in DestsOf(es)
    ensures OneEach([rt] + es) && DestsOf([rt] + es) == [rt.dst] + DestsOf(es)
    ensures forall d | d in DestsOf(es) :: d in DestsOf([rt] + es) && EntryFor([rt] + es, d) == EntryFor(es, d)
  {
    var fs := [rt] + es;
    assert DestsOf(fs) == [rt.dst] + DestsOf(es);
    forall i, j | 0 <= i < j < |fs| ensures fs[i].dst != fs[j].dst {
      if i == 0 { assert fs[j].dst == DestsOf(es)[j - 1]; }
    }
    forall d | d in DestsOf(es) ensures d in DestsOf(fs) && EntryFor(fs, d) == EntryFor(es, d) {
      assert EntryFor(es, d) in fs;
      OneFor(fs, EntryFor(es, d));
    }
  }

  class RtTable {
    const list: List<RtEntry>
    ghost var footprint: set<object>

    ghost function Entries(): seq<RtEntry>
      reads list, list.links
    {
      list.Values()
    }

    ghost predicate ListOk()
      reads this, footprint
    {
      {this, list} <= footprint && list.footprint <= footprint && list.Valid() && this !in list.footprint
    }

    /** An entry's objects are the table's, and are not those of the list itself. */
    ghost predicate Owns(e: RtEntry)
      requires ListOk()
      reads this, footprint
    {
      && {e, e.pclist} <= footprint && e.Repr() <= footprint && e.Valid()
      && e.Repr() !! {this, list} + list.footprint
    }

    ghost predicate Valid()
      reads this, footprint
    {
      && ListOk() && OneEach(Entries())
      && (forall e | e in Entries() :: Owns(e))
      && forall e, f | e in Entries() && f in Entries() && e != f :: e.Repr() !! f.Repr()
    }

    ghost function Table(): map<Addr, Entry>
      requires Valid()
      reads this, footprint
    {
      map d | d in DestsOf(Entries()) :: EntryFor(Entries(), d).Value()
    }

    ghost function Dests(): seq<Addr>
      requires Valid()
      reads this, footprint
    {
      DestsOf(Entries())
    }

    constructor ()
      ensures Valid() && fresh(footprint) && Entries() == [] && Table() == map[] && Dests() == []
    {
      list := new List<RtEntry>();
      new;
      footprint := {this, list};
    }

    /** What a walk over the table finds at position `k`. */
    lemma Walk(k: nat)
      requires Valid() && k <= |list.links|
      ensures |Dests()| == |Entries()| == |list.links| && list.first == At(list.links, 0)
      ensures k < |list.links| ==>
                var e := list.links[k].elem;
                e in Entries() && e.dst == Dests()[k] && list.links[k].next == At(list.links, k + 1)
    {
      list.Starts();
      if k < |list.links| {
        list.Next(k);
        assert Entries()[k] == list.links[k].elem;
      }
    }

    /** A reference taken from the table. */
    lemma Here(rt: RtEntry)
      requires Valid() && rt in Entries()
      ensures rt.dst in Table() && Table()[rt.dst] == rt.Value() && Owns(rt)
    {
      OneFor(Entries(), rt);
    }

    method Lookup(d: Addr) returns (rt: RtEntry?)
      requires Valid()
      ensures rt == null <==> d !in Table()
      ensures rt != null ==> rt in Entries() && rt.dst == d && d in Table() && Table()[d] == rt.Value() && Owns(rt)
    {
      list.Starts();
      var l, k := list.first, 0;
      while l != null && l.elem.dst != d
        invariant k <= |list.links| && l == At(list.links, k)
        invariant forall j | 0 <= j < k :: DestsOf(Entries())[j] != d
        decreases |list.links| - k
      {
        list.Next(k);
        l, k := l.next, k + 1;
      }
      if l == null {
        return null;
      }
      assert Entries()[k] == l.elem;
      Here(l.elem);
      rt := l.elem;
    }

    method Add(d: Addr) returns (rt: RtEntry)
      requires Valid() && d !in Table()
      modifies this, list, list.footprint
      ensures Valid() && fresh(rt) && fresh(footprint - old(footprint)) && old(footprint) <= footprint
      ensures Entries() == [rt] + old(Entries()) && rt.dst == d && Owns(rt)
      ensures Table() == old(Table())[d := FRESH_ENTRY] && Dests() == [d] + old(Dests())
    {
      rt := new RtEntry(d);
      var l := list.InsertHead(rt);
      footprint := footprint + {l} + rt.Repr();
      Added(rt);
    }

    /** Of the table's objects only those of one entry have changed. */
    twostate predicate OnlyChanged(rt: RtEntry)
      requires old(Valid()) && rt in old(Entries())
      reads this, footprint, rt, rt.Repr()
    {
      && footprint == old(footprint) + rt.Repr()
      && (forall o | o in old(footprint) && o != this && o !in old(rt.Repr()) :: unchanged(o))
      && rt.Valid() && fresh(rt.Repr() - old(rt.Repr()))
    }

    twostate lemma OthersStay(rt: RtEntry)
      requires old(Valid()) && rt in old(Entries()) && OnlyChanged(rt) && Entries() == old(Entries())
      ensures forall e | e in Entries() && e != rt :: e.Valid() && e.Value() == old(e.Value())
    {
      forall e | e in Entries() && e != rt ensures e.Valid() && e.Value() == old(e.Value()) {
        assert old(Owns(e));
      }
    }

    twostate lemma StaysValid(rt: RtEntry)
      requires old(Valid()) && rt in old(Entries()) && OnlyChanged(rt)
      ensures Valid() && Entries() == old(Entries()) && Dests() == old(Dests())
    {
    }

    /** What the table holds after one entry, and nothing else, has been changed through a reference. */
    twostate lemma Touched(rt: RtEntry)
      requires old(Valid()) && rt in old(Entries()) && OnlyChanged(rt)
      ensures Valid() && Entries() == old(Entries()) && Dests() == old(Dests())
      ensures Table() == old(Table())[rt.dst := rt.Value()]
    {
      StaysValid(rt);
      OthersStay(rt);
      assert OneEach(Entries()) && Owns(rt);
      hide Valid, OnlyChanged;
      OneFor(Entries(), rt);
    }

    /** A new entry has been linked in at the head. */
    twostate predicate JustAdded(new rt: RtEntry)
      requires old(Valid())
      reads this, footprint, list, list.footprint, list.links, rt, rt.Repr()
    {
      && rt.dst !in old(DestsOf(Entries())) && rt.Valid() && fresh(rt.Repr()) && rt.Value() == FRESH_ENTRY
      && list.Valid() && this !in list.footprint && Entries() == [rt] + old(Entries()) && list.footprint !! rt.Repr()
      && footprint == old(footprint) + list.footprint + rt.Repr() && fresh(list.footprint - old(list.footprint))
      && forall o | o in old(footprint) && o != this && o != list && o !in old(list.footprint) :: unchanged(o)
    }

    twostate lemma OldStay(new rt: RtEntry)
      requires old(Valid()) && JustAdded(rt)
      ensures forall e | e in old(Entries()) :: e.Repr() == old(e.Repr()) && e.Valid() && e.Value() == old(e.Value())
    {
      forall e | e in old(Entries()) ensures e.Repr() == old(e.Repr()) && e.Valid() && e.Value() == old(e.Value()) {
        assert old(Owns(e));
      }
    }

    twostate lemma AddedOk(new rt: RtEntry)
      requires old(Valid()) && JustAdded(rt)
      ensures Valid()
    {
      OldStay(rt);
      OneMore(old(Entries()), rt);
      forall e | e in Entries() ensures Owns(e) {
        if e != rt { assert old(Owns(e)); }
      }
    }

    twostate lemma Added(new rt: RtEntry)
      requires old(Valid()) && JustAdded(rt)
      ensures Valid() && Table() == old(Table())[rt.dst := FRESH_ENTRY] && Dests() == [rt.dst] + old(Dests())
    {
      OldStay(rt);
      AddedOk(rt);
      OneMore(old(Entries()), rt);
      assert rt.Value() == FRESH_ENTRY && Entries() == [rt] + old(Entries());
      hide Valid, JustAdded;
      OneFor(Entries(), rt);
    }
  }
}
