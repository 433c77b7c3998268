/** The AODV routing agent: the handlers as they change the linked lists and route entries in place, through
    references that may name one entry twice.  Each leaves the state, and sends the packets, that its function
    in AodvNode says, and so keeps what AodvProps shows of that function; the assertions of the handlers hold
    whenever the node and the packet are as AodvRuns and AodvNetwork show them to be in every run. */
module AodvAgent {
  import opened RoutingBase
  import opened BsdList
  import opened AodvNode
  import opened AodvProps
  import opened AodvRtable
  import opened AodvWalks
  import AodvEffects

  // ---------- the id cache while it is purged from position `k` on ----------

  predicate Purging(was: seq<BcastId>, s: seq<BcastId>, k: nat, now: real) {
    k <= |s| && IdPurge(was, now) == s[..k] + IdPurge(s[k..], now)
  }

  lemma IdsStart(was: seq<BcastId>, now: real)
    ensures Purging(was, was, 0, now)
  {
    assert was[0..] == was;
  }

  lemma IdsGoOn(was: seq<BcastId>, s: seq<BcastId>, k: nat, now: real)
    requires Purging(was, s, k, now) && k < |s|
    ensures if s[k].expire <= now then Purging(was, s[..k] + s[k + 1..], k, now) else Purging(was, s, k + 1, now)
  {
    SplitAt(s, k);
    var cut := s[..k] + s[k + 1..];
    assert cut[..k] == s[..k] && cut[k..] == s[k + 1..];
    assert s[..k] + ([s[k]] + IdPurge(s[k + 1..], now)) == s[..k + 1] + IdPurge(s[k + 1..], now);
  }

  lemma IdsEnd(was: seq<BcastId>, s: seq<BcastId>, k: nat, now: real)
    requires Purging(was, s, k, now) && k == |s|
    ensures s == IdPurge(was, now)
  {
    assert s[..k] == s && s[k..] == [];
  }

  // ---------- what a search does ----------

  lemma Resting(n: Node, d: Addr, env: Env)
    requires d in n.table && (n.table[d].up || n.table[d].reqTimeout > env.now)
    ensures SendRequest(n, d, env) == Out(n, [])
  {
  }

  lemma RequestSteps(n: Node, d: Addr, env: Env)
    requires d in n.table
    ensures NodeOk(n) ==> StepOk(n, Nothing, SendRequest(n, d, env)) && AodvEffects.SearchEffect(n, d, env, SendRequest(n, d, env))
  {
    hide StepOk, AodvEffects.SearchEffect, SendRequest;
    if NodeOk(n) {
      SendRequestStep(n, d, env);
      AodvEffects.SearchTells(n, d, env);
    }
  }

  lemma Tired(n: Node, d: Addr, env: Env)
    requires d in n.table && !(n.table[d].up || n.table[d].reqTimeout > env.now) && n.table[d].reqCnt > RREQ_RETRIES
    ensures SendRequest(n, d, env)
         == Out(With(n, d, n.table[d].(reqTimeout := env.now + MAX_RREQ_TIMEOUT, reqCnt := 0)), [])
  {
  }

  lemma Searching(n: Node, d: Addr, env: Env, n': Node)
    requires d in n.table && !(n.table[d].up || n.table[d].reqTimeout > env.now) && n.table[d].reqCnt <= RREQ_RETRIES
    requires n' == With(n, d, NextSearch(n.table[d], d, env))
    ensures var e := NextSearch(n.table[d], d, env);
            SendRequest(n, d, env) == Out(n'.(bid := n'.bid + 1, seqno := n'.seqno + 2),
                                          [Rreq(n'.index, e.reqLastTtl, 1, n'.bid, d, e.seqno, n'.index, n'.seqno + 2)])
  {
  }

  // ---------- what receiving a request does ----------

  lemma Ignored(n: Node, m: Msg, env: Env)
    requires m.Rreq? && (m.src == n.index || IdLookup(n.bcache, m.src, m.bcastId))
    ensures RecvRequest(n, m, env) == Out(n, [])
  {
  }

  lemma Taken(n: Node, m: Msg, env: Env)
    requires m.Rreq? && m.src != n.index && !IdLookup(n.bcache, m.src, m.bcastId)
    ensures var n' := RtAdd(n.(bcache := IdInsert(n.bcache, m.src, m.bcastId, env.now)), m.src);
            && m.src in n'.table && var n'' := With(n', m.src, ReverseEntry(n'.table[m.src], m, env));
            m.src in n''.table && RecvRequest(n, m, env) == AnswerRequest(n'', m, env)
  {
  }

  // ---------- what receiving a reply does ----------

  lemma Suppressed(n: Node, m: Msg, env: Env)
    requires m.Rrep? && !Fresher(m.dstSeqno, m.hopCount, RtAdd(n, m.dst).table[m.dst])
    ensures RecvReply(n, m, env) == Out(RtAdd(n, m.dst), [])
  {
  }

  lemma Used(n: Node, m: Msg, env: Env)
    requires NodeOk(n) && m.Rrep? && MsgOk(m) && Fresher(m.dstSeqno, m.hopCount, RtAdd(n, m.dst).table[m.dst])
    ensures var n1 := RtAdd(n, m.dst);
            var n2 := With(n1, m.dst, ForwardEntry(n1.table[m.dst], m, env));
            && m.dst in n2.table
            && (m.ipDst == n2.index || m.ipDst !in n2.table || n2.table[m.ipDst].hops.Inf? ==> RecvReply(n, m, env) == Out(n2, []))
            && (m.ipDst != n2.index && m.ipDst in n2.table && n2.table[m.ipDst].hops.Fin? ==>
                  n2.table[m.ipDst].up && RecvReply(n, m, env) == PassReply(n2, m, env))
  {
    LearnForward(n, m, env);
  }

  lemma Passed(n: Node, m: Msg, env: Env)
    requires m.Rrep? && m.dst in n.table && m.ipDst in n.table
    ensures var rt0 := n.table[m.ipDst];
            var alive := m.ttl - 1 != 0;
            var n' := if alive then With(n, m.ipDst, rt0.(expire := env.now + ACTIVE_ROUTE_TIMEOUT)) else n;
            && m.dst in n'.table
            && var rt := n'.table[m.dst];
            PassReply(n, m, env) == Out(
              With(n', m.dst, rt.(precursors := PcInsert(rt.precursors, rt0.nexthop))),
              if alive then [Rrep(n.index, rt0.nexthop, m.ipDst, m.ttl - 1, m.hopCount + 1, m.dst, m.dstSeqno, m.lifetime)]
              else [])
  {
  }

  lemma Ready(n: Node)
    requires NodeOk(n)
    ensures Listed(n, n.dests) && n.seqno % 2 == 0
  {
  }

  lemma AddKeeps(n: Node, d: Addr)
    ensures var n' := RtAdd(n, d); d in n'.table && n'.index == n.index && n'.seqno == n.seqno
  {
  }

  lemma Follows(n: Node, n': Node)
    requires StepOk(n, Nothing, Out(n', []))
    ensures NodeOk(n')
  {
  }

  class Agent {
    const index: Addr
    const rtable: RtTable
    const bihead: List<BcastId>
    const nbhead: List<Neighbor>
    var seqno: nat
    var bid: nat

    ghost function Repr(): set<object>
      reads rtable, bihead, nbhead
    {
      {this, bihead, nbhead} + rtable.footprint + bihead.footprint + nbhead.footprint
    }

    /** The table and the two lists have no object in common. */
    ghost predicate Valid()
      reads this, rtable, Repr()
    {
      && rtable.Valid() && bihead.Valid() && nbhead.Valid()
      && rtable.footprint !! {this, bihead, nbhead} + bihead.footprint + nbhead.footprint
      && {this, bihead, nbhead} !! bihead.footprint + nbhead.footprint
      && bihead.footprint !! nbhead.footprint
    }

    ghost function State(): Node
      requires Valid()
      reads this, rtable, Repr()
    {
      Node(index, seqno, bid, rtable.Table(), rtable.Dests(), bihead.Values(), nbhead.Values())
    }

    constructor (id: Addr)
      ensures Valid() && fresh(Repr()) && State() == Boot(id)
    {
      index := id;
      seqno, bid := 2, 1;
      rtable := new RtTable();
      bihead := new List<BcastId>();
      nbhead := new List<Neighbor>();
    }

    // ---------- references into the table ----------

    /** What a walk over the table goes along. */
    ghost function Links(): (seq<Link<RtEntry>>, seq<RtEntry>)
      requires Valid()
      reads this, rtable, Repr()
    {
      (rtable.list.links, rtable.Entries())
    }

    ghost predicate Has(rt: RtEntry)
      requires Valid()
      reads this, rtable, Repr()
    {
      rt in Links().1
    }

    /** Of the agent's objects only those of one entry have changed. */
    twostate predicate OnlyChanged(rt: RtEntry)
      requires old(Valid()) && old(Has(rt))
      reads this, rtable, Repr(), rt, rt.Repr()
    {
      rtable.OnlyChanged(rt) && unchanged(this, bihead, nbhead) && unchanged(bihead.footprint, nbhead.footprint)
    }

    twostate lemma Changed(rt: RtEntry)
      requires old(Valid()) && old(Has(rt)) && OnlyChanged(rt)
      ensures Valid() && Links() == old(Links()) && Has(rt) && (forall o | o in Repr() :: o in old(Repr()) || fresh(o))
      ensures State() == With(old(State()), rt.dst, rt.Value())
    {
      rtable.Touched(rt);
    }

    /** Of the agent's objects only those of one entry have changed, and it has taken no new ones. */
    twostate lemma Rewritten(rt: RtEntry)
      requires old(Valid()) && old(Has(rt)) && unchanged(this, rtable, bihead, nbhead)
      requires unchanged(bihead.footprint, nbhead.footprint) && rt.Valid() && rt.Repr() == old(rt.Repr())
      requires forall o | o in old(rtable.footprint) && o !in old(rt.Repr()) :: unchanged(o)
      ensures Valid() && Links() == old(Links()) && Repr() == old(Repr()) && Has(rt) && rt.Valid()
      ensures State() == With(old(State()), rt.dst, rt.Value())
    {
      assert old(rtable.Owns(rt));
      Changed(rt);
    }

    /** Only the agent's own numbers have changed. */
    twostate lemma Renumbered()
      requires old(Valid()) && unchanged(bihead, nbhead, rtable)
      requires unchanged(rtable.footprint, bihead.footprint, nbhead.footprint)
      ensures Valid() && Links() == old(Links()) && Repr() == old(Repr())
      ensures State() == old(State()).(seqno := seqno, bid := bid)
    {
    }

    lemma Parts()
      requires Valid()
      ensures rtable.Valid() && bihead.Valid() && nbhead.Valid()
      ensures {rtable, rtable.list} <= rtable.footprint && rtable.list.footprint <= rtable.footprint
      ensures rtable.footprint !! {this, bihead, nbhead} && rtable.footprint !! bihead.footprint
      ensures rtable.footprint !! nbhead.footprint && bihead.footprint !! nbhead.footprint
      ensures bihead.footprint !! {this, bihead, nbhead} && nbhead.footprint !! {this, bihead, nbhead}
      ensures {this, bihead, nbhead} <= Repr() && rtable.footprint <= Repr()
      ensures bihead.footprint <= Repr() && nbhead.footprint <= Repr()
    {
    }

    lemma Fields()
      requires Valid()
      ensures rtable.Valid() && State().table == rtable.Table() && State().dests == rtable.Dests()
      ensures State().index == index && State().seqno == seqno && State().bid == bid
      ensures State().bcache == bihead.Values() && State().nbrs == nbhead.Values()
    {
    }

    lemma DestsFollow()
      requires Valid()
      ensures State().dests == DestsOf(Links().1)
    {
    }

    /** Nothing has changed. */
    twostate lemma Unmoved()
      requires old(Valid()) && unchanged(this, rtable, bihead, nbhead)
      requires unchanged(rtable.footprint, bihead.footprint, nbhead.footprint)
      ensures Valid() && State() == old(State()) && Links() == old(Links()) && Repr() == old(Repr())
    {
    }

    /** Only the broadcast id cache has changed. */
    twostate lemma IdsChanged()
      requires old(Valid()) && bihead.Valid() && fresh(bihead.footprint - old(bihead.footprint))
      requires unchanged(this, rtable, nbhead) && unchanged(rtable.footprint, nbhead.footprint)
      ensures Valid() && (forall o | o in Repr() :: o in old(Repr()) || fresh(o)) && State() == old(State()).(bcache := bihead.Values())
    {
    }

    /** Only the table has changed. */
    twostate lemma TableChanged()
      requires old(Valid()) && rtable.Valid() && fresh(rtable.footprint - old(rtable.footprint))
      requires unchanged(this, bihead, nbhead) && unchanged(bihead.footprint, nbhead.footprint)
      ensures Valid() && (forall o | o in Repr() :: o in old(Repr()) || fresh(o))
      ensures State() == old(State()).(table := rtable.Table(), dests := rtable.Dests())
    {
    }

    lemma Reached(rt: RtEntry)
      requires Valid() && Has(rt)
      ensures rt.Valid() && rt in rt.Repr() && rt in rtable.footprint && rt.Repr() <= rtable.footprint && rtable !in rt.Repr()
      ensures rt.dst in State().table && State().table[rt.dst] == rt.Value()
    {
      rtable.Here(rt);
    }

    method Find(d: Addr) returns (rt: RtEntry?)
      requires Valid()
      ensures Valid() && Repr() == old(Repr()) && State() == old(State()) && Links() == old(Links())
      ensures rt == null <==> d !in State().table
      ensures rt != null ==> Has(rt) && rt.dst == d
    {
      hide Valid, State;
      Parts();
      rt := rtable.Lookup(d);
      Unmoved();
      Fields();
    }

    method AddRoute(d: Addr) returns (rt: RtEntry)
      requires Valid() && d !in State().table
      modifies rtable.footprint
      ensures Valid() && (forall o | o in Repr() :: o in old(Repr()) || fresh(o)) && Has(rt) && rt.dst == d
      ensures State() == RtAdd(old(State()), d)
    {
      hide RtTable.Valid, List.Valid, Valid, State;
      Parts();
      Fields();
      rt := rtable.Add(d);
      TableChanged();
    }

    method FindOrAdd(d: Addr) returns (rt: RtEntry)
      requires Valid()
      modifies rtable.footprint
      ensures Valid() && (forall o | o in Repr() :: o in old(Repr()) || fresh(o)) && Has(rt) && rt.dst == d
      ensures State() == RtAdd(old(State()), d)
    {
      hide Valid, State, Has;
      var found := Find(d);
      if found != null {
        return found;
      }
      rt := AddRoute(d);
    }

    // ---------- broadcast id cache ----------

    method LookupId(src: Addr, id: nat) returns (found: bool)
      requires Valid()
      ensures Valid() && State() == old(State()) && Links() == old(Links()) && Repr() == old(Repr())
      ensures found <==> IdLookup(State().bcache, src, id)
    {
      hide Valid, State, Repr, List.Valid;
      Parts();
      Fields();
      bihead.Starts();
      var b, k := bihead.first, 0;
      while b != null
        invariant k <= |bihead.links| && b == At(bihead.links, k)
        invariant forall j | 0 <= j < k :: bihead.Values()[j].src != src || bihead.Values()[j].id != id
        decreases |bihead.links| - k
      {
        if b.elem.src == src && b.elem.id == id {
          assert bihead.Values()[k] == b.elem;
          Unmoved();
          Fields();
          return true;
        }
        bihead.Next(k);
        b, k := b.next, k + 1;
      }
      Unmoved();
      Fields();
      found := false;
    }

    method InsertId(src: Addr, id: nat, now: real)
      requires Valid()
      modifies bihead, bihead.footprint
      ensures Valid() && (forall o | o in Repr() :: o in old(Repr()) || fresh(o))
      ensures State() == old(State()).(bcache := IdInsert(old(State()).bcache, src, id, now))
    {
      hide Valid, State, Repr, List.Valid;
      Parts();
      Fields();
      var b := bihead.InsertHead(BcastId(src, id, now + BCAST_ID_SAVE));
      IdsChanged();
    }

    method PurgeIds(now: real)
      requires Valid()
      modifies bihead, bihead.footprint
      ensures Valid() && (forall o | o in Repr() :: o in old(Repr()) || fresh(o))
      ensures State() == old(State()).(bcache := IdPurge(old(State()).bcache, now))
    {
      hide Valid, State, Repr, List.Valid, List.Values, IdPurge;
      Parts();
      Fields();
      ghost var was := bihead.Values();
      bihead.Starts();
      var b, k := bihead.first, 0;
      IdsStart(was, now);
      while b != null
        invariant bihead.Valid() && bihead.footprint == old(bihead.footprint)
        invariant k <= |bihead.links| == |bihead.Values()| && b == At(bihead.links, k)
        invariant Purging(was, bihead.Values(), k, now)
        decreases |bihead.links| - k
      {
        bihead.Starts();
        bihead.Next(k);
        IdsGoOn(was, bihead.Values(), k, now);
        var bn := b.next;
        if b.elem.expire <= now {
          bihead.Remove(b, k);
          bihead.Starts();
        } else {
          k := k + 1;
        }
        b := bn;
      }
      IdsEnd(was, bihead.Values(), k, now);
      IdsChanged();
    }

    // ---------- originating ----------

    /** The request itself, under the next broadcast id and the next even number of this node. */
    method Broadcast(d: Addr, asked: nat, ttl: int) returns (sent: seq<Msg>)
      requires Valid() && seqno % 2 == 0
      modifies this
      ensures Valid() && Repr() == old(Repr()) && Links() == old(Links())
      ensures var n := old(State());
              && State() == n.(bid := n.bid + 1, seqno := n.seqno + 2)
              && sent == [Rreq(n.index, ttl, 1, n.bid, d, asked, n.index, n.seqno + 2)]
    {
      hide Valid, State;
      Parts();
      Fields();
      var id := bid;
      bid := bid + 1;
      seqno := seqno + 2;
      assert seqno % 2 == 0;
      Renumbered();
      sent := [Rreq(index, ttl, 1, id, d, asked, index, seqno)];
    }

    method Request(d: Addr, env: Env) returns (sent: seq<Msg>)
      requires Valid() && d in State().table && seqno % 2 == 0
      modifies Repr()
      ensures Valid() && (forall o | o in Repr() :: o in old(Repr()) || fresh(o)) && Links() == old(Links())
      ensures Out(State(), sent) == SendRequest(old(State()), d, env)
      ensures NodeOk(old(State())) ==> StepOk(old(State()), Nothing, Out(State(), sent))
      ensures NodeOk(old(State())) ==> AodvEffects.SearchEffect(old(State()), d, env, Out(State(), sent))
    {
      hide *;
      RequestSteps(State(), d, env);
      Parts();
      Fields();
      var rt := Find(d);
      assert rt != null;
      Reached(rt);
      rt.Shown();
      ghost var n := State();
      if rt.up || rt.reqTimeout > env.now {
        Resting(n, d, env);
        return [];
      }
      if rt.reqCnt > RREQ_RETRIES {
        label Weary:
        rt.Rest(env.now);
        Rewritten@Weary(rt);
        Tired(n, d, env);
        return [];
      }
      label Search:
      var ttl := rt.NextRing(env);
      Rewritten@Search(rt);
      rt.Shown();
      Searching(n, d, env, State());
      sent := Broadcast(d, rt.seqno, ttl);
    }

    // ---------- receiving ----------

    method ReceiveRequest(m: Msg, env: Env) returns (sent: seq<Msg>)
      requires Valid() && m.Rreq? && NodeOk(State()) && MsgOk(m)
      modifies Repr()
      ensures Valid() && (forall o | o in Repr() :: o in old(Repr()) || fresh(o))
      ensures Out(State(), sent) == RecvRequest(old(State()), m, env)
      ensures StepOk(old(State()), Packet(m), Out(State(), sent))
      ensures AodvEffects.RequestEffect(old(State()), m, env, Out(State(), sent))
    {
      hide *;
      RecvRequestStep(State(), m, env);
      AodvEffects.RequestTells(State(), m, env);
      Parts();
      Fields();
      ghost var n := State();
      if m.src == index {
        Ignored(n, m, env);
        return [];
      }
      var heard := LookupId(m.src, m.bcastId);
      if heard {
        Ignored(n, m, env);
        return [];
      }
      Taken(n, m, env);
      InsertId(m.src, m.bcastId, env.now);
      Parts();
      var rt0 := FindOrAdd(m.src);
      Parts();
      Reached(rt0);
      label Reverse:
      rt0.TakeReverse(m, env);
      Rewritten@Reverse(rt0);
      sent := Answer(rt0, m, env);
    }

    /** The rest of recvRequest; `rt0` is the reverse route, and may be the entry found for the destination. */
    method Answer(rt0: RtEntry, m: Msg, env: Env) returns (sent: seq<Msg>)
      requires Valid() && m.Rreq? && Has(rt0) && rt0.dst == m.src && m.src in State().table
      modifies Repr()
      ensures Valid() && (forall o | o in Repr() :: o in old(Repr()) || fresh(o))
      ensures Out(State(), sent) == AnswerRequest(old(State()), m, env)
    {
      hide Valid, State, Repr, RtEntry.Valid, RtEntry.Value, RtEntry.Repr, RtTable.Valid, List.Valid;
      hide With, AodvNode.PcInsert, NextOwnSeqno, Whole;
      Parts();
      Fields();
      Reached(rt0);
      rt0.Shown();
      var rt := Find(m.dst);
      Fields();
      Parts();
      if m.dst == index {
        sent := AnswerOwn(rt0.nexthop, m);
        return;
      }
      if rt != null {
        Reached(rt);
        rt.Shown();
      }
      if rt != null && rt.hops.Fin? && rt.seqno >= m.dstSeqno {
        sent := [Rrep(index, rt0.nexthop, m.src, NETWORK_DIAMETER, rt.hops.n + 1, m.dst, rt.seqno,
                      Whole(rt.expire - env.now))];
        Meet(rt, rt0);
        return;
      }
      var asked := m.dstSeqno;
      if rt != null && rt.seqno > asked {
        asked := rt.seqno;
      }
      sent := [];
      if m.ttl - 1 != 0 {
        sent := [Rreq(index, m.ttl - 1, m.hopCount + 1, m.bcastId, m.dst, asked, m.src, m.srcSeqno)];
      }
    }

    /** The destination answers under a number past the one asked for. */
    method AnswerOwn(back: Addr, m: Msg) returns (sent: seq<Msg>)
      requires Valid() && m.Rreq?
      modifies this
      ensures Valid() && Repr() == old(Repr()) && Links() == old(Links())
      ensures var own := NextOwnSeqno(old(State()).seqno, m.dstSeqno);
              && State() == old(State()).(seqno := own)
              && sent == [Rrep(State().index, back, m.src, NETWORK_DIAMETER, 1, State().index, own, MY_ROUTE_TIMEOUT)]
    {
      hide Valid, State, Repr, RtTable.Valid, List.Valid;
      Parts();
      Fields();
      seqno := (if seqno < m.dstSeqno then m.dstSeqno else seqno) + 1;
      if seqno % 2 == 1 {
        seqno := seqno + 1;
      }
      Renumbered();
      Fields();
      sent := [Rrep(index, back, m.src, NETWORK_DIAMETER, 1, index, seqno, MY_ROUTE_TIMEOUT)];
    }

    /** Each of the two routes gets the other's next hop as a precursor; they may be one and the same. */
    method Meet(rt: RtEntry, rt0: RtEntry)
      requires Valid() && Has(rt) && Has(rt0) && rt.dst in State().table && rt0.dst in State().table
      modifies rtable.footprint
      ensures Valid() && Links() == old(Links()) && (forall o | o in Repr() :: o in old(Repr()) || fresh(o))
      ensures var n := old(State());
              var e := n.table[rt.dst];
              var n' := With(n, rt.dst, e.(precursors := PcInsert(e.precursors, n.table[rt0.dst].nexthop)));
              var e0 := n'.table[rt0.dst];
              State() == With(n', rt0.dst, e0.(precursors := PcInsert(e0.precursors, n'.table[rt.dst].nexthop)))
    {
      hide Valid, State, Repr, RtEntry.Valid, RtEntry.Value, RtEntry.Repr, RtTable.Valid, List.Valid, AodvNode.PcInsert;
      Reached(rt0);
      rt0.Shown();
      AddPrecursor(rt, rt0.nexthop);
      Parts();
      Reached(rt);
      rt.Shown();
      AddPrecursor(rt0, rt.nexthop);
    }

    method AddPrecursor(rt: RtEntry, id: Addr)
      requires Valid() && Has(rt) && rt.dst in State().table
      modifies rtable.footprint
      ensures Valid() && Links() == old(Links()) && (forall o | o in Repr() :: o in old(Repr()) || fresh(o))
      ensures forall o | o in rtable.footprint :: o in old(rtable.footprint) || fresh(o)
      ensures var e := old(State()).table[rt.dst];
              State() == With(old(State()), rt.dst, e.(precursors := PcInsert(e.precursors, id)))
    {
      hide Valid, State, Repr, RtEntry.Valid, RtEntry.Value, RtTable.Valid, List.Valid;
      Parts();
      Reached(rt);
      rt.PcInsert(id);
      rtable.footprint := rtable.footprint + rt.Repr();
      Changed(rt);
    }

    method ReceiveReply(m: Msg, env: Env) returns (sent: seq<Msg>)
      requires Valid() && m.Rrep? && NodeOk(State()) && MsgOk(m)
      modifies Repr()
      ensures Valid() && (forall o | o in Repr() :: o in old(Repr()) || fresh(o))
      ensures Out(State(), sent) == RecvReply(old(State()), m, env)
      ensures StepOk(old(State()), Packet(m), Out(State(), sent))
      ensures AodvEffects.ReplyEffect(old(State()), m, env, Out(State(), sent))
    {
      hide AodvEffects.ReplyEffect;
      hide Valid, State, Repr, RtEntry.Valid, RtEntry.Value, RtEntry.Repr, RtTable.Valid, List.Valid, StepOk;
      hide RecvReply, PassReply, ForwardEntry, NodeOk, MsgOk, With, RtAdd;
      RecvReplyStep(State(), m, env);
      AodvEffects.ReplyTells(State(), m, env);
      ghost var n := State();
      Parts();
      var rt := FindOrAdd(m.dst);
      Parts();
      Fields();
      Reached(rt);
      rt.Shown();
      if !(rt.seqno < m.dstSeqno || (rt.seqno == m.dstSeqno && Fin(m.hopCount).Below(rt.hops))) {
        Suppressed(n, m, env);
        return [];
      }
      Used(n, m, env);
      label Forward:
      rt.TakeForward(m, env);
      Rewritten@Forward(rt);
      Fields();
      if m.ipDst == index {
        return [];
      }
      var rt0 := Find(m.ipDst);
      if rt0 == null {
        return [];
      }
      Reached(rt0);
      rt0.Shown();
      if rt0.hops.Inf? {
        return [];
      }
      assert State().table[m.ipDst].up;
      sent := Relay(rt, rt0, m, env);
    }

    method Relay(rt: RtEntry, rt0: RtEntry, m: Msg, env: Env) returns (sent: seq<Msg>)
      requires Valid() && m.Rrep? && Has(rt) && Has(rt0) && rt.dst == m.dst && rt0.dst == m.ipDst
      requires m.dst in State().table && m.ipDst in State().table && State().table[m.ipDst].up
      modifies rtable.footprint
      ensures Valid() && (forall o | o in Repr() :: o in old(Repr()) || fresh(o))
      ensures Out(State(), sent) == PassReply(old(State()), m, env)
    {
      hide Valid, State, Repr, RtEntry.Valid, RtEntry.Value, RtEntry.Repr, RtTable.Valid, List.Valid, AodvNode.PcInsert;
      hide PassReply, With;
      Passed(State(), m, env);
      Parts();
      Fields();
      Reached(rt0);
      rt0.Shown();
      var back := rt0.nexthop;
      sent := [];
      if m.ttl - 1 != 0 {
        label Onward:
        rt0.Forward(env.now);
        Rewritten@Onward(rt0);
        sent := [Rrep(index, back, m.ipDst, m.ttl - 1, m.hopCount + 1, m.dst, m.dstSeqno, m.lifetime)];
      }
      Parts();
      AddPrecursor(rt, rt0.nexthop);
    }

    // ---------- losses ----------

    /** Where a walk over the table is at position `k`. */
    lemma Step(k: nat)
      requires Valid() && k <= |Links().0|
      ensures |State().dests| == |Links().0| && rtable.list.first == At(Links().0, 0)
      ensures k < |Links().0| ==> var rt := Links().0[k].elem;
                                  && Has(rt) && rt.dst == State().dests[k] && rt.dst in State().table
                                  && Links().0[k].next == At(Links().0, k + 1)
    {
      rtable.Walk(k);
      if k < |Links().0| { rtable.Here(Links().0[k].elem); }
    }

    /** One destination of a route error from `sender`. */
    method LoseRoute(sender: Addr, u: Unreachable) returns (lost: seq<Unreachable>)
      requires Valid() && NodeOk(State())
      modifies rtable.footprint
      ensures Valid() && Repr() == old(Repr()) && rtable.footprint == old(rtable.footprint) && Links() == old(Links())
      ensures Losses(State(), lost) == LoseOne(old(State()), sender, u)
    {
      hide Valid, State, Repr, RtEntry.Valid, RtEntry.Value, RtEntry.Repr, RtTable.Valid, List.Valid;
      lost := [];
      Parts();
      var rt := Find(u.dst);
      if rt == null {
        return;
      }
      Parts();
      Reached(rt);
      rt.Shown();
      if rt.hops.Fin? && rt.nexthop == sender && rt.seqno <= u.seqno {
        assert EntryOk(State().table[u.dst]);
        label Loss:
        var tell := rt.Lose(u.seqno);
        Rewritten@Loss(rt);
        rt.Shown();
        if tell {
          lost := [Unreachable(rt.dst, rt.seqno)];
        }
      }
    }

    method ReceiveError(m: Msg) returns (sent: seq<Msg>)
      requires Valid() && m.Rerr? && NodeOk(State()) && MsgOk(m)
      modifies Repr()
      ensures Valid() && Repr() == old(Repr())
      ensures Out(State(), sent) == RecvError(old(State()), m)
      ensures StepOk(old(State()), Nothing, Out(State(), sent))
      ensures AodvEffects.ErrorEffect(old(State()), m.sender, m.unreachable, Out(State(), sent))
    {
      hide AodvEffects.ErrorEffect;
      hide Valid, State, Repr, LoseOne, NodeOk, LoseAll, LostOk, LoseRest, StepOk;
      RecvErrorStep(State(), m);
      AodvEffects.ErrorTells(State(), m);
      ghost var n := State();
      var us, lost := m.unreachable, [];
      assert LostOk(us);
      for k := 0 to |us|
        invariant Valid() && Repr() == old(Repr()) && Links() == old(Links()) && NodeOk(State())
        invariant LoseRest(n, m.sender, us, 0, []) == LoseRest(State(), m.sender, us, k, lost)
      {
        LoseNext(State(), m.sender, us, k, lost);
        Parts();
        var more := LoseRoute(m.sender, us[k]);
        lost := lost + more;
      }
      LoseEnds(n, m.sender, us, lost);
      LoseEnds(State(), m.sender, us, lost);
      Fields();
      sent := if lost == [] then [] else [Rerr(index, lost)];
    }

    /** One table entry when the link to `id` has failed. */
    method FailRoute(id: Addr, rt: RtEntry) returns (lost: seq<Unreachable>)
      requires Valid() && NodeOk(State()) && Has(rt) && rt.dst in State().table
      modifies rtable.footprint
      ensures Valid() && Repr() == old(Repr()) && rtable.footprint == old(rtable.footprint) && Links() == old(Links())
      ensures Losses(State(), lost) == FailOne(old(State()), id, rt.dst) && State().dests == old(State()).dests
    {
      hide Valid, State, Repr, RtEntry.Valid, RtEntry.Value, RtEntry.Repr, RtTable.Valid, List.Valid, PcWithout;
      Parts();
      Reached(rt);
      rt.Shown();
      assert EntryOk(State().table[rt.dst]);
      var gone := rt.Fail(id);
      Rewritten(rt);
      rt.Shown();
      lost := if gone then [Unreachable(rt.dst, rt.seqno)] else [];
    }

    method LinkFailure(id: Addr) returns (sent: seq<Msg>)
      requires Valid() && NodeOk(State())
      modifies Repr()
      ensures Valid() && Repr() == old(Repr())
      ensures Out(State(), sent) == HandleLinkFailure(old(State()), id)
      ensures StepOk(old(State()), Nothing, Out(State(), sent))
      ensures AodvEffects.FailureEffect(old(State()), id, Out(State(), sent))
    {
      hide AodvEffects.FailureEffect;
      hide Valid, State, Repr, NodeOk, FailOne, FailAll, FailRest, Has, StepOk;
      HandleLinkFailureStep(State(), id);
      AodvEffects.FailureTells(State(), id);
      ghost var n, ds := State(), State().dests;
      Ready(n);
      Step(0);
      var l, k, lost := rtable.list.first, 0, [];
      while l != null
        invariant Valid() && Repr() == old(Repr()) && Links() == old(Links()) && NodeOk(State())
        invariant State().dests == ds && Listed(State(), ds) && |ds| == |Links().0|
        invariant k <= |ds| && l == At(Links().0, k)
        invariant FailRest(n, id, ds, 0, []) == FailRest(State(), id, ds, k, lost)
        decreases |ds| - k
      {
        Parts();
        Step(k);
        FailNext(State(), id, ds, k, lost);
        var ln := l.next;
        var more := FailRoute(id, l.elem);
        l, k, lost := ln, k + 1, lost + more;
      }
      FailEnds(n, id, ds, lost);
      FailEnds(State(), id, ds, lost);
      Fields();
      sent := if lost == [] then [] else [Rerr(index, lost)];
    }

    // ---------- neighbours ----------

    /** Only the neighbour list, and perhaps the own number, has changed. */
    twostate lemma NeighborsChanged()
      requires old(Valid()) && nbhead.Valid() && fresh(nbhead.footprint - old(nbhead.footprint))
      requires unchanged(rtable, bihead) && unchanged(rtable.footprint, bihead.footprint) && bid == old(bid)
      ensures Valid() && (forall o | o in Repr() :: o in old(Repr()) || fresh(o))
      ensures State() == old(State()).(nbrs := nbhead.Values(), seqno := seqno)
    {
    }

    method LookupNeighbor(id: Addr) returns (nb: Link?<Neighbor>, ghost k: nat)
      requires Valid()
      ensures Valid() && State() == old(State()) && Links() == old(Links()) && Repr() == old(Repr())
      ensures k == NbFind(State().nbrs, id) && nb == At(nbhead.links, k) && |nbhead.links| == |State().nbrs|
    {
      hide Valid, State, Repr, List.Valid;
      Parts();
      nbhead.Starts();
      nb, k := nbhead.first, 0;
      while nb != null && nb.elem.addr != id
        invariant k <= |nbhead.links| && nb == At(nbhead.links, k)
        invariant forall j | 0 <= j < k :: nbhead.Values()[j].addr != id
        decreases |nbhead.links| - k
      {
        nbhead.Next(k);
        nb, k := nb.next, k + 1;
      }
      NbFound(nbhead.Values(), id, k);
      Unmoved();
      Fields();
    }

    method ReceiveHello(m: Msg, env: Env)
      requires Valid() && m.Hello? && NodeOk(State())
      modifies this, nbhead, nbhead.footprint
      ensures Valid() && (forall o | o in Repr() :: o in old(Repr()) || fresh(o))
      ensures State() == RecvHello(old(State()), m, env).node
      ensures StepOk(old(State()), Nothing, Out(State(), []))
      ensures AodvEffects.HelloEffect(old(State()), m, env, Out(State(), []))
      ensures State().seqno != old(State()).seqno <==> !NbKnown(old(State()).nbrs, m.sender)
    {
      hide AodvEffects.HelloEffect;
      hide Valid, State, Repr, NbKnown, StepOk, NodeOk;
      RecvHelloStep(State(), m, env);
      AodvEffects.HelloTells(State(), m, env);
      Ready(State());
      Fields();
      Greet(m.sender, env.now);
    }

    /** Looks the neighbour up and extends its life, or adds it, which moves the own number. */
    method Greet(id: Addr, now: real)
      requires Valid() && seqno % 2 == 0
      modifies this, nbhead, nbhead.footprint
      ensures Valid() && (forall o | o in Repr() :: o in old(Repr()) || fresh(o))
      ensures var n := old(State());
              var nb, k := Neighbor(id, now + NEIGHBOR_LIFE), NbFind(n.nbrs, id);
              State() == if k < |n.nbrs| then n.(nbrs := n.nbrs[k := nb]) else n.(nbrs := [nb] + n.nbrs, seqno := n.seqno + 2)
    {
      hide Valid, State, Repr, List.Valid, NbFind;
      var nb, k := LookupNeighbor(id);
      Parts();
      Fields();
      nbhead.Starts();
      label Heard:
      if nb == null {
        var l := nbhead.InsertHead(Neighbor(id, now + NEIGHBOR_LIFE));
        seqno := seqno + 2;
        assert seqno % 2 == 0;
      } else {
        nbhead.Set(nb, k, nb.elem.(expire := now + NEIGHBOR_LIFE));
      }
      NeighborsChanged@Heard();
    }

    method DeleteNeighbor(id: Addr) returns (sent: seq<Msg>)
      requires Valid() && NodeOk(State())
      modifies Repr()
      ensures Valid() && (forall o | o in Repr() :: o in old(Repr()) || fresh(o))
      ensures Out(State(), sent) == NbDelete(old(State()), id)
      ensures StepOk(old(State()), Nothing, Out(State(), sent))
      ensures AodvEffects.NeighborLost(old(State()), id, Out(State(), sent))
    {
      hide AodvEffects.NeighborLost;
      hide Valid, State, Repr, NodeOk, List.Valid, HandleLinkFailure, StepOk;
      NbDeleteStep(State(), id);
      AodvEffects.NeighborTells(State(), id);
      Parts();
      Fields();
      Ready(State());
      ghost var n := State();
      var nb, k := LookupNeighbor(id);
      Parts();
      Fields();
      nbhead.Starts();
      label Gone:
      seqno := seqno + 2;
      assert seqno % 2 == 0;
      if nb != null {
        nbhead.Remove(nb, k);
      }
      NeighborsChanged@Gone();
      Parts();
      SameTable(n, State());
      Follows(n, State());
      sent := LinkFailure(id);
    }

    // ---------- timers and data ----------

    method PurgeRoute(rt: RtEntry, env: Env) returns (sent: seq<Msg>)
      requires Valid() && NodeOk(State()) && Has(rt) && rt.dst in State().table
      modifies Repr()
      ensures Valid() && (forall o | o in Repr() :: o in old(Repr()) || fresh(o)) && Links() == old(Links())
      ensures Out(State(), sent) == PurgeOne(old(State()), rt.dst, env) && State().dests == old(State()).dests
    {
      hide Valid, State, Repr, RtEntry.Valid, RtEntry.Value, RtEntry.Repr, RtTable.Valid, List.Valid;
      hide SendRequest, NodeOk, With, RtDown, Drained, EntryOk;
      sent := [];
      DestsFollow();
      Parts();
      Fields();
      Reached(rt);
      rt.Shown();
      EntryFits(State(), rt.dst);
      if rt.up && rt.expire < env.now {
        label Late:
        rt.Expire();
        Rewritten@Late(rt);
      } else if rt.up {
        label Live:
        rt.Drain(env);
        Rewritten@Live(rt);
      } else if rt.dst in env.waiting {
        sent := Request(rt.dst, env);
      }
      DestsFollow();
    }

    method PurgeRoutes(env: Env) returns (sent: seq<Msg>)
      requires Valid() && NodeOk(State())
      modifies Repr()
      ensures Valid() && (forall o | o in Repr() :: o in old(Repr()) || fresh(o))
      ensures Out(State(), sent) == RtPurge(old(State()), env)
      ensures StepOk(old(State()), Nothing, Out(State(), sent))
      ensures AodvEffects.PurgeEffect(old(State()), env, Out(State(), sent))
    {
      hide AodvEffects.PurgeEffect;
      hide Valid, State, Repr, NodeOk, PurgeOne, PurgeAll, PurgeRest, Has, StepOk;
      Ready(State());
      PurgeAllStep(State(), State().dests, env);
      AodvEffects.PurgeTells(State(), env);
      ghost var n, ds := State(), State().dests;
      Ready(n);
      Step(0);
      var l, k := rtable.list.first, 0;
      sent := [];
      while l != null
        invariant Valid() && (forall o | o in Repr() :: o in old(Repr()) || fresh(o))
        invariant Links() == old(Links()) && NodeOk(State())
        invariant State().dests == ds && Listed(State(), ds) && |ds| == |Links().0|
        invariant k <= |ds| && l == At(Links().0, k)
        invariant PurgeRest(n, ds, env, 0, []) == PurgeRest(State(), ds, env, k, sent)
        decreases |ds| - k
      {
        Step(k);
        PurgeNext(State(), ds, env, k, sent);
        var ln := l.next;
        var more := PurgeRoute(l.elem, env);
        l, k, sent := ln, k + 1, sent + more;
      }
      PurgeEnds(n, ds, env, sent);
      PurgeEnds(State(), ds, env, sent);
    }

    method Resolve(d: Addr, mine: bool, env: Env) returns (sent: seq<Msg>)
      requires Valid() && NodeOk(State())
      modifies Repr()
      ensures Valid() && (forall o | o in Repr() :: o in old(Repr()) || fresh(o))
      ensures Out(State(), sent) == RtResolve(old(State()), d, mine, env)
      ensures StepOk(old(State()), Nothing, Out(State(), sent))
      ensures AodvEffects.ResolveEffect(old(State()), d, mine, env, Out(State(), sent))
    {
      hide AodvEffects.ResolveEffect;
      hide Valid, State, Repr, RtEntry.Valid, RtEntry.Value, RtEntry.Repr, RtTable.Valid, List.Valid, SendRequest, NodeOk, StepOk;
      hide RtAdd, With;
      RtResolveStep(State(), d, mine, env);
      AodvEffects.ResolveTells(State(), d, mine, env);
      AddKeeps(State(), d);
      Parts();
      Fields();
      Ready(State());
      var rt := FindOrAdd(d);
      Parts();
      Fields();
      Reached(rt);
      rt.Shown();
      sent := [];
      if rt.up {
        label Live:
        rt.Forward(env.now);
        Rewritten@Live(rt);
      } else if mine {
        sent := Request(d, env);
      } else {
        sent := [Rerr(index, [Unreachable(d, rt.seqno)])];
      }
    }
  }
}
