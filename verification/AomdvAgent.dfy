/** The AOMDV routing agent: the handlers as they change the linked lists, route entries and paths in place,
    through references that may name one entry twice.  Each leaves the state, and sends the packets, that its
    function in AomdvNode says, and so keeps what AomdvProps shows of that function; the assertions of the
    handlers hold, and the path taken first is there, whenever the node and the packet are as AomdvRuns and
    AomdvNetwork show them to be in every run. */
module AomdvAgent {
  import opened RoutingBase
  import opened BsdList
  import opened AomdvPaths
  import opened AomdvNode
  import opened AomdvProps
  import opened AomdvRtable
  import opened AomdvWalks
  import AomdvEffects

  // ---------- the id cache while it is purged from position `k` on ----------

  predicate Purging(was: seq<BcastId>, s: seq<BcastId>, k: nat, now: real) {
    k <= |s| && IdPurge(was, now) == s[..k] + IdPurge(s[k..], now)
  }

  lemma IdsStart(was: seq<BcastId>, now: real)
    ensures Purging(was, was, 0, now)
  {
    assert was[0..] == was;
  }

  lemma IdsGoOn(was: seq<BcastId>, s: seq<BcastId>, k: nat, now: real)
    requires Purging(was, s, k, now) && k < |s|
    ensures if s[k].expire <= now then Purging(was, s[..k] + s[k + 1..], k, now) else Purging(was, s, k + 1, now)
  {
    SplitAt(s, k);
    var cut := s[..k] + s[k + 1..];
    assert cut[..k] == s[..k] && cut[k..] == s[k + 1..];
    assert s[..k] + ([s[k]] + IdPurge(s[k + 1..], now)) == s[..k + 1] + IdPurge(s[k + 1..], now);
  }

  lemma IdsEnd(was: seq<BcastId>, s: seq<BcastId>, k: nat, now: real)
    requires Purging(was, s, k, now) && k == |s|
    ensures s == IdPurge(was, now)
  {
    assert s[..k] == s && s[k..] == [];
  }

  // ---------- what a search does ----------

  lemma Resting(n: Node, d: Addr, env: Env)
    requires d in n.table && (n.table[d].up || n.table[d].reqTimeout > env.now)
    ensures SendRequest(n, d, env) == Out(n, [])
  {
  }

  lemma RequestSteps(n: Node, d: Addr, env: Env)
    requires d in n.table
    ensures NodeOk(n) ==> StepOk(n, Nothing, SendRequest(n, d, env)) && AomdvEffects.SearchEffect(n, d, env, SendRequest(n, d, env))
  {
    hide StepOk, AomdvEffects.SearchEffect, SendRequest;
    if NodeOk(n) {
      SendRequestStep(n, d, env);
      AomdvEffects.SearchTells(n, d, env);
    }
  }

  lemma Tired(n: Node, d: Addr, env: Env)
    requires d in n.table && !(n.table[d].up || n.table[d].reqTimeout > env.now) && n.table[d].reqCnt > RREQ_RETRIES
    ensures SendRequest(n, d, env)
         == Out(With(n, d, n.table[d].(reqTimeout := env.now + MAX_RREQ_TIMEOUT, reqCnt := 0)), [])
  {
  }

  lemma Searching(n: Node, d: Addr, env: Env, n': Node)
    requires d in n.table && !(n.table[d].up || n.table[d].reqTimeout > env.now) && n.table[d].reqCnt <= RREQ_RETRIES
    requires n' == With(n, d, NextSearch(n.table[d], d, env))
    ensures var e := NextSearch(n.table[d], d, env);
            SendRequest(n, d, env) == Out(n'.(bid := n'.bid + 1, seqno := n'.seqno + 2),
                                          [Rreq(n'.index, e.reqLastTtl, 0, 0, n'.bid, d, e.seqno, n'.index, n'.seqno + 2)])
  {
  }

  lemma IdFound(cache: seq<BcastId>, src: Addr, id: nat, k: nat)
    requires k <= |cache| && (k < |cache| ==> cache[k].src == src && cache[k].id == id)
    requires forall j | 0 <= j < k :: cache[j].src != src || cache[j].id != id
    ensures IdGet(cache, src, id) == k
  {
  }

  // ---------- what receiving a request does ----------

  lemma Ignored(n: Node, m: Msg, env: Env)
    requires m.Rreq? && m.src == n.index
    ensures RecvRequest(n, m, env) == Out(n, [])
  {
  }

  /** The node with the discovery noted is well formed, and the packet agrees with the reverse entry. */
  lemma Noticed(n: Node, m: Msg, env: Env)
    requires m.Rreq? && NodeOk(n) && m.src != n.index
    requires m.src in n.table ==> LengthsAgree(n.table[m.src], m.srcSeqno, m.sender, m.hopCount + 1)
    ensures var n1 := Noted(n, m, env);
            && n1.index == n.index && n1.maxPaths == n.maxPaths && m.src in n1.table && Cached(n1.bcache, m.src, m.bcastId)
            && EntryOk(n1.table[m.src], n.maxPaths) && Carries(n1)
            && LengthsAgree(n1.table[m.src], m.srcSeqno, m.sender, m.hopCount + 1)
  {
    NotedStep(n, m, env);
    var n1 := Noted(n, m, env);
    assert NodeOk(n1);
    assert EntryOk(n1.table[m.src], n1.maxPaths);
    CarriesOk(n1);
  }

  lemma Taken(n: Node, m: Msg, env: Env)
    requires m.Rreq? && m.src != n.index
    ensures var n1 := Noted(n, m, env);
            && m.src in n1.table && Cached(n1.bcache, m.src, m.bcastId)
            && var r := UpdateReverse(n1, n1.table[m.src], m, FirstHop(n, m), env);
            && (!r.goOn ==> RecvRequest(n, m, env) == Out(With(n1, m.src, r.entry), []))
            && (r.goOn ==>
                  var n2 := With(n1, m.src, Settled(r.entry, m.src, env));
                  && m.src in n2.table && Cached(n2.bcache, m.src, m.bcastId)
                  && RecvRequest(n, m, env) == AnswerRequest(n2, m, Cached(n.bcache, m.src, m.bcastId), r.inHand, env))
  {
    hide UpdateReverse, Settled, AnswerRequest;
  }

  // ---------- what receiving a reply does ----------

  lemma Refused(n: Node, m: Msg, env: Env)
    requires m.Rrep? && m.dst == n.index
    ensures RecvReply(n, m, env) == Out(n, [])
  {
  }

  lemma Answerable(n: Node, m: Msg)
    requires m.Rrep? && NodeOk(n)
    requires m.dst in n.table ==> LengthsAgree(n.table[m.dst], m.dstSeqno, m.sender, m.hopCount + 1)
    ensures var n1 := RtAdd(n, m.dst);
            && n1.index == n.index && n1.maxPaths == n.maxPaths && m.dst in n1.table
            && EntryOk(n1.table[m.dst], n.maxPaths) && Carries(n1)
            && LengthsAgree(n1.table[m.dst], m.dstSeqno, m.sender, m.hopCount + 1)
  {
    AddEntry(n, m.dst);
    var n1 := RtAdd(n, m.dst);
    assert NodeOk(n1);
    assert EntryOk(n1.table[m.dst], n1.maxPaths);
    CarriesOk(n1);
  }

  lemma Heeded(n: Node, m: Msg, env: Env)
    requires m.Rrep? && m.dst != n.index
    ensures var n1 := RtAdd(n, m.dst);
            && m.dst in n1.table
            && var f := UpdateForward(n1, n1.table[m.dst], m, env);
            && (!f.goOn ==> RecvReply(n, m, env) == Out(With(n1, m.dst, f.entry), []))
            && (f.goOn ==>
                  var n2 := With(n1, m.dst, Settled(f.entry, m.dst, env));
                  m.dst in n2.table && RecvReply(n, m, env) == RelayReply(n2, m, env))
  {
    hide UpdateForward, Settled, RelayReply;
  }

  lemma Passed(n: Node, m: Msg, env: Env)
    requires m.Rrep? && m.dst in n.table && m.ipDst in n.table && Cached(n.bcache, m.ipDst, m.bcastId)
    ensures var k := IdGet(n.bcache, m.ipDst, m.bcastId);
            var n' := n.(bcache := n.bcache[k := n.bcache[k].(count := 1)]);
            var e := Advertised(n'.table[m.dst]);
            var n1 := With(n', m.dst, e.(error := true));
            && m.ipDst in n1.table
            && PassReply(n, m, env) == Out(
              With(n1, m.ipDst, FirstUsed(n1.table[m.ipDst], env.now + ACTIVE_ROUTE_TIMEOUT)),
              if m.ttl - 1 == 0 then []
              else [Rrep(n.index, FirstNexthop(n'.table[m.ipDst]), m.ipDst, m.ttl - 1, e.adv.Num(), FirstLasthop(e), m.bcastId,
                         m.dst, m.dstSeqno, m.lifetime)])
  {
  }

  // ---------- what a hello, or a lost neighbour, does ----------

  lemma Greeted(n: Node, m: Msg, env: Env)
    requires m.Hello? && NodeOk(n) && MsgOk(m)
    requires m.sender in n.table ==> LengthsAgree(n.table[m.sender], m.seqno, m.sender, 1)
    ensures var n1 := HeardHello(n, m.sender, env.now);
            var r := HelloAsReply(n, m);
            && n1.table == n.table && n1.index == n.index && NodeOk(n1)
            && r == Rrep(m.sender, n.index, n.index, 1, 0, n.index, 0, m.sender, m.seqno, HELLO_LIFE) && MsgOk(r)
            && (m.sender in n1.table ==> LengthsAgree(n1.table[m.sender], r.dstSeqno, r.sender, r.hopCount + 1))
            && RecvHello(n, m, env) == RecvReply(n1, r, env)
  {
    SameTable(n, HeardHello(n, m.sender, env.now));
    hide RecvReply;
  }

  lemma SalvageEnds(n: Node, ps: seq<Stuck>, now: real)
    ensures SalvageAll(n, ps[0..], now) == SalvageAll(n, ps, now) && SalvageAll(n, ps[|ps|..], now) == n
  {
    assert ps[0..] == ps && ps[|ps|..] == [];
  }

  lemma SalvageNext(n: Node, ps: seq<Stuck>, now: real)
    requires ps != [] && Carries(n)
    ensures SalvageAll(n, ps, now) == SalvageAll(SalvageOne(n, ps[0], now), ps[1..], now)
    ensures Carries(SalvageOne(n, ps[0], now))
  {
  }

  lemma AddCarries(n: Node, d: Addr)
    requires NodeOk(n)
    ensures Carries(RtAdd(n, d))
  {
    CarriesOk(n);
  }

  // ---------- what a loss does to one route ----------

  lemma LostOne(n: Node, sender: Addr, u: Unreachable)
    requires u.dst in n.table && n.table[u.dst].up && HasNext(n.table[u.dst].paths, sender) && n.table[u.dst].seqno <= u.seqno
    ensures var e := PathDelete(n.table[u.dst], sender);
            var e := e.(highest := Max(e.highest, u.seqno));
            var down := RtDown(e.(seqno := e.highest));
            LoseOne(n, sender, u) == Losses(With(n, u.dst, if e.paths != [] then e else down.(error := false)),
                                            if e.paths == [] && down.error then [Unreachable(u.dst, down.seqno)] else [])
  {
    hide PathDelete, RtDown;
  }

  lemma FailedOne(n: Node, id: Addr, d: Addr)
    requires d in n.table && n.table[d].up && HasNext(n.table[d].paths, id)
    ensures var e := PathDelete(n.table[d], id);
            var e' := e.(seqno := Max(e.seqno + 1, e.highest));
            var down := RtDown(e'.(error := false));
            && down.seqno == e'.seqno
            && FailOne(n, id, d) == Losses(With(n, d, if e.paths != [] then e else down),
                                           if e.paths == [] && e.error then [Unreachable(d, down.seqno)] else [])
  {
    hide PathDelete;
  }

  /** Every route that is up has a path to take and an even number. */
  predicate Carries(n: Node) {
    forall d | d in n.table && n.table[d].up :: n.table[d].paths != [] && n.table[d].seqno % 2 == 0
  }

  lemma CarriesOk(n: Node)
    requires NodeOk(n)
    ensures Carries(n)
  {
    forall d | d in n.table && n.table[d].up ensures n.table[d].paths != [] && n.table[d].seqno % 2 == 0 {
      assert EntryOk(n.table[d], n.maxPaths);
    }
  }

  lemma AnsweredFromTable(n: Node, m: Msg, env: Env)
    requires m.Rreq? && m.dst in n.table && n.table[m.dst].paths != [] && Cached(n.bcache, m.src, m.bcastId)
    ensures var k := IdGet(n.bcache, m.src, m.bcastId);
            var n' := n.(bcache := n.bcache[k := n.bcache[k].(count := 1)]);
            var e := Advertised(n'.table[m.dst]).(error := true);
            && e.paths != []
            && AnswerFromTable(n, m, env) == Out(
              With(n', m.dst, e),
              [Rrep(n.index, m.sender, m.src, NETWORK_DIAMETER, e.adv.Num(), FirstLasthop(e), m.bcastId, m.dst, e.seqno,
                    e.paths[0].expire - env.now)])
  {
  }

  lemma CarriesAt(n: Node, d: Addr)
    requires Carries(n)
    ensures d in n.table && n.table[d].up ==> n.table[d].paths != [] && n.table[d].seqno % 2 == 0
  {
  }

  lemma CarriesStill(n: Node, d: Addr, e: Entry)
    requires Carries(n) && (e.up ==> e.paths != [] && e.seqno % 2 == 0)
    ensures Carries(With(n, d, e)) && With(n, d, e).bcache == n.bcache
  {
  }

  lemma Ready(n: Node)
    requires NodeOk(n)
    ensures Listed(n, n.dests) && n.seqno % 2 == 0 && Carries(n)
  {
    CarriesOk(n);
  }

  lemma ReadyEntry(n: Node, d: Addr)
    requires NodeOk(n) && d in n.table
    ensures var e := n.table[d];
            && EntryOk(e, n.maxPaths) && e.numPaths == |e.paths| && (e.up ==> e.paths != [] && e.seqno % 2 == 0)
  {
    assert EntryOk(n.table[d], n.maxPaths);
  }

  lemma AddKeeps(n: Node, d: Addr)
    ensures var n' := RtAdd(n, d); d in n'.table && n'.index == n.index && n'.seqno == n.seqno && n'.bcache == n.bcache
  {
  }

  class Agent {
    const index: Addr
    const maxPaths: int
    const lenDiff: int
    const rtable: RtTable
    const bihead: List<BcastId>
    const nbhead: List<Neighbor>
    var seqno: nat
    var bid: nat

    ghost function Repr(): set<object>
      reads rtable, bihead, nbhead
    {
      {this, bihead, nbhead} + rtable.footprint + bihead.footprint + nbhead.footprint
    }

    /** The table and the two lists have no object in common. */
    ghost predicate Valid()
      reads this, rtable, Repr()
    {
      && rtable.Valid() && bihead.Valid() && nbhead.Valid()
      && rtable.footprint !! {this, bihead, nbhead} + bihead.footprint + nbhead.footprint
      && {this, bihead, nbhead} !! bihead.footprint + nbhead.footprint
      && bihead.footprint !! nbhead.footprint
    }

    ghost function State(): Node
      requires Valid()
      reads this, rtable, Repr()
    {
      Node(index, maxPaths, lenDiff, seqno, bid, rtable.Table(), rtable.Dests(), bihead.Values(), nbhead.Values())
    }

    constructor (id: Addr, maxPaths: int, lenDiff: int)
      ensures Valid() && fresh(Repr()) && State() == Boot(id, maxPaths, lenDiff)
    {
      index, this.maxPaths, this.lenDiff := id, maxPaths, lenDiff;
      seqno, bid := 2, 1;
      rtable := new RtTable();
      bihead := new List<BcastId>();
      nbhead := new List<Neighbor>();
    }

    // ---------- references into the table ----------

    /** What a walk over the table goes along. */
    ghost function Links(): (seq<Link<RtEntry>>, seq<RtEntry>)
      requires Valid()
      reads this, rtable, Repr()
    {
      (rtable.list.links, rtable.Entries())
    }

    ghost predicate Has(rt: RtEntry)
      requires Valid()
      reads this, rtable, Repr()
    {
      rt in Links().1
    }

    /** Of the agent's objects only those of one entry have changed. */
    twostate predicate OnlyChanged(rt: RtEntry)
      requires old(Valid()) && old(Has(rt))
      reads this, rtable, Repr(), rt, rt.Repr()
    {
      rtable.OnlyChanged(rt) && unchanged(this, bihead, nbhead) && unchanged(bihead.footprint, nbhead.footprint)
    }

    twostate lemma Changed(rt: RtEntry)
      requires old(Valid()) && old(Has(rt)) && OnlyChanged(rt)
      ensures Valid() && Links() == old(Links()) && Has(rt) && (forall o | o in Repr() :: o in old(Repr()) || fresh(o))
      ensures State() == With(old(State()), rt.dst, rt.Value())
    {
      rtable.Touched(rt);
    }

    /** Of the agent's objects only those of one entry have changed, and it has taken no new ones. */
    twostate lemma Rewritten(rt: RtEntry)
      requires old(Valid()) && old(Has(rt)) && unchanged(this, rtable, bihead, nbhead)
      requires unchanged(bihead.footprint, nbhead.footprint) && rt.Valid() && rt.Repr() == old(rt.Repr())
      requires forall o | o in old(rtable.footprint) && o !in old(rt.Repr()) :: unchanged(o)
      ensures Valid() && Links() == old(Links()) && Repr() == old(Repr()) && Has(rt) && rt.Valid()
      ensures State() == With(old(State()), rt.dst, rt.Value())
    {
      assert old(rtable.Owns(rt));
      Changed(rt);
    }

    /** Only the agent's own numbers have changed. */
    twostate lemma Renumbered()
      requires old(Valid()) && unchanged(bihead, nbhead, rtable)
      requires unchanged(rtable.footprint, bihead.footprint, nbhead.footprint)
      ensures Valid() && Links() == old(Links()) && Repr() == old(Repr())
      ensures State() == old(State()).(seqno := seqno, bid := bid)
    {
    }

    lemma Parts()
      requires Valid()
      ensures rtable.Valid() && bihead.Valid() && nbhead.Valid()
      ensures {rtable, rtable.list} <= rtable.footprint && rtable.list.footprint <= rtable.footprint
      ensures rtable.footprint !! {this, bihead, nbhead} && rtable.footprint !! bihead.footprint
      ensures rtable.footprint !! nbhead.footprint && bihead.footprint !! nbhead.footprint
      ensures bihead.footprint !! {this, bihead, nbhead} && nbhead.footprint !! {this, bihead, nbhead}
      ensures {this, bihead, nbhead} <= Repr() && rtable.footprint <= Repr()
      ensures bihead.footprint <= Repr() && nbhead.footprint <= Repr()
    {
    }

    lemma Fields()
      requires Valid()
      ensures rtable.Valid() && State().table == rtable.Table() && State().dests == rtable.Dests()
      ensures State().index == index && State().maxPaths == maxPaths && State().lenDiff == lenDiff && State().seqno == seqno && State().bid == bid
      ensures State().bcache == bihead.Values() && State().nbrs == nbhead.Values()
    {
    }

    lemma DestsFollow()
      requires Valid()
      ensures State().dests == DestsOf(Links().1)
    {
    }

    /** Nothing has changed. */
    twostate lemma Unmoved()
      requires old(Valid()) && unchanged(this, rtable, bihead, nbhead)
      requires unchanged(rtable.footprint, bihead.footprint, nbhead.footprint)
      ensures Valid() && State() == old(State()) && Links() == old(Links()) && Repr() == old(Repr())
    {
    }

    /** Only the broadcast id cache has changed. */
    twostate lemma IdsChanged()
      requires old(Valid()) && bihead.Valid() && fresh(bihead.footprint - old(bihead.footprint))
      requires unchanged(this, rtable, nbhead) && unchanged(rtable.footprint, nbhead.footprint)
      ensures Valid() && (forall o | o in Repr() :: o in old(Repr()) || fresh(o)) && State() == old(State()).(bcache := bihead.Values())
    {
    }

    /** Only the table has changed. */
    twostate lemma TableChanged()
      requires old(Valid()) && rtable.Valid() && fresh(rtable.footprint - old(rtable.footprint))
      requires unchanged(this, bihead, nbhead) && unchanged(bihead.footprint, nbhead.footprint)
      ensures Valid() && (forall o | o in Repr() :: o in old(Repr()) || fresh(o))
      ensures State() == old(State()).(table := rtable.Table(), dests := rtable.Dests())
    {
    }

    lemma Reached(rt: RtEntry)
      requires Valid() && Has(rt)
      ensures rt.Valid() && rt in rt.Repr() && rt in rtable.footprint && rt.Repr() <= rtable.footprint && rtable !in rt.Repr()
      ensures rt.dst in State().table && State().table[rt.dst] == rt.Value()
    {
      rtable.Here(rt);
    }

    method FindRoute(d: Addr) returns (rt: RtEntry?)
      requires Valid()
      ensures Valid() && Repr() == old(Repr()) && State() == old(State()) && Links() == old(Links())
      ensures rt == null <==> d !in State().table
      ensures rt != null ==> Has(rt) && rt.dst == d
    {
      hide Valid, State;
      Parts();
      rt := rtable.Lookup(d);
      Unmoved();
      Fields();
    }

    method AddRoute(d: Addr) returns (rt: RtEntry)
      requires Valid() && d !in State().table
      modifies rtable.footprint
      ensures Valid() && (forall o | o in Repr() :: o in old(Repr()) || fresh(o)) && Has(rt) && rt.dst == d
      ensures forall o | o in rtable.footprint :: o in old(rtable.footprint) || fresh(o)
      ensures State() == RtAdd(old(State()), d)
    {
      hide RtTable.Valid, List.Valid, Valid, State;
      Parts();
      Fields();
      rt := rtable.Add(d);
      TableChanged();
    }

    method FindOrAdd(d: Addr) returns (rt: RtEntry)
      requires Valid()
      modifies rtable.footprint
      ensures Valid() && (forall o | o in Repr() :: o in old(Repr()) || fresh(o)) && Has(rt) && rt.dst == d
      ensures forall o | o in rtable.footprint :: o in old(rtable.footprint) || fresh(o)
      ensures State() == RtAdd(old(State()), d)
    {
      hide Valid, State, Has;
      var found := FindRoute(d);
      if found != null {
        return found;
      }
      rt := AddRoute(d);
    }

    // ---------- broadcast id cache ----------

    method GetId(src: Addr, id: nat) returns (b: Link?<BcastId>, ghost k: nat)
      requires Valid()
      ensures Valid() && State() == old(State()) && Links() == old(Links()) && Repr() == old(Repr())
      ensures k == IdGet(State().bcache, src, id) && At(bihead.links, k) == b && |bihead.links| == |State().bcache|
      ensures b != null ==> b.elem == State().bcache[k]
    {
      hide Valid, State, Repr, List.Valid;
      Parts();
      bihead.Starts();
      b, k := bihead.first, 0;
      while b != null && !(b.elem.src == src && b.elem.id == id)
        invariant k <= |bihead.links| && b == At(bihead.links, k)
        invariant forall j | 0 <= j < k :: bihead.Values()[j].src != src || bihead.Values()[j].id != id
        decreases |bihead.links| - k
      {
        bihead.Next(k);
        b, k := b.next, k + 1;
      }
      IdFound(bihead.Values(), src, id, k);
      Unmoved();
      Fields();
    }

    method InsertId(src: Addr, id: nat, now: real)
      requires Valid()
      modifies bihead, bihead.footprint
      ensures Valid() && (forall o | o in Repr() :: o in old(Repr()) || fresh(o))
      ensures State() == old(State()).(bcache := IdInsert(old(State()).bcache, src, id, now))
    {
      hide Valid, State, Repr, List.Valid;
      Parts();
      Fields();
      var b := bihead.InsertHead(BcastId(src, id, now + BCAST_ID_SAVE, 0));
      IdsChanged();
    }

    method Mark(b: Link<BcastId>, ghost k: nat)
      requires Valid() && k < |bihead.links| && b == bihead.links[k] && |bihead.links| == |State().bcache|
      modifies b`elem
      ensures Valid() && Repr() == old(Repr()) && Links() == old(Links()) && bihead.links == old(bihead.links)
      ensures State() == old(State()).(bcache := old(State()).bcache[k := old(State()).bcache[k].(count := 1)])
    {
      hide Valid, State, Repr, List.Valid;
      Parts();
      Fields();
      bihead.Starts();
      bihead.Set(b, k, b.elem.(count := 1));
      IdsChanged();
    }

    method PurgeIds(now: real)
      requires Valid()
      modifies bihead, bihead.footprint
      ensures Valid() && (forall o | o in Repr() :: o in old(Repr()) || fresh(o))
      ensures State() == old(State()).(bcache := IdPurge(old(State()).bcache, now))
    {
      hide Valid, State, Repr, List.Valid, List.Values, IdPurge;
      Parts();
      Fields();
      ghost var was := bihead.Values();
      bihead.Starts();
      var b, k := bihead.first, 0;
      IdsStart(was, now);
      while b != null
        invariant bihead.Valid() && bihead.footprint == old(bihead.footprint)
        invariant k <= |bihead.links| == |bihead.Values()| && b == At(bihead.links, k)
        invariant Purging(was, bihead.Values(), k, now)
        decreases |bihead.links| - k
      {
        bihead.Starts();
        bihead.Next(k);
        IdsGoOn(was, bihead.Values(), k, now);
        var bn := b.next;
        if b.elem.expire <= now {
          bihead.Remove(b, k);
          bihead.Starts();
        } else {
          k := k + 1;
        }
        b := bn;
      }
      IdsEnd(was, bihead.Values(), k, now);
      IdsChanged();
    }

    // ---------- originating ----------

    /** The request itself, under the next broadcast id and the next even number of this node. */
    method Broadcast(d: Addr, asked: nat, ttl: int) returns (sent: seq<Msg>)
      requires Valid() && seqno % 2 == 0
      modifies this
      ensures Valid() && Repr() == old(Repr()) && Links() == old(Links())
      ensures var n := old(State());
              && State() == n.(bid := n.bid + 1, seqno := n.seqno + 2)
              && sent == [Rreq(n.index, ttl, 0, 0, n.bid, d, asked, n.index, n.seqno + 2)]
    {
      hide Valid, State;
      Parts();
      Fields();
      var id := bid;
      bid := bid + 1;
      seqno := seqno + 2;
      assert seqno % 2 == 0;
      Renumbered();
      sent := [Rreq(index, ttl, 0, 0, id, d, asked, index, seqno)];
    }

    method Request(d: Addr, env: Env) returns (sent: seq<Msg>)
      requires Valid() && d in State().table && seqno % 2 == 0
      modifies Repr()
      ensures Valid() && (forall o | o in Repr() :: o in old(Repr()) || fresh(o)) && Links() == old(Links())
      ensures Out(State(), sent) == SendRequest(old(State()), d, env)
      ensures NodeOk(old(State())) ==> StepOk(old(State()), Nothing, Out(State(), sent))
      ensures NodeOk(old(State())) ==> AomdvEffects.SearchEffect(old(State()), d, env, Out(State(), sent))
    {
      hide *;
      RequestSteps(State(), d, env);
      Parts();
      Fields();
      var rt := FindRoute(d);
      assert rt != null;
      Reached(rt);
      rt.Shown();
      ghost var n := State();
      if rt.up || rt.reqTimeout > env.now {
        Resting(n, d, env);
        return [];
      }
      if rt.reqCnt > RREQ_RETRIES {
        label Weary:
        rt.Rest(env.now);
        Rewritten@Weary(rt);
        Tired(n, d, env);
        return [];
      }
      label Search:
      var ttl := rt.NextRing(env);
      Rewritten@Search(rt);
      rt.Shown();
      Searching(n, d, env, State());
      sent := Broadcast(d, rt.seqno, ttl);
    }

    // ---------- receiving ----------

    /** Remembers the discovery and makes sure there is an entry for its source. */
    method Note(m: Msg, env: Env) returns (b: Link<BcastId>, ghost k: nat, seen: bool, rt0: RtEntry)
      requires Valid() && m.Rreq?
      modifies Repr()
      ensures Valid() && (forall o | o in Repr() :: o in old(Repr()) || fresh(o))
      ensures State() == Noted(old(State()), m, env) && seen == Cached(old(State()).bcache, m.src, m.bcastId)
      ensures Has(rt0) && rt0.dst == m.src
      ensures k == IdGet(State().bcache, m.src, m.bcastId) && k < |bihead.links| == |State().bcache| && b == bihead.links[k]
    {
      hide Valid, State, Repr, RtAdd, List.Valid;
      Parts();
      var found;
      found, k := GetId(m.src, m.bcastId);
      seen := found != null;
      Parts();
      if found == null {
        InsertId(m.src, m.bcastId, env.now);
        found, k := GetId(m.src, m.bcastId);
      }
      b := found;
      Parts();
      Fields();
      AddKeeps(State(), m.src);
      rt0 := FindOrAdd(m.src);
      Fields();
    }

    method ReceiveRequest(m: Msg, env: Env) returns (sent: seq<Msg>)
      requires Valid() && m.Rreq? && NodeOk(State()) && MsgOk(m)
      requires m.src in State().table ==> LengthsAgree(State().table[m.src], m.srcSeqno, m.sender, m.hopCount + 1)
      modifies Repr()
      ensures Valid() && (forall o | o in Repr() :: o in old(Repr()) || fresh(o))
      ensures Out(State(), sent) == RecvRequest(old(State()), m, env)
      ensures StepOk(old(State()), Packet(m), Out(State(), sent))
      ensures AomdvEffects.RequestEffect(old(State()), m, env, Out(State(), sent))
    {
      hide AomdvEffects.RequestEffect;
      hide Valid, State, Repr, Links, RtEntry.Valid, RtEntry.Value, RtEntry.Repr, RtTable.Valid, List.Valid;
      hide StepOk, NodeOk, MsgOk, EntryOk, LengthsAgree, RecvRequest, AnswerRequest, UpdateReverse, Settled, Noted, With, Carries;
      RecvRequestStep(State(), m, env);
      AomdvEffects.RequestTells(State(), m, env);
      Parts();
      Fields();
      ghost var n := State();
      if m.src == index {
        Ignored(n, m, env);
        return [];
      }
      Noticed(n, m, env);
      Taken(n, m, env);
      var b, k, seen, rt0 := Note(m, env);
      Parts();
      Fields();
      var goOn, inHand := LearnReverse(rt0, m, env);
      if !goOn {
        return [];
      }
      sent := Answer(b, k, rt0, m, seen, inHand, env);
    }

    /** The reverse route brought up to date and, if handling goes on, settled. */
    method LearnReverse(rt0: RtEntry, m: Msg, env: Env) returns (goOn: bool, inHand: bool)
      requires Valid() && m.Rreq? && MsgOk(m) && Has(rt0) && rt0.dst == m.src && m.src in State().table
      requires EntryOk(State().table[m.src], maxPaths) && Carries(State())
      requires LengthsAgree(State().table[m.src], m.srcSeqno, m.sender, m.hopCount + 1)
      modifies rtable.footprint
      ensures Valid() && Links() == old(Links()) && (forall o | o in Repr() :: o in old(Repr()) || fresh(o))
      ensures var n := old(State());
              var r := UpdateReverse(n, n.table[m.src], m, FirstHop(n, m), env);
              && goOn == r.goOn && inHand == r.inHand
              && State() == With(n, m.src, if goOn then Settled(r.entry, m.src, env) else r.entry)
      ensures Carries(State()) && State().bcache == old(State()).bcache && (goOn ==> m.src in State().table && State().table[m.src].up)
    {
      hide Valid, State, Repr, Links, RtEntry.Valid, RtEntry.Value, RtEntry.Repr, RtTable.Valid, List.Valid;
      hide MsgOk, EntryOk, LengthsAgree, UpdateReverse, Settled, Carries, With;
      Parts();
      Fields();
      Reached(rt0);
      ghost var n := State();
      var firstHop := if m.hopCount == 0 then index else m.firstHop;
      var reversePath;
      goOn, reversePath := rt0.LearnReverse(m, firstHop, env, index, maxPaths, lenDiff, n);
      rtable.footprint := rtable.footprint + rt0.Repr();
      Changed(rt0);
      CarriesStill(n, m.src, rt0.Value());
      Reached(rt0);
      inHand := reversePath != null;
    }

    method Answer(b: Link<BcastId>, ghost k: nat, rt0: RtEntry, m: Msg, seen: bool, inHand: bool, env: Env)
      returns (sent: seq<Msg>)
      requires Valid() && m.Rreq? && Has(rt0) && rt0.dst == m.src && m.src in State().table && Carries(State())
      requires State().table[m.src].up
      requires k == IdGet(State().bcache, m.src, m.bcastId) && k < |bihead.links| == |State().bcache| && b == bihead.links[k]
      modifies Repr()
      ensures Valid() && Repr() == old(Repr())
      ensures Out(State(), sent) == AnswerRequest(old(State()), m, seen, inHand, env)
    {
      hide Valid, State, Repr, RtEntry.Valid, RtEntry.Value, RtEntry.Repr, RtTable.Valid, List.Valid;
      hide Advertised, FirstLasthop, With, IdGet, Carries, AnswerFromTable, MarkCount, AnswerAsDestination;
      Parts();
      Fields();
      CarriesAt(State(), m.src);
      CarriesAt(State(), m.dst);
      var rt := FindRoute(m.dst);
      Parts();
      Fields();
      sent := [];
      if m.dst == index {
        sent := AnswerOwn(m);
        return;
      }
      if rt != null {
        Reached(rt);
        rt.Shown();
      }
      if rt != null && rt.up && rt.seqno >= m.dstSeqno {
        assert rt.seqno % 2 == 0;
        sent := AnswerOnce(b, k, rt, m, inHand, env);
        return;
      }
      if seen {
        return;
      }
      var asked := m.dstSeqno;
      if rt != null && rt.seqno > asked {
        asked := rt.seqno;
      }
      sent := PassOn(rt0, m, asked);
    }

    /** The destination answers; its number moves only if a later one was asked for. */
    method AnswerOwn(m: Msg) returns (sent: seq<Msg>)
      requires Valid() && m.Rreq?
      modifies this
      ensures Valid() && Repr() == old(Repr()) && Links() == old(Links())
      ensures Out(State(), sent) == AnswerAsDestination(old(State()), m)
    {
      hide Valid, State, Repr, RtTable.Valid, List.Valid;
      Parts();
      Fields();
      if seqno < m.dstSeqno {
        seqno := m.dstSeqno + 1;
      }
      if seqno % 2 == 1 {
        seqno := seqno + 1;
      }
      Renumbered();
      Fields();
      sent := [Rrep(index, m.sender, m.src, NETWORK_DIAMETER, 0, m.sender, m.bcastId, index, seqno, MY_ROUTE_TIMEOUT)];
    }

    /** A route in the table is told of once in a discovery, and only over a reverse path in hand. */
    method AnswerOnce(b: Link<BcastId>, ghost k: nat, rt: RtEntry, m: Msg, inHand: bool, env: Env) returns (sent: seq<Msg>)
      requires Valid() && m.Rreq? && Has(rt) && rt.dst == m.dst && m.dst in State().table
      requires State().table[m.dst].paths != []
      requires k == IdGet(State().bcache, m.src, m.bcastId) && k < |bihead.links| == |State().bcache| && b == bihead.links[k]
      modifies Repr()
      ensures Valid() && Repr() == old(Repr())
      ensures Out(State(), sent) == if inHand && !Counted(old(State()).bcache, m.src, m.bcastId)
                                    then AnswerFromTable(old(State()), m, env) else Out(old(State()), [])
    {
      hide Valid, State, Repr, RtEntry.Valid, RtEntry.Value, RtEntry.Repr, RtTable.Valid, List.Valid;
      hide Advertised, FirstLasthop, With, IdGet, AnswerFromTable, MarkCount, Links;
      Parts();
      Fields();
      bihead.Starts();
      sent := [];
      if inHand && b.elem.count == 0 {
        AnsweredFromTable(State(), m, env);
        Mark(b, k);
        Parts();
        sent := AnswerKnown(rt, m, env);
      }
    }

    method AnswerKnown(rt: RtEntry, m: Msg, env: Env) returns (sent: seq<Msg>)
      requires Valid() && m.Rreq? && Has(rt) && rt.dst == m.dst && m.dst in State().table
      requires State().table[m.dst].paths != []
      modifies rtable.footprint
      ensures Valid() && Repr() == old(Repr()) && Links() == old(Links())
      ensures var n := old(State());
              var e := Advertised(n.table[m.dst]).(error := true);
              && e.paths != [] && State() == With(n, m.dst, e)
              && sent == [Rrep(n.index, m.sender, m.src, NETWORK_DIAMETER, e.adv.Num(), FirstLasthop(e), m.bcastId, m.dst,
                               e.seqno, e.paths[0].expire - env.now)]
    {
      hide Valid, State, Repr, RtEntry.Valid, RtEntry.Value, RtEntry.Repr, RtTable.Valid, List.Valid, Advertised, With;
      Parts();
      Fields();
      Reached(rt);
      var forwardPath := rt.Tell();
      Rewritten(rt);
      rt.Shown();
      sent := [Rrep(index, m.sender, m.src, NETWORK_DIAMETER, rt.adv.Num(), forwardPath.elem.lasthop, m.bcastId, m.dst,
                    rt.seqno, forwardPath.elem.expire - env.now)];
    }

    /** The request goes on with the hop count advertised for the way back. */
    method PassOn(rt0: RtEntry, m: Msg, asked: nat) returns (sent: seq<Msg>)
      requires Valid() && m.Rreq? && Has(rt0) && rt0.dst == m.src && m.src in State().table
      requires State().table[m.src].paths != []
      modifies rtable.footprint
      ensures Valid() && Repr() == old(Repr()) && Links() == old(Links())
      ensures var n := old(State());
              var e := Advertised(n.table[m.src]);
              && State() == With(n, m.src, e)
              && sent == if m.ttl - 1 == 0 then []
                         else [Rreq(n.index, m.ttl - 1, e.adv.Num(), FirstLasthop(e), m.bcastId, m.dst, asked, m.src, m.srcSeqno)]
    {
      hide Valid, State, Repr, RtEntry.Valid, RtEntry.Value, RtEntry.Repr, RtTable.Valid, List.Valid, With;
      Parts();
      Fields();
      Reached(rt0);
      var first := rt0.Advertise();
      Rewritten(rt0);
      rt0.Shown();
      sent := [];
      if m.ttl - 1 != 0 {
        sent := [Rreq(index, m.ttl - 1, rt0.adv.Num(), first.elem.lasthop, m.bcastId, m.dst, asked, m.src, m.srcSeqno)];
      }
    }

    method ReceiveReply(m: Msg, env: Env) returns (sent: seq<Msg>)
      requires Valid() && m.Rrep? && NodeOk(State()) && MsgOk(m)
      requires m.dst in State().table ==> LengthsAgree(State().table[m.dst], m.dstSeqno, m.sender, m.hopCount + 1)
      modifies rtable.footprint, bihead.footprint
      ensures Valid() && (forall o | o in Repr() :: o in old(Repr()) || fresh(o))
      ensures Out(State(), sent) == RecvReply(old(State()), m, env)
      ensures StepOk(old(State()), Packet(m), Out(State(), sent))
      ensures AomdvEffects.ReplyEffect(old(State()), m, env, Out(State(), sent))
    {
      hide AomdvEffects.ReplyEffect;
      hide Valid, State, Repr, Links, Has, RtEntry.Valid, RtEntry.Value, RtEntry.Repr, RtTable.Valid, List.Valid;
      hide StepOk, NodeOk, MsgOk, EntryOk, LengthsAgree, RecvReply, RelayReply, UpdateForward, Settled, RtAdd, With, Carries;
      RecvReplyStep(State(), m, env);
      AomdvEffects.ReplyTells(State(), m, env);
      Parts();
      Fields();
      ghost var n := State();
      sent := [];
      if m.dst == index {
        Refused(n, m, env);
        return;
      }
      Answerable(n, m);
      Heeded(n, m, env);
      var rt := FindOrAdd(m.dst);
      Parts();
      Fields();
      var goOn := LearnForward(rt, m, env);
      if !goOn {
        return;
      }
      Parts();
      Fields();
      sent := Relay(rt, m, env);
    }

    /** The forward route brought up to date and, if handling goes on, settled. */
    method LearnForward(rt: RtEntry, m: Msg, env: Env) returns (goOn: bool)
      requires Valid() && m.Rrep? && MsgOk(m) && Has(rt) && rt.dst == m.dst && m.dst in State().table
      requires EntryOk(State().table[m.dst], maxPaths) && Carries(State())
      requires LengthsAgree(State().table[m.dst], m.dstSeqno, m.sender, m.hopCount + 1)
      modifies rtable.footprint
      ensures Valid() && Has(rt) && (forall o | o in Repr() :: o in old(Repr()) || fresh(o))
      ensures forall o | o in rtable.footprint :: o in old(rtable.footprint) || fresh(o)
      ensures var n := old(State());
              var f := UpdateForward(n, n.table[m.dst], m, env);
              && goOn == f.goOn
              && State() == With(n, m.dst, if goOn then Settled(f.entry, m.dst, env) else f.entry)
      ensures Carries(State()) && (goOn ==> m.dst in State().table && State().table[m.dst].up)
    {
      hide Valid, State, Repr, Links, RtEntry.Valid, RtEntry.Value, RtEntry.Repr, RtTable.Valid, List.Valid;
      hide MsgOk, EntryOk, LengthsAgree, UpdateForward, Settled, Carries, With;
      Parts();
      Fields();
      Reached(rt);
      ghost var n := State();
      goOn := rt.LearnForward(m, env, maxPaths, lenDiff, n);
      rtable.footprint := rtable.footprint + rt.Repr();
      Changed(rt);
      CarriesStill(n, m.dst, rt.Value());
      Reached(rt);
    }

    /** The tail of recvReply: the reply goes back once in a discovery; both routes may be one entry. */
    method Relay(rt: RtEntry, m: Msg, env: Env) returns (sent: seq<Msg>)
      requires Valid() && m.Rrep? && Has(rt) && rt.dst == m.dst && m.dst in State().table && Carries(State())
      requires State().table[m.dst].up
      modifies rtable.footprint, bihead.footprint
      ensures Valid() && Repr() == old(Repr())
      ensures Out(State(), sent) == RelayReply(old(State()), m, env)
    {
      hide Valid, State, Repr, RtEntry.Valid, RtEntry.Value, RtEntry.Repr, RtTable.Valid, List.Valid;
      hide With, IdGet, Carries, PassReply, MarkCount, FirstUsed, Advertised, FirstNexthop, FirstLasthop, Links;
      Parts();
      Fields();
      CarriesAt(State(), m.dst);
      CarriesAt(State(), m.ipDst);
      sent := [];
      if m.ipDst == index {
        return;
      }
      var rt0 := FindRoute(m.ipDst);
      var b, k := GetId(m.ipDst, m.bcastId);
      Fields();
      Parts();
      if rt0 == null {
        return;
      }
      Reached(rt0);
      rt0.Shown();
      if !rt0.up || b == null || b.elem.count != 0 {
        return;
      }
      sent := PassOnce(b, k, rt, rt0, m, env);
    }

    method PassOnce(b: Link<BcastId>, ghost k: nat, rt: RtEntry, rt0: RtEntry, m: Msg, env: Env) returns (sent: seq<Msg>)
      requires Valid() && m.Rrep? && Has(rt) && Has(rt0) && rt.dst == m.dst && rt0.dst == m.ipDst
      requires m.dst in State().table && m.ipDst in State().table
      requires State().table[m.dst].paths != [] && State().table[m.ipDst].paths != []
      requires k == IdGet(State().bcache, m.ipDst, m.bcastId) && k < |bihead.links| == |State().bcache| && b == bihead.links[k]
      modifies rtable.footprint, bihead.footprint
      ensures Valid() && Repr() == old(Repr()) && Out(State(), sent) == PassReply(old(State()), m, env)
    {
      hide Valid, State, Repr, RtEntry.Valid, RtEntry.Value, RtEntry.Repr, RtTable.Valid, List.Valid;
      hide With, IdGet, PassReply, MarkCount, FirstUsed, Advertised, FirstNexthop, FirstLasthop, Links;
      Passed(State(), m, env);
      Parts();
      Fields();
      bihead.Starts();
      Mark(b, k);
      Parts();
      sent := PassBack(rt, rt0, m, env);
    }

    method PassBack(rt: RtEntry, rt0: RtEntry, m: Msg, env: Env) returns (sent: seq<Msg>)
      requires Valid() && m.Rrep? && Has(rt) && Has(rt0) && rt.dst == m.dst && rt0.dst == m.ipDst
      requires m.dst in State().table && m.ipDst in State().table
      requires State().table[m.dst].paths != [] && State().table[m.ipDst].paths != []
      modifies rtable.footprint
      ensures Valid() && Repr() == old(Repr())
      ensures var n := old(State());
              var e := Advertised(n.table[m.dst]);
              var n1 := With(n, m.dst, e.(error := true));
              && State() == With(n1, m.ipDst, FirstUsed(n1.table[m.ipDst], env.now + ACTIVE_ROUTE_TIMEOUT))
              && sent == if m.ttl - 1 == 0 then []
                         else [Rrep(n.index, FirstNexthop(n.table[m.ipDst]), m.ipDst, m.ttl - 1, e.adv.Num(), FirstLasthop(e),
                                    m.bcastId, m.dst, m.dstSeqno, m.lifetime)]
    {
      hide Valid, State, Repr, RtEntry.Valid, RtEntry.Value, RtEntry.Repr, RtTable.Valid, List.Valid, FirstUsed;
      Parts();
      Fields();
      Reached(rt0);
      var reversePath := rt0.PathFind();
      var back := reversePath.elem.nexthop;
      Unmoved();
      Fields();
      Reached(rt);
      label Tell:
      var forwardPath := rt.Tell();
      Rewritten@Tell(rt);
      rt.Shown();
      sent := [];
      if m.ttl - 1 != 0 {
        sent := [Rrep(index, back, m.ipDst, m.ttl - 1, rt.adv.Num(), forwardPath.elem.lasthop, m.bcastId, m.dst, m.dstSeqno,
                      m.lifetime)];
      }
      Parts();
      Reached(rt0);
      label Use:
      rt0.UseFirst(env.now + ACTIVE_ROUTE_TIMEOUT);
      Rewritten@Use(rt0);
    }

    // ---------- losses ----------

    /** Where a walk over the table is at position `k`. */
    lemma Step(k: nat)
      requires Valid() && k <= |Links().0|
      ensures |State().dests| == |Links().0| && rtable.list.first == At(Links().0, 0)
      ensures k < |Links().0| ==> var rt := Links().0[k].elem;
                                  && Has(rt) && rt.dst == State().dests[k] && rt.dst in State().table
                                  && Links().0[k].next == At(Links().0, k + 1)
    {
      rtable.Walk(k);
      if k < |Links().0| { rtable.Here(Links().0[k].elem); }
    }

    /** One destination of a route error from `sender`. */
    method LoseRoute(sender: Addr, u: Unreachable) returns (lost: seq<Unreachable>)
      requires Valid() && NodeOk(State())
      modifies rtable.footprint
      ensures Valid() && Repr() == old(Repr()) && rtable.footprint == old(rtable.footprint) && Links() == old(Links())
      ensures Losses(State(), lost) == LoseOne(old(State()), sender, u)
    {
      hide Valid, State, Repr, RtEntry.Valid, RtEntry.Value, RtEntry.Repr, RtTable.Valid, List.Valid;
      hide NodeOk, EntryOk, HasNext, PathDelete, RtDown;
      ghost var n := State();
      lost := [];
      Parts();
      var rt := FindRoute(u.dst);
      if rt == null {
        return;
      }
      Reached(rt);
      rt.Shown();
      if !rt.up {
        return;
      }
      var path, k := rt.PathLookup(sender);
      Unmoved();
      Parts();
      Reached(rt);
      rt.Shown();
      if path != null && rt.seqno <= u.seqno {
        ReadyEntry(n, u.dst);
        label Loss:
        var tell := rt.Lose(sender, u.seqno);
        Rewritten@Loss(rt);
        rt.Shown();
        LostOne(n, sender, u);
        if tell {
          lost := [Unreachable(rt.dst, rt.seqno)];
        }
      }
    }

    method ReceiveError(m: Msg) returns (sent: seq<Msg>)
      requires Valid() && m.Rerr? && NodeOk(State()) && MsgOk(m)
      modifies Repr()
      ensures Valid() && Repr() == old(Repr())
      ensures Out(State(), sent) == RecvError(old(State()), m)
      ensures StepOk(old(State()), Nothing, Out(State(), sent))
      ensures AomdvEffects.ErrorEffect(old(State()), m.sender, m.unreachable, Out(State(), sent))
    {
      hide AomdvEffects.ErrorEffect;
      hide Valid, State, Repr, LoseOne, NodeOk, LoseAll, LostOk, LoseRest, StepOk;
      RecvErrorStep(State(), m);
      AomdvEffects.ErrorTells(State(), m);
      ghost var n := State();
      var us, lost := m.unreachable, [];
      assert LostOk(us);
      for k := 0 to |us|
        invariant Valid() && Repr() == old(Repr()) && Links() == old(Links()) && NodeOk(State())
        invariant LoseRest(n, m.sender, us, 0, []) == LoseRest(State(), m.sender, us, k, lost)
      {
        LoseNext(State(), m.sender, us, k, lost);
        Parts();
        var more := LoseRoute(m.sender, us[k]);
        lost := lost + more;
      }
      LoseEnds(n, m.sender, us, lost);
      LoseEnds(State(), m.sender, us, lost);
      Fields();
      sent := if lost == [] then [] else [Rerr(index, lost)];
    }

    /** One table entry when the link to `id` has failed. */
    method FailRoute(id: Addr, rt: RtEntry) returns (lost: seq<Unreachable>)
      requires Valid() && NodeOk(State()) && Has(rt) && rt.dst in State().table
      modifies rtable.footprint
      ensures Valid() && Repr() == old(Repr()) && rtable.footprint == old(rtable.footprint) && Links() == old(Links())
      ensures Losses(State(), lost) == FailOne(old(State()), id, rt.dst) && State().dests == old(State()).dests
    {
      hide Valid, State, Repr, RtEntry.Valid, RtEntry.Value, RtEntry.Repr, RtTable.Valid, List.Valid;
      hide NodeOk, EntryOk, HasNext, PathDelete, RtDown;
      ghost var n := State();
      lost := [];
      Parts();
      Reached(rt);
      rt.Shown();
      if !rt.up {
        return;
      }
      var path, k := rt.PathLookup(id);
      Unmoved();
      Parts();
      Reached(rt);
      rt.Shown();
      if path != null {
        ReadyEntry(n, rt.dst);
        label Failure:
        var tell := rt.Fail(id);
        Rewritten@Failure(rt);
        rt.Shown();
        FailedOne(n, id, rt.dst);
        if tell {
          lost := [Unreachable(rt.dst, rt.seqno)];
        }
      }
    }

    method LinkFailure(id: Addr) returns (sent: seq<Msg>)
      requires Valid() && NodeOk(State())
      modifies Repr()
      ensures Valid() && Repr() == old(Repr())
      ensures Out(State(), sent) == HandleLinkFailure(old(State()), id)
      ensures StepOk(old(State()), Nothing, Out(State(), sent))
      ensures AomdvEffects.FailureEffect(old(State()), id, Out(State(), sent))
    {
      hide AomdvEffects.FailureEffect;
      hide Valid, State, Repr, NodeOk, FailOne, FailAll, FailRest, Has, StepOk;
      HandleLinkFailureStep(State(), id);
      AomdvEffects.FailureTells(State(), id);
      ghost var n, ds := State(), State().dests;
      Ready(n);
      Step(0);
      var l, k, lost := rtable.list.first, 0, [];
      while l != null
        invariant Valid() && Repr() == old(Repr()) && Links() == old(Links()) && NodeOk(State())
        invariant State().dests == ds && Listed(State(), ds) && |ds| == |Links().0|
        invariant k <= |ds| && l == At(Links().0, k)
        invariant FailRest(n, id, ds, 0, []) == FailRest(State(), id, ds, k, lost)
        decreases |ds| - k
      {
        Parts();
        Step(k);
        FailNext(State(), id, ds, k, lost);
        var ln := l.next;
        var more := FailRoute(id, l.elem);
        l, k, lost := ln, k + 1, lost + more;
      }
      FailEnds(n, id, ds, lost);
      FailEnds(State(), id, ds, lost);
      Fields();
      sent := if lost == [] then [] else [Rerr(index, lost)];
    }

    // ---------- neighbours ----------

    /** Only the neighbour list, and perhaps the own number, has changed. */
    twostate lemma NeighborsChanged()
      requires old(Valid()) && nbhead.Valid() && fresh(nbhead.footprint - old(nbhead.footprint))
      requires unchanged(rtable, bihead) && unchanged(rtable.footprint, bihead.footprint) && bid == old(bid)
      ensures Valid() && (forall o | o in Repr() :: o in old(Repr()) || fresh(o))
      ensures State() == old(State()).(nbrs := nbhead.Values(), seqno := seqno)
    {
    }

    method LookupNeighbor(id: Addr) returns (nb: Link?<Neighbor>, ghost k: nat)
      requires Valid()
      ensures Valid() && State() == old(State()) && Links() == old(Links()) && Repr() == old(Repr())
      ensures k == NbFind(State().nbrs, id) && nb == At(nbhead.links, k) && |nbhead.links| == |State().nbrs|
    {
      hide Valid, State, Repr, List.Valid;
      Parts();
      nbhead.Starts();
      nb, k := nbhead.first, 0;
      while nb != null && nb.elem.addr != id
        invariant k <= |nbhead.links| && nb == At(nbhead.links, k)
        invariant forall j | 0 <= j < k :: nbhead.Values()[j].addr != id
        decreases |nbhead.links| - k
      {
        nbhead.Next(k);
        nb, k := nb.next, k + 1;
      }
      NbFound(nbhead.Values(), id, k);
      Unmoved();
      Fields();
    }

    /** A hello makes its sender a neighbour for some more time, and is then handled as a reply. */
    method ReceiveHello(m: Msg, env: Env) returns (sent: seq<Msg>)
      requires Valid() && m.Hello? && NodeOk(State()) && MsgOk(m)
      requires m.sender in State().table ==> LengthsAgree(State().table[m.sender], m.seqno, m.sender, 1)
      modifies Repr()
      ensures Valid() && (forall o | o in Repr() :: o in old(Repr()) || fresh(o))
      ensures Out(State(), sent) == RecvHello(old(State()), m, env)
      ensures StepOk(old(State()), Packet(m), Out(State(), sent))
      ensures AomdvEffects.HelloEffect(old(State()), m, env, Out(State(), sent))
    {
      hide AomdvEffects.HelloEffect;
      hide Valid, State, Repr, List.Valid, NodeOk, StepOk, MsgOk, LengthsAgree, HeardHello, HelloAsReply, RecvReply;
      RecvHelloStep(State(), m, env);
      AomdvEffects.HelloTells(State(), m, env);
      Greeted(State(), m, env);
      Parts();
      Fields();
      Greet(m.sender, env.now);
      Parts();
      sent := ReceiveReply(Rrep(m.sender, index, index, 1, 0, index, 0, m.sender, m.seqno, HELLO_LIFE), env);
    }

    method Greet(id: Addr, now: real)
      requires Valid()
      modifies nbhead, nbhead.footprint
      ensures Valid() && (forall o | o in Repr() :: o in old(Repr()) || fresh(o))
      ensures State() == HeardHello(old(State()), id, now)
    {
      hide Valid, State, Repr, List.Valid, NbFind;
      var nb, k := LookupNeighbor(id);
      Parts();
      Fields();
      nbhead.Starts();
      label Heard:
      if nb == null {
        var l := nbhead.InsertHead(Neighbor(id, now + NEW_NEIGHBOR_LIFE));
      } else {
        nbhead.Set(nb, k, nb.elem.(expire := now + NEIGHBOR_LIFE));
      }
      NeighborsChanged@Heard();
    }

    /** `stuck` is what the interface queue yields for the lost neighbour, in order. */
    method DeleteNeighbor(id: Addr, stuck: seq<Stuck>, now: real) returns (sent: seq<Msg>)
      requires Valid() && NodeOk(State())
      modifies Repr()
      ensures Valid() && (forall o | o in Repr() :: o in old(Repr()) || fresh(o))
      ensures Out(State(), sent) == NbDelete(old(State()), id, stuck, now)
      ensures StepOk(old(State()), Nothing, Out(State(), sent))
      ensures AomdvEffects.NeighborLost(old(State()), id, stuck, now, Out(State(), sent))
    {
      hide AomdvEffects.NeighborLost;
      hide Valid, State, Repr, NodeOk, StepOk, List.Valid, HandleLinkFailure, ForgetNeighbor, Carries, SalvageAll;
      NbDeleteStep(State(), id, stuck, now);
      AomdvEffects.NeighborTells(State(), id, stuck, now);
      Ready(State());
      ForgetStep(State(), id);
      Parts();
      Fields();
      Forget(id);
      ghost var n := State();
      sent := LinkFailure(id);
      SilentPart(n, Nothing, Out(State(), sent));
      Ready(State());
      Parts();
      Salvage(stuck, now);
    }

    method Forget(id: Addr)
      requires Valid() && seqno % 2 == 0
      modifies this, nbhead, nbhead.footprint
      ensures Valid() && (forall o | o in Repr() :: o in old(Repr()) || fresh(o))
      ensures State() == ForgetNeighbor(old(State()), id)
    {
      hide Valid, State, Repr, List.Valid;
      var nb, k := LookupNeighbor(id);
      Parts();
      Fields();
      nbhead.Starts();
      label Gone:
      seqno := seqno + 2;
      assert seqno % 2 == 0;
      if nb != null {
        nbhead.Remove(nb, k);
      }
      NeighborsChanged@Gone();
    }

    /** Stuck data packets leave over another path where there is one. */
    method Salvage(stuck: seq<Stuck>, now: real)
      requires Valid() && Carries(State())
      modifies rtable.footprint
      ensures Valid() && Repr() == old(Repr()) && State() == SalvageAll(old(State()), stuck, now)
    {
      hide Valid, State, Repr, Carries, SalvageOne, SalvageAll;
      ghost var n := State();
      SalvageEnds(n, stuck, now);
      for k := 0 to |stuck|
        invariant Valid() && Repr() == old(Repr()) && rtable.footprint == old(rtable.footprint) && Carries(State())
        invariant SalvageAll(State(), stuck[k..], now) == SalvageAll(n, stuck, now)
      {
        SplitAt(stuck, k);
        SalvageNext(State(), stuck[k..], now);
        SalvagePacket(stuck[k], now);
      }
      SalvageEnds(State(), stuck, now);
    }

    method SalvagePacket(p: Stuck, now: real)
      requires Valid() && Carries(State())
      modifies rtable.footprint
      ensures Valid() && Repr() == old(Repr()) && rtable.footprint == old(rtable.footprint)
      ensures State() == SalvageOne(old(State()), p, now)
    {
      hide Valid, State, Repr, RtEntry.Valid, RtEntry.Value, RtEntry.Repr, RtTable.Valid, List.Valid, Carries, Used;
      Parts();
      Fields();
      CarriesAt(State(), p.dst);
      if p.data && p.dst != index {
        var rt := FindRoute(p.dst);
        Parts();
        if rt != null {
          Reached(rt);
          rt.Shown();
          if rt.up && p.salvaged < MAX_SALVAGE_COUNT {
            label Rescue:
            rt.Forward(p.mine, now);
            Rewritten@Rescue(rt);
          }
        }
      }
    }

    // ---------- timers and data ----------

    method PurgeRoute(rt: RtEntry, env: Env) returns (sent: seq<Msg>)
      requires Valid() && NodeOk(State()) && Has(rt) && rt.dst in State().table
      modifies Repr()
      ensures Valid() && (forall o | o in Repr() :: o in old(Repr()) || fresh(o)) && Links() == old(Links())
      ensures Out(State(), sent) == PurgeOne(old(State()), rt.dst, env) && State().dests == old(State()).dests
    {
      hide Valid, State, Repr, RtEntry.Valid, RtEntry.Value, RtEntry.Repr, RtTable.Valid, List.Valid;
      hide SendRequest, NodeOk, With, RtDown, Drained, EntryOk, Unexpired, Carries;
      sent := [];
      DestsFollow();
      Parts();
      Fields();
      Reached(rt);
      rt.Shown();
      Ready(State());
      ReadyEntry(State(), rt.dst);
      if rt.up && rt.expire < env.now {
        label Late:
        rt.Expire(env.now);
        Rewritten@Late(rt);
      } else if rt.up {
        label Live:
        rt.Drain(env);
        Rewritten@Live(rt);
      } else if rt.dst in env.waiting {
        sent := Request(rt.dst, env);
      }
      DestsFollow();
    }

    method PurgeRoutes(env: Env) returns (sent: seq<Msg>)
      requires Valid() && NodeOk(State())
      modifies Repr()
      ensures Valid() && (forall o | o in Repr() :: o in old(Repr()) || fresh(o))
      ensures Out(State(), sent) == RtPurge(old(State()), env)
      ensures StepOk(old(State()), Nothing, Out(State(), sent))
      ensures AomdvEffects.PurgeEffect(old(State()), env, Out(State(), sent))
    {
      hide AomdvEffects.PurgeEffect;
      hide Valid, State, Repr, NodeOk, PurgeOne, PurgeAll, PurgeRest, Has, StepOk;
      Ready(State());
      PurgeAllStep(State(), State().dests, env);
      AomdvEffects.PurgeTells(State(), env);
      ghost var n, ds := State(), State().dests;
      Ready(n);
      Step(0);
      var l, k := rtable.list.first, 0;
      sent := [];
      while l != null
        invariant Valid() && (forall o | o in Repr() :: o in old(Repr()) || fresh(o))
        invariant Links() == old(Links()) && NodeOk(State())
        invariant State().dests == ds && Listed(State(), ds) && |ds| == |Links().0|
        invariant k <= |ds| && l == At(Links().0, k)
        invariant PurgeRest(n, ds, env, 0, []) == PurgeRest(State(), ds, env, k, sent)
        decreases |ds| - k
      {
        Step(k);
        PurgeNext(State(), ds, env, k, sent);
        var ln := l.next;
        var more := PurgeRoute(l.elem, env);
        l, k, sent := ln, k + 1, sent + more;
      }
      PurgeEnds(n, ds, env, sent);
      PurgeEnds(State(), ds, env, sent);
    }

    method Resolve(d: Addr, mine: bool, env: Env) returns (sent: seq<Msg>)
      requires Valid() && NodeOk(State())
      modifies Repr()
      ensures Valid() && (forall o | o in Repr() :: o in old(Repr()) || fresh(o))
      ensures Out(State(), sent) == RtResolve(old(State()), d, mine, env)
      ensures StepOk(old(State()), Nothing, Out(State(), sent))
      ensures AomdvEffects.ResolveEffect(old(State()), d, mine, env, Out(State(), sent))
    {
      hide AomdvEffects.ResolveEffect;
      hide Valid, State, Repr, RtEntry.Valid, RtEntry.Value, RtEntry.Repr, RtTable.Valid, List.Valid, SendRequest, NodeOk, StepOk;
      hide RtAdd, With, Used, Carries;
      RtResolveStep(State(), d, mine, env);
      AomdvEffects.ResolveTells(State(), d, mine, env);
      AddKeeps(State(), d);
      AddCarries(State(), d);
      CarriesAt(RtAdd(State(), d), d);
      Parts();
      Fields();
      Ready(State());
      var rt := FindOrAdd(d);
      Parts();
      Fields();
      Reached(rt);
      rt.Shown();
      sent := [];
      if rt.up {
        label Live:
        rt.Forward(mine, env.now);
        Rewritten@Live(rt);
      } else if mine {
        sent := Request(d, env);
      } else {
        sent := [Rerr(index, [Unreachable(d, rt.seqno)])];
      }
    }
  }
}
