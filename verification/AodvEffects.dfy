/** What each AODV handler brings about, told by what was in the table and in the packet and not by how the handler
    goes about it: who is answered and who is passed on, which routes are taken up, go down or stay, what is sent. */
module AodvEffects {
  import opened RoutingBase
  import opened AodvNode
  import opened AodvProps

  function EntryOf(n: Node, d: Addr): Entry {
    if d in n.table then n.table[d] else FRESH_ENTRY
  }

  /** `n` has a live route to `d`, under the number asked for or a later one. */
  predicate Serves(n: Node, d: Addr, asked: nat) {
    d in n.table && n.table[d].hops.Fin? && n.table[d].seqno >= asked
  }

  predicate Newer(e: Entry, seqno: nat, hopCount: nat) {
    seqno > e.seqno || (seqno == e.seqno && (e.hops.Inf? || hopCount < e.hops.n))
  }

  /** Nothing but the precursors has changed. */
  predicate SameButPrecursors(e: Entry, e': Entry) {
    e' == e.(precursors := e'.precursors)
  }

  /** The search for a destination is over as it was, or has not changed. */
  predicate SameSearch(e: Entry, e': Entry) {
    e'.reqTimeout == e.reqTimeout && e'.reqCnt == e.reqCnt && e'.reqLastTtl == e.reqLastTtl
  }

  /** `pcs'` has, besides `pcs`, what `more` says. */
  ghost predicate Joined(pcs: seq<Addr>, pcs': seq<Addr>, more: set<Addr>) {
    (forall x :: x in pcs' <==> x in pcs || x in more) && |pcs'| <= |pcs| + |more|
  }

  /** A second entry is there besides those before, at the head of the list, if `d` was new. */
  predicate Listed(n: Node, n': Node, d: Addr) {
    && n'.table.Keys == n.table.Keys + {d}
    && n'.dests == if d in n.table then n.dests else [d] + n.dests
  }

  // ---------- requests ----------

  /** The route back to the source of a request: the one offered if that is newer or as new and shorter, else the old
      one; it lives for REV_ROUTE_LIFE at least. */
  predicate ReverseTaken(e: Entry, m: Msg, env: Env, e': Entry)
    requires m.Rreq?
  {
    var taken := Newer(e, m.srcSeqno, m.hopCount);
    && (if taken then e'.up && e'.seqno == m.srcSeqno && e'.hops == Fin(m.hopCount) && e'.nexthop == m.sender
        else SameRoute(e, e'))
    && e'.lastHops == e.lastHops
    && (if taken && (e.reqTimeout > 0.0 || m.src in env.waiting) then e'.expire == env.now + ACTIVE_ROUTE_TIMEOUT
        else e'.expire >= e.expire && e'.expire >= env.now + REV_ROUTE_LIFE
             && (e'.expire == e.expire || e'.expire == env.now + REV_ROUTE_LIFE))
    && (if taken && e.reqTimeout > 0.0 then e'.reqTimeout == 0.0 && e'.reqCnt == 0 && e'.reqLastTtl == m.hopCount
        else SameSearch(e, e'))
  }

  /** Who answers: the destination, and any node with a live route that is new enough. */
  predicate Answers(n: Node, m: Msg)
    requires m.Rreq?
  {
    m.dst == n.index || Serves(n, m.dst, m.dstSeqno)
  }

  /** What goes out on a new request, `n` being the node afterwards: one reply back over the reverse route from who can
      answer, under a number no lower than asked; else one copy of the request, unless its time to live is over. */
  predicate RequestForwarded(n: Node, m: Msg, env: Env, sent: seq<Msg>)
    requires m.Rreq? && m.src in n.table
  {
    && |sent| == (if Answers(n, m) || m.ttl != 1 then 1 else 0)
    && (|sent| == 1 ==>
          match sent[0]
          case Rrep(sender, to, ipDst, ttl, hopCount, dst, dstSeqno, lifetime) =>
            && Answers(n, m) && sender == n.index && to == n.table[m.src].nexthop && ipDst == m.src
            && ttl == NETWORK_DIAMETER && dst == m.dst && dstSeqno >= m.dstSeqno
            && (if m.dst == n.index then dstSeqno == n.seqno && hopCount == 1 && lifetime == MY_ROUTE_TIMEOUT
                else dstSeqno == n.table[m.dst].seqno && hopCount == n.table[m.dst].hops.n + 1
                     && (if n.table[m.dst].expire < env.now then lifetime == 0.0
                         else lifetime <= n.table[m.dst].expire - env.now < lifetime + 1.0))
          case Rreq(sender, ttl, hopCount, bcastId, dst, dstSeqno, src, srcSeqno) =>
            && !Answers(n, m) && sender == n.index && ttl == m.ttl - 1 && hopCount == m.hopCount + 1
            && src == m.src && bcastId == m.bcastId && dst == m.dst && srcSeqno == m.srcSeqno
            && dstSeqno >= m.dstSeqno && dstSeqno >= EntryOf(n, m.dst).seqno
            && (dstSeqno == m.dstSeqno || dstSeqno == EntryOf(n, m.dst).seqno)
          case _ => false)
  }

  /** The destination's own number: unchanged elsewhere, and past both its last one and the one asked for. */
  predicate OwnRaised(n: Node, m: Msg, n': Node)
    requires m.Rreq?
  {
    if m.dst == n.index then n'.seqno > n.seqno && n'.seqno > m.dstSeqno && n'.seqno <= Max(n.seqno, m.dstSeqno) + 2
    else n'.seqno == n.seqno
  }

  /** The precursors a reply from the table adds: on each of the two routes the next hop of the other. */
  function Introduced(n: Node, m: Msg, d: Addr): set<Addr>
    requires m.Rreq? && m.src in n.table
  {
    if m.dst == n.index || !Serves(n, m.dst, m.dstSeqno) then {}
    else (if d == m.dst then {n.table[m.src].nexthop} else {}) + (if d == m.src then {n.table[m.dst].nexthop} else {})
  }

  ghost predicate RequestEffect(n: Node, m: Msg, env: Env, o: Out)
    requires m.Rreq?
  {
    if m.src == n.index || IdLookup(n.bcache, m.src, m.bcastId) then o == Out(n, [])
    else
      var n' := o.node;
      && Listed(n, n', m.src) && n' == n.(table := n'.table, dests := n'.dests, bcache := n'.bcache, seqno := n'.seqno)
      && n'.bcache == [BcastId(m.src, m.bcastId, env.now + BCAST_ID_SAVE)] + n.bcache
      && OwnRaised(n, m, n')
      && ReverseTaken(EntryOf(n, m.src), m, env, n'.table[m.src])
      && (forall d | d in n'.table && d != m.src :: SameButPrecursors(n.table[d], n'.table[d]))
      && (forall d | d in n'.table :: Joined(EntryOf(n, d).precursors, n'.table[d].precursors, Introduced(n', m, d)))
      && RequestForwarded(n', m, env, o.sent)
  }

  lemma ReverseTells(e: Entry, m: Msg, env: Env, pcs: seq<Addr>)
    requires m.Rreq?
    ensures ReverseTaken(e, m, env, ReverseEntry(e, m, env).(precursors := pcs))
    ensures ReverseEntry(e, m, env).precursors == e.precursors
  {
  }

  /** What the first half of the handler leaves for the second. */
  lemma LearnTells(n: Node, m: Msg, env: Env)
    requires m.Rreq?
    ensures var n' := LearnReverse(n, m, env);
      && Listed(n, n', m.src) && n' == n.(table := n'.table, dests := n'.dests, bcache := n'.bcache)
      && n'.bcache == [BcastId(m.src, m.bcastId, env.now + BCAST_ID_SAVE)] + n.bcache
      && n'.table[m.src] == ReverseEntry(EntryOf(n, m.src), m, env)
      && forall d | d in n'.table && d != m.src :: n'.table[d] == n.table[d]
  {
    hide ReverseEntry;
  }

  lemma InsertJoins(pcs: seq<Addr>, id: Addr)
    ensures Joined(pcs, AodvNode.PcInsert(pcs, id), {id})
    ensures id in pcs ==> AodvNode.PcInsert(pcs, id) == pcs
  {
    assert PcFind(pcs, id) < |pcs| ==> id in pcs;
    assert PcFind(pcs, id) == |pcs| ==> id !in pcs;
  }

  lemma AnswerForwards(n: Node, m: Msg, env: Env)
    requires m.Rreq? && m.src in n.table
    ensures var o := AnswerRequest(n, m, env);
      o.node.table.Keys == n.table.Keys && RequestForwarded(o.node, m, env, o.sent) && OwnRaised(n, m, o.node)
      && o.node == n.(table := o.node.table, seqno := o.node.seqno)
      && forall d | d in n.table :: SameButPrecursors(n.table[d], o.node.table[d])
  {
    hide AodvNode.PcInsert;
  }

  lemma JoinedTwice(pcs: seq<Addr>, a: Addr, b: Addr)
    ensures Joined(pcs, AodvNode.PcInsert(AodvNode.PcInsert(pcs, a), b), {a} + {b})
    ensures Joined(pcs, pcs, {})
  {
    InsertJoins(pcs, a);
    InsertJoins(AodvNode.PcInsert(pcs, a), b);
    hide AodvNode.PcInsert;
    if a == b { assert {a} + {b} == {a}; }
  }

  lemma AnswerIntroduces(n: Node, m: Msg, env: Env, d: Addr)
    requires m.Rreq? && m.src in n.table && d in n.table
    ensures var n' := AnswerRequest(n, m, env).node;
      m.src in n'.table && d in n'.table && Joined(n.table[d].precursors, n'.table[d].precursors, Introduced(n', m, d))
  {
    hide AodvNode.PcInsert, Joined, NextOwnSeqno, Whole;
    var pcs, n' := n.table[d].precursors, AnswerRequest(n, m, env).node;
    if Introduced(n', m, d) == {} {
      JoinedTwice(pcs, 0, 0);
    } else if m.dst == m.src {
      JoinedTwice(pcs, n.table[m.src].nexthop, n.table[m.src].nexthop);
    } else if d == m.dst {
      InsertJoins(pcs, n.table[m.src].nexthop);
      assert Introduced(n', m, d) == {n.table[m.src].nexthop};
    } else {
      InsertJoins(pcs, n.table[m.dst].nexthop);
      assert Introduced(n', m, d) == {n.table[m.dst].nexthop};
    }
  }

  /** Who is answered, who is passed on and what is learned when a request comes in. */
  lemma RequestTells(n: Node, m: Msg, env: Env)
    requires m.Rreq?
    ensures RequestEffect(n, m, env, RecvRequest(n, m, env))
  {
    hide ReverseEntry, AnswerRequest, ReverseTaken, RequestForwarded, Joined, Introduced, LearnReverse;
    if m.src != n.index && !IdLookup(n.bcache, m.src, m.bcastId) {
      var n1 := LearnReverse(n, m, env);
      LearnTells(n, m, env);
      var n' := AnswerRequest(n1, m, env).node;
      AnswerForwards(n1, m, env);
      ReverseTells(EntryOf(n, m.src), m, env, n'.table[m.src].precursors);
      forall d | d in n1.table
        ensures Joined(EntryOf(n, d).precursors, n'.table[d].precursors, Introduced(n', m, d))
      {
        AnswerIntroduces(n1, m, env, d);
      }
    }
  }

  /** Unless the request asks for its own source, who can answer is settled by the table before it came in. */
  lemma AnswersAsBefore(n: Node, m: Msg, env: Env)
    requires m.Rreq? && m.src != n.index && !IdLookup(n.bcache, m.src, m.bcastId) && m.dst != m.src
    ensures var o := RecvRequest(n, m, env);
      (exists k | 0 <= k < |o.sent| :: o.sent[k].Rrep?) <==> m.dst == n.index || Serves(n, m.dst, m.dstSeqno)
  {
    hide RecvRequest, Joined, ReverseTaken, OwnRaised, IdLookup;
    RequestTells(n, m, env);
    var o := RecvRequest(n, m, env);
    assert m.dst in n.table ==> SameButPrecursors(n.table[m.dst], o.node.table[m.dst]);
    assert m.dst in o.node.table <==> m.dst in n.table;
    if Answers(o.node, m) { assert o.sent[0].Rrep?; }
  }

  // ---------- replies ----------

  /** The route a reply offers, with the search for it over. */
  predicate ForwardTaken(e: Entry, m: Msg, e': Entry)
    requires m.Rrep?
  {
    && e'.up && e'.seqno == m.dstSeqno && e'.hops == Fin(m.hopCount) && e'.nexthop == m.sender && e'.lastHops == e.lastHops
    && e'.reqTimeout == 0.0 && e'.reqCnt == 0 && e'.reqLastTtl == m.hopCount
  }

  /** The reply goes on: it was taken up, is not for this node, and there is a live route to who asked. */
  predicate GoesBack(n: Node, m: Msg, n': Node)
    requires m.Rrep?
  {
    Newer(EntryOf(n, m.dst), m.dstSeqno, m.hopCount) && m.ipDst != n.index && Serves(n', m.ipDst, 0)
  }

  /** A reply is taken up exactly if it offers a newer route, or one as new and shorter; taken up, it goes one hop on
      over the route to who asked, which lives on, and leaves that hop as a precursor. */
  ghost predicate ReplyEffect(n: Node, m: Msg, env: Env, o: Out)
    requires m.Rrep?
  {
    var n' := o.node;
    && Listed(n, n', m.dst) && n' == n.(table := n'.table, dests := n'.dests)
    && var e, on := EntryOf(n, m.dst), GoesBack(n, m, n') && m.ttl != 1;
       var life := if m.dst in env.waiting then ACTIVE_ROUTE_TIMEOUT else m.lifetime;
       && (if Newer(e, m.dstSeqno, m.hopCount)
           then && ForwardTaken(e, m, n'.table[m.dst])
                && ((m.dst == m.ipDst && on) || n'.table[m.dst].expire == env.now + life)
           else n'.table[m.dst] == e)
       && (forall d | d in n'.table && d != m.dst && d != m.ipDst :: n'.table[d] == n.table[d])
       && (m.ipDst in n'.table && m.ipDst != m.dst ==>
             n'.table[m.ipDst] == n.table[m.ipDst].(expire := n'.table[m.ipDst].expire))
       && (m.ipDst in n'.table && on ==> n'.table[m.ipDst].expire == env.now + ACTIVE_ROUTE_TIMEOUT)
       && (m.ipDst in n.table && m.ipDst != m.dst && !on ==> n'.table[m.ipDst] == n.table[m.ipDst])
       && Joined(e.precursors, n'.table[m.dst].precursors, if GoesBack(n, m, n') then {n'.table[m.ipDst].nexthop} else {})
       && (if on then o.sent == [Rrep(n.index, n'.table[m.ipDst].nexthop, m.ipDst, m.ttl - 1, m.hopCount + 1, m.dst,
                                      m.dstSeqno, m.lifetime)]
           else o.sent == [])
  }

  lemma ForwardTells(e: Entry, m: Msg, env: Env, pcs: seq<Addr>, until: real)
    requires m.Rrep?
    ensures var f := ForwardEntry(e, m, env);
      && ForwardTaken(e, m, f.(precursors := pcs, expire := until)) && f.precursors == e.precursors && f.up
      && f.expire == env.now + if m.dst in env.waiting then ACTIVE_ROUTE_TIMEOUT else m.lifetime
  {
  }

  lemma ReplyTells(n: Node, m: Msg, env: Env)
    requires m.Rrep?
    ensures ReplyEffect(n, m, env, RecvReply(n, m, env))
  {
    hide AodvNode.PcInsert, Joined, ForwardEntry, ForwardTaken;
    var e, n' := EntryOf(n, m.dst), RecvReply(n, m, env).node;
    JoinedTwice(e.precursors, 0, 0);
    if Newer(e, m.dstSeqno, m.hopCount) {
      ForwardTells(e, m, env, n'.table[m.dst].precursors, n'.table[m.dst].expire);
      if m.ipDst in n'.table { InsertJoins(e.precursors, n'.table[m.ipDst].nexthop); }
    }
  }

  // ---------- link failures ----------

  predicate Over(e: Entry, id: Addr) {
    e.up && e.nexthop == id
  }

  /** A route taken down under a number: it leaves its length behind, and its search stays as it was. */
  predicate TakenDown(e: Entry, seqno: nat, e': Entry) {
    && !e'.up && e'.hops.Inf? && e'.seqno == seqno && e'.lastHops == e.hops && SameSearch(e, e')
    && e'.nexthop == 0 && e'.expire == 0.0
  }

  /** One precursor less, if it was one. */
  predicate Dropped(pcs: seq<Addr>, id: Addr, pcs': seq<Addr>) {
    multiset(pcs') == multiset(pcs) - multiset{id}
  }

  predicate Failed(e: Entry, id: Addr, e': Entry) {
    && (if Over(e, id) then TakenDown(e, e.seqno + 1, e') else SameButPrecursors(e, e'))
    && Dropped(e.precursors, id, e'.precursors)
  }

  /** The destinations an error packet tells of. */
  function Reported(sent: seq<Msg>): seq<Unreachable> {
    if |sent| == 1 && sent[0].Rerr? then sent[0].unreachable else []
  }

  /** One error packet, or none if there is nothing to tell. */
  predicate OneError(n: Node, sent: seq<Msg>) {
    var us := Reported(sent);
    Once(us) && sent == if us == [] then [] else [Rerr(n.index, us)]
  }

  predicate OnlyTable(n: Node, n': Node) {
    n' == n.(table := n'.table) && n'.table.Keys == n.table.Keys
  }

  /** After a link failure every live route over the lost neighbour is down under its number plus one, every other route
      is as it was, and one error tells exactly those lost with those numbers. */
  ghost predicate FailureEffect(n: Node, id: Addr, o: Out) {
    && OnlyTable(n, o.node)
    && (forall d | d in n.table :: Failed(n.table[d], id, o.node.table[d]))
    && OneError(n, o.sent)
    && forall u: Unreachable :: u in Reported(o.sent) <==>
         u.dst in n.table && Over(n.table[u.dst], id) && u.seqno == n.table[u.dst].seqno + 1
  }

  predicate Sound(n: Node, ds: seq<Addr>) {
    Distinct(ds) && forall d | d in ds :: d in n.table && EntryOk(n.table[d])
  }

  ghost predicate FailsOf(n: Node, id: Addr, ds: seq<Addr>, l: Losses) {
    && OnlyTable(n, l.node) && Once(l.lost)
    && (forall d | d in n.table :: if d in ds then Failed(n.table[d], id, l.node.table[d]) else l.node.table[d] == n.table[d])
    && forall u: Unreachable :: u in l.lost <==>
         u.dst in ds && u.dst in n.table && Over(n.table[u.dst], id) && u.seqno == n.table[u.dst].seqno + 1
  }

  lemma WithoutDrops(pcs: seq<Addr>, id: Addr)
    ensures Dropped(pcs, id, PcWithout(pcs, id))
  {
    hide PcFind;
    var k := PcFind(pcs, id);
    if k < |pcs| {
      CutOne(pcs, k);
    } else {
      assert id !in pcs;
    }
  }

  lemma CutOne(pcs: seq<Addr>, k: nat)
    requires k < |pcs|
    ensures multiset(pcs[..k] + pcs[k + 1..]) == multiset(pcs) - multiset{pcs[k]}
  {
    assert pcs == pcs[..k] + [pcs[k]] + pcs[k + 1..];
  }

  lemma FailOneTells(n: Node, id: Addr, d: Addr)
    requires d in n.table && EntryOk(n.table[d])
    ensures FailsOf(n, id, [d], FailOne(n, id, d))
  {
    hide PcWithout, Dropped;
    WithoutDrops(n.table[d].precursors, id);
  }

  /** Two walks over different destinations, one after the other. */
  lemma FailsJoin(n: Node, id: Addr, d: Addr, ds: seq<Addr>, l: Losses, r: Losses)
    requires d !in ds && FailsOf(n, id, [d], l) && FailsOf(l.node, id, ds, r)
    ensures FailsOf(n, id, [d] + ds, Losses(r.node, l.lost + r.lost))
  {
    hide Failed;
    var us := l.lost + r.lost;
    forall j, k | 0 <= j < k < |us| ensures us[j].dst != us[k].dst {
      if j < |l.lost| {
        assert l.lost[j] in l.lost;
        if k >= |l.lost| { assert r.lost[k - |l.lost|] in r.lost; }
      }
    }
  }

  lemma {:induction false} FailAllTells(n: Node, id: Addr, ds: seq<Addr>)
    requires Sound(n, ds)
    ensures forall d | d in ds :: d in n.table
    ensures FailsOf(n, id, ds, FailAll(n, id, ds))
    decreases |ds|
  {
    if ds != [] {
      var l := FailOne(n, id, ds[0]);
      FailOneTells(n, id, ds[0]);
      forall d | d in ds[1..] ensures d != ds[0] && d in l.node.table && EntryOk(l.node.table[d]) {
        var k :| 1 <= k < |ds| && ds[k] == d;
      }
      FailAllTells(l.node, id, ds[1..]);
      FailsJoin(n, id, ds[0], ds[1..], l, FailAll(l.node, id, ds[1..]));
      assert ds == [ds[0]] + ds[1..];
    }
  }

  lemma FailureTells(n: Node, id: Addr)
    requires NodeOk(n)
    ensures FailureEffect(n, id, HandleLinkFailure(n, id))
  {
    hide Failed, FailAll;
    FailAllTells(n, id, n.dests);
  }

  // ---------- lost neighbours ----------

  ghost predicate NeighborLost(n: Node, id: Addr, o: Out) {
    && Forgotten(n.nbrs, id, o.node.nbrs)
    && FailureEffect(n.(seqno := n.seqno + 2, nbrs := o.node.nbrs), id, o)
  }

  lemma NeighborTells(n: Node, id: Addr)
    requires NodeOk(n)
    ensures NeighborLost(n, id, NbDelete(n, id))
  {
    hide HandleLinkFailure;
    WithoutForgets(n.nbrs, id);
    FailureTells(n.(seqno := n.seqno + 2, nbrs := NbWithout(n.nbrs, id)), id);
  }

  // ---------- route errors ----------

  /** The error concerns the route: it leads over the sender, and is no newer than what is reported. */
  predicate Hit(e: Entry, d: Addr, sender: Addr, us: seq<Unreachable>) {
    Over(e, sender) && Naming(us, d, e.seqno) < |us|
  }

  predicate Withdrawn(e: Entry, d: Addr, sender: Addr, us: seq<Unreachable>, e': Entry) {
    if Hit(e, d, sender, us) then TakenDown(e, us[Naming(us, d, e.seqno)].seqno, e') && e'.precursors == [] else e' == e
  }

  predicate Passed(n: Node, sender: Addr, us: seq<Unreachable>, n': Node, u: Unreachable) {
    && u.dst in n.table && u.dst in n'.table && Hit(n.table[u.dst], u.dst, sender, us)
    && n.table[u.dst].precursors != [] && u.seqno == n'.table[u.dst].seqno
  }

  /** After an error from `sender` the live routes over it that are named under their number or a later one are down
      under that number and without precursors, every other entry is as it was, and one error tells those lost routes
      that had precursors. */
  ghost predicate ErrorEffect(n: Node, sender: Addr, us: seq<Unreachable>, o: Out) {
    && OnlyTable(n, o.node)
    && (forall d | d in n.table :: Withdrawn(n.table[d], d, sender, us, o.node.table[d]))
    && OneError(n, o.sent)
    && forall u: Unreachable :: u in Reported(o.sent) <==> Passed(n, sender, us, o.node, u)
  }

  ghost predicate LossesOf(n: Node, sender: Addr, us: seq<Unreachable>, l: Losses) {
    && OnlyTable(n, l.node) && Once(l.lost)
    && (forall d | d in n.table :: Withdrawn(n.table[d], d, sender, us, l.node.table[d]))
    && forall u: Unreachable :: u in l.lost <==> Passed(n, sender, us, l.node, u)
  }

  predicate Consistent(n: Node) {
    forall d | d in n.table :: n.table[d].up <==> n.table[d].hops.Fin?
  }

  lemma LoseOneTells(n: Node, sender: Addr, u: Unreachable)
    requires Consistent(n)
    ensures LossesOf(n, sender, [u], LoseOne(n, sender, u)) && Consistent(LoseOne(n, sender, u).node)
  {
    var l := LoseOne(n, sender, u);
    forall d: Addr, least: nat ensures Naming([u], d, least) == if u.dst == d && u.seqno >= least then 0 else 1 { }
  }

  lemma WithdrawnTwice(e: Entry, d: Addr, sender: Addr, u: Unreachable, us: seq<Unreachable>, f: Entry, g: Entry)
    requires Withdrawn(e, d, sender, [u], f) && Withdrawn(f, d, sender, us, g)
    ensures Withdrawn(e, d, sender, [u] + us, g)
    ensures Hit(e, d, sender, [u] + us) <==> Hit(e, d, sender, [u]) || Hit(f, d, sender, us)
    ensures Hit(e, d, sender, [u]) ==> !Hit(f, d, sender, us) && f == g
    ensures !Hit(e, d, sender, [u]) ==> e == f
  {
    assert ([u] + us)[1..] == us;
    assert Naming([u], d, e.seqno) == if u.dst == d && u.seqno >= e.seqno then 0 else 1;
  }

  lemma LossesJoin(n: Node, sender: Addr, u: Unreachable, us: seq<Unreachable>, l: Losses, r: Losses)
    requires LossesOf(n, sender, [u], l) && LossesOf(l.node, sender, us, r)
    ensures LossesOf(n, sender, [u] + us, Losses(r.node, l.lost + r.lost))
  {
    hide Withdrawn, Hit;
    forall d | d in n.table
      ensures Withdrawn(n.table[d], d, sender, [u] + us, r.node.table[d])
      ensures Hit(n.table[d], d, sender, [u] + us) <==> Hit(n.table[d], d, sender, [u]) || Hit(l.node.table[d], d, sender, us)
      ensures Hit(n.table[d], d, sender, [u]) ==> !Hit(l.node.table[d], d, sender, us) && l.node.table[d] == r.node.table[d]
      ensures !Hit(n.table[d], d, sender, [u]) ==> n.table[d] == l.node.table[d]
    {
      WithdrawnTwice(n.table[d], d, sender, u, us, l.node.table[d], r.node.table[d]);
    }
    var lost := l.lost + r.lost;
    forall j, k | 0 <= j < k < |lost| ensures lost[j].dst != lost[k].dst {
      if j < |l.lost| {
        assert l.lost[j] in l.lost;
        if k >= |l.lost| { assert r.lost[k - |l.lost|] in r.lost; }
      }
    }
  }

  lemma {:induction false} LoseAllTells(n: Node, sender: Addr, us: seq<Unreachable>)
    requires Consistent(n)
    ensures LossesOf(n, sender, us, LoseAll(n, sender, us))
    decreases |us|
  {
    if us != [] {
      LoseOneTells(n, sender, us[0]);
      var l := LoseOne(n, sender, us[0]);
      LoseAllTells(l.node, sender, us[1..]);
      LossesJoin(n, sender, us[0], us[1..], l, LoseAll(l.node, sender, us[1..]));
      assert us == [us[0]] + us[1..];
    }
  }

  lemma ErrorTells(n: Node, m: Msg)
    requires NodeOk(n) && m.Rerr?
    ensures ErrorEffect(n, m.sender, m.unreachable, RecvError(n, m))
  {
    hide Withdrawn, Passed, LoseAll;
    LoseAllTells(n, m.sender, m.unreachable);
  }

  // ---------- hellos ----------

  /** The sender of a hello is a neighbour for NEIGHBOR_LIFE from now; a new neighbour raises the own number by two. */
  ghost predicate HelloEffect(n: Node, m: Msg, env: Env, o: Out)
    requires m.Hello?
  {
    var nb := Neighbor(m.sender, env.now + NEIGHBOR_LIFE);
    && o == Out(n.(seqno := o.node.seqno, nbrs := o.node.nbrs), [])
    && if forall k | 0 <= k < |n.nbrs| :: n.nbrs[k].addr != m.sender
       then o.node.nbrs == [nb] + n.nbrs && o.node.seqno == n.seqno + 2
       else
         && o.node.seqno == n.seqno
         && exists k | 0 <= k < |n.nbrs| ::
              && n.nbrs[k].addr == m.sender && (forall j | 0 <= j < k :: n.nbrs[j].addr != m.sender)
              && o.node.nbrs == n.nbrs[k := nb]
  }

  lemma HelloTells(n: Node, m: Msg, env: Env)
    requires m.Hello?
    ensures HelloEffect(n, m, env, RecvHello(n, m, env))
  {
    assert NbFind(n.nbrs, m.sender) <= |n.nbrs|;
  }

  // ---------- searches ----------

  /** A search may start: there is no route, and the last one has timed out. */
  predicate Due(e: Entry, env: Env) {
    !e.up && e.reqTimeout <= env.now
  }

  /** A request goes out: a search may start, and not too many were in vain. */
  predicate Asks(e: Entry, env: Env) {
    Due(e, env) && e.reqCnt <= RREQ_RETRIES
  }

  function LastRing(e: Entry): int {
    Max(e.reqLastTtl, e.lastHops.Num())
  }

  /** What a search leaves in the entry: a ring two hops wider, or the whole network from TTL_THRESHOLD on, which counts as
      a try; a time to wait that grows with ring and tries, at most MAX_RREQ_TIMEOUT; a rest after too many tries. */
  predicate Searched(e: Entry, d: Addr, env: Env, e': Entry) {
    if Asks(e, env) then
      var last := LastRing(e);
      && e' == e.(reqLastTtl := e'.reqLastTtl, reqCnt := e'.reqCnt, reqTimeout := e'.reqTimeout, expire := 0.0)
      && e'.reqLastTtl == (if last < TTL_THRESHOLD then last + 2 else NETWORK_DIAMETER)
      && e'.reqCnt == (if last < TTL_THRESHOLD then e.reqCnt else e.reqCnt + 1)
      && e'.reqTimeout == env.now + Patience(e'.reqLastTtl, e'.reqCnt, PerHopTime(d, env), MAX_RREQ_TIMEOUT)
    else if Due(e, env) then e' == e.(reqCnt := 0, reqTimeout := env.now + MAX_RREQ_TIMEOUT)
    else e' == e
  }

  /** The requests a node has sent, all its own: each under the next id, the next even number of the node, and the ring
      and the number that the entry for its destination holds. */
  predicate Asked(n: Node, n': Node, sent: seq<Msg>) {
    && n' == n.(table := n'.table, dests := n'.dests, bid := n.bid + |sent|, seqno := n.seqno + 2 * |sent|)
    && forall k | 0 <= k < |sent| ::
         && sent[k].Rreq? && sent[k].dst in n'.table
         && var e := n'.table[sent[k].dst];
            sent[k] == Rreq(n.index, e.reqLastTtl, 1, n.bid + k, sent[k].dst, e.seqno, n.index, n.seqno + 2 * (k + 1))
  }

  predicate AskedFor(sent: seq<Msg>, d: Addr) {
    exists k | 0 <= k < |sent| :: sent[k].Rreq? && sent[k].dst == d
  }

  ghost predicate SearchEffect(n: Node, d: Addr, env: Env, o: Out)
    requires d in n.table
  {
    && o.node.table.Keys == n.table.Keys && o.node.dests == n.dests
    && (forall x | x in n.table && x != d :: o.node.table[x] == n.table[x])
    && Searched(n.table[d], d, env, o.node.table[d])
    && Asked(n, o.node, o.sent) && |o.sent| == (if Asks(n.table[d], env) then 1 else 0)
    && (Asks(n.table[d], env) ==> AskedFor(o.sent, d))
  }

  lemma SearchTells(n: Node, d: Addr, env: Env)
    requires d in n.table && EntryOk(n.table[d])
    ensures SearchEffect(n, d, env, SendRequest(n, d, env))
  {
    hide SearchTimeout, Patience;
    var o := SendRequest(n, d, env);
    if Asks(n.table[d], env) {
      var e' := o.node.table[d];
      WaitIs(e'.reqLastTtl, e'.reqCnt, PerHopTime(d, env), env.now, MAX_RREQ_TIMEOUT);
      assert o.sent[0].dst == d;
    }
  }

  /** The nodes after one attempt after another to find `d`, nothing else happening. */
  function Tries(n: Node, d: Addr, envs: seq<Env>): (r: Node)
    requires d in n.table
    ensures d in r.table
  {
    if envs == [] then n else SendRequest(Tries(n, d, envs[..|envs| - 1]), d, envs[|envs| - 1]).node
  }

  /** Each attempt comes when the one before has timed out. */
  ghost predicate Patient(n: Node, d: Addr, envs: seq<Env>)
    requires d in n.table
  {
    forall i | 0 <= i < |envs| :: Due(Tries(n, d, envs[..i]).table[d], envs[i])
  }

  /** Requests went out at all attempts so far. */
  ghost predicate AllAsked(n: Node, d: Addr, envs: seq<Env>)
    requires d in n.table
  {
    forall i | 0 <= i < |envs| :: Asks(Tries(n, d, envs[..i]).table[d], envs[i])
  }

  lemma {:induction false} RingsWiden(n: Node, d: Addr, envs: seq<Env>)
    requires d in n.table && EntryOk(n.table[d]) && AllAsked(n, d, envs)
    ensures var e := Tries(n, d, envs).table[d];
      && EntryOk(e) && (LastRing(e) >= TTL_THRESHOLD || LastRing(e) >= 1 + 2 * |envs|) && e.reqCnt >= |envs| - 3
      && (|envs| >= 4 ==> e.reqLastTtl == NETWORK_DIAMETER) && (envs != [] ==> e.reqCnt <= RREQ_RETRIES + 1)
    decreases |envs|
  {
    if envs != [] {
      var k := |envs| - 1;
      assert AllAsked(n, d, envs[..k]) by {
        forall i | 0 <= i < k ensures Asks(Tries(n, d, envs[..k][..i]).table[d], envs[..k][i]) {
          assert envs[..k][..i] == envs[..i];
        }
      }
      RingsWiden(n, d, envs[..k]);
      assert Asks(Tries(n, d, envs[..k]).table[d], envs[k]);
      SearchTells(Tries(n, d, envs[..k]), d, envs[k]);
    }
  }

  /** The node rests at this attempt: nothing goes out, and the next attempt is a whole MAX_RREQ_TIMEOUT away. */
  ghost predicate Rests(n: Node, d: Addr, env: Env)
    requires d in n.table
  {
    var o := SendRequest(n, d, env);
    o.sent == [] && d in o.node.table && o.node.table[d].reqTimeout == env.now + MAX_RREQ_TIMEOUT && o.node.table[d].reqCnt == 0
  }

  /** Unanswered requests in a row reach the whole network with the fourth; of any eight attempts in a row the node rests
      at one. */
  lemma SearchesEnd(n: Node, d: Addr, envs: seq<Env>)
    requires NodeOk(n) && d in n.table && Patient(n, d, envs)
    ensures |envs| >= 4 && AllAsked(n, d, envs) ==> Tries(n, d, envs).table[d].reqLastTtl == NETWORK_DIAMETER
    ensures |envs| >= 8 ==> exists i | 0 <= i < |envs| :: Rests(Tries(n, d, envs[..i]), d, envs[i])
  {
    assert EntryOk(n.table[d]);
    if AllAsked(n, d, envs) {
      RingsWiden(n, d, envs);
    } else {
      var i :| 0 <= i < |envs| && !Asks(Tries(n, d, envs[..i]).table[d], envs[i]);
      assert Due(Tries(n, d, envs[..i]).table[d], envs[i]);
      assert Rests(Tries(n, d, envs[..i]), d, envs[i]);
    }
  }

  // ---------- the periodic walk ----------

  /** An expired route goes down under its number plus one; a live one that packets wait for is used; a dead one that
      packets wait for is searched; anything else stays. */
  predicate Purged(e: Entry, d: Addr, env: Env, e': Entry) {
    if e.up && e.expire < env.now then TakenDown(e, e.seqno + 1, e') && e'.precursors == e.precursors
    else if d !in env.waiting then e' == e
    else if e.up then e' == e.(expire := env.now + ACTIVE_ROUTE_TIMEOUT)
    else Searched(e, d, env, e')
  }

  ghost predicate PurgesOf(n: Node, ds: seq<Addr>, env: Env, o: Out) {
    && o.node.table.Keys == n.table.Keys && o.node.dests == n.dests && Asked(n, o.node, o.sent)
    && (forall d | d in n.table :: if d in ds then Purged(n.table[d], d, env, o.node.table[d]) else o.node.table[d] == n.table[d])
    && (forall d :: AskedFor(o.sent, d) <==> d in ds && d in n.table && d in env.waiting && Asks(n.table[d], env))
    && forall j, k | 0 <= j < k < |o.sent| :: o.sent[j].Rreq? && o.sent[k].Rreq? ==> o.sent[j].dst != o.sent[k].dst
  }

  /** The walk takes every expired route down and no other, and asks once for each destination without a route that
      packets wait for and that may be asked for again. */
  ghost predicate PurgeEffect(n: Node, env: Env, o: Out) {
    PurgesOf(n, n.dests, env, o)
  }

  lemma PurgeOneTells(n: Node, d: Addr, env: Env)
    requires d in n.table && EntryOk(n.table[d])
    ensures PurgesOf(n, [d], env, PurgeOne(n, d, env))
  {
    hide SendRequest, Searched;
    SearchTells(n, d, env);
  }

  lemma PurgesJoin(n: Node, d: Addr, ds: seq<Addr>, env: Env, o: Out, r: Out)
    requires d in n.table && d !in ds && PurgesOf(n, [d], env, o) && PurgesOf(o.node, ds, env, r)
    ensures PurgesOf(n, [d] + ds, env, Out(r.node, o.sent + r.sent))
  {
    hide Purged;
    var sent := o.sent + r.sent;
    forall x ensures AskedFor(sent, x) <==> AskedFor(o.sent, x) || AskedFor(r.sent, x) {
      if AskedFor(o.sent, x) {
        var k :| 0 <= k < |o.sent| && o.sent[k].Rreq? && o.sent[k].dst == x;
        assert sent[k].dst == x;
      }
      if AskedFor(r.sent, x) {
        var k :| 0 <= k < |r.sent| && r.sent[k].Rreq? && r.sent[k].dst == x;
        assert sent[|o.sent| + k].dst == x;
      }
    }
  }

  lemma {:induction false} PurgeAllTells(n: Node, ds: seq<Addr>, env: Env)
    requires Sound(n, ds)
    ensures forall d | d in ds :: d in n.table
    ensures PurgesOf(n, ds, env, PurgeAll(n, ds, env))
    decreases |ds|
  {
    hide Purged, EntryOk, PurgeOne;
    if ds != [] {
      var o := PurgeOne(n, ds[0], env);
      PurgeOneTells(n, ds[0], env);
      forall d | d in ds[1..] ensures d != ds[0] && d in o.node.table && EntryOk(o.node.table[d]) {
        var k :| 1 <= k < |ds| && ds[k] == d;
      }
      PurgeAllTells(o.node, ds[1..], env);
      PurgesJoin(n, ds[0], ds[1..], env, o, PurgeAll(o.node, ds[1..], env));
      assert ds == [ds[0]] + ds[1..];
    }
  }

  lemma PurgeTells(n: Node, env: Env)
    requires NodeOk(n)
    ensures PurgeEffect(n, env, RtPurge(n, env))
  {
    PurgeAllTells(n, n.dests, env);
  }

  // ---------- data packets ----------

  /** A data packet uses a live route, which lives on; without one its own source searches, and any other node tells that
      the destination is lost. */
  ghost predicate ResolveEffect(n: Node, d: Addr, mine: bool, env: Env, o: Out) {
    var e := EntryOf(n, d);
    && Listed(n, o.node, d)
    && (forall x | x in n.table && x != d :: o.node.table[x] == n.table[x])
    && if e.up || !mine then
         && o.node == n.(table := o.node.table, dests := o.node.dests)
         && o.node.table[d] == (if e.up then e.(expire := env.now + ACTIVE_ROUTE_TIMEOUT) else e)
         && o.sent == (if e.up then [] else [Rerr(n.index, [Unreachable(d, e.seqno)])])
       else
         && Searched(e, d, env, o.node.table[d])
         && Asked(n, o.node, o.sent) && |o.sent| == (if Asks(e, env) then 1 else 0)
         && (Asks(e, env) ==> AskedFor(o.sent, d))
  }

  lemma ResolveTells(n: Node, d: Addr, mine: bool, env: Env)
    requires NodeOk(n)
    ensures ResolveEffect(n, d, mine, env, RtResolve(n, d, mine, env))
  {
    hide SendRequest, Searched;
    var n1 := RtAdd(n, d);
    assert EntryOk(n1.table[d]);
    SearchTells(n1, d, env);
  }
}
