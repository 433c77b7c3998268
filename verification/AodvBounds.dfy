/** Two more accounts of what AODV handlers do at one node: how far sequence numbers travel ahead of their
    owner, and which requests a node sends. */
module AodvBounds {
  import opened RoutingBase
  import opened AodvNode
  import opened AodvProps

  /** Every node's own sequence number, as a function of its address. */
  type Owner = Addr -> nat

  ghost predicate Even(own: Owner) {
    forall d :: own(d) % 2 == 0
  }

  ghost predicate Bounded(n: Node, own: Owner) {
    n.seqno <= own(n.index) && forall d | d in n.table :: n.table[d].seqno <= own(d) + 1
  }

  ghost predicate LostBounded(us: seq<Unreachable>, own: Owner) {
    forall k | 0 <= k < |us| :: us[k].seqno <= own(us[k].dst) + 1
  }

  ghost predicate MsgBounded(m: Msg, own: Owner) {
    match m
    case Rreq(_, _, _, _, dst, dstSeqno, src, srcSeqno) => dstSeqno <= own(dst) + 1 && srcSeqno <= own(src)
    case Rrep(_, _, _, _, _, dst, dstSeqno, _) => dstSeqno <= own(dst)
    case Rerr(_, us) => LostBounded(us, own)
    case Hello(sender, seqno) => seqno <= own(sender)
  }

  ghost predicate OutBounded(o: Out, own: Owner) {
    Bounded(o.node, own) && forall k | 0 <= k < |o.sent| :: MsgBounded(o.sent[k], own)
  }

  /** A live route never runs ahead of its destination. */
  lemma LiveBehindOwner(n: Node, own: Owner, d: Addr)
    requires NodeOk(n) && Even(own) && Bounded(n, own) && d in n.table && n.table[d].up
    ensures n.table[d].seqno <= own(d)
  {
    assert EntryOk(n.table[d]) && own(d) % 2 == 0;
  }

  lemma SendRequestBounded(n: Node, d: Addr, env: Env, own: Owner)
    requires NodeOk(n) && d in n.table && Even(own) && Bounded(n, own)
    requires SendRequest(n, d, env).node.seqno <= own(n.index)
    ensures OutBounded(SendRequest(n, d, env), own)
  {
  }

  lemma AnswerRequestBounded(n: Node, m: Msg, env: Env, own: Owner)
    requires NodeOk(n) && m.Rreq? && m.src in n.table && Even(own) && Bounded(n, own) && MsgBounded(m, own)
    requires AnswerRequest(n, m, env).node.seqno <= own(n.index)
    ensures OutBounded(AnswerRequest(n, m, env), own)
  {
    if m.dst in n.table && n.table[m.dst].up {
      LiveBehindOwner(n, own, m.dst);
    }
    if m.dst in n.table {
      assert EntryOk(n.table[m.dst]);
    }
  }

  lemma LearnReverseBounded(n: Node, m: Msg, env: Env, own: Owner)
    requires m.Rreq? && Bounded(n, own) && MsgBounded(m, own)
    ensures Bounded(LearnReverse(n, m, env), own)
  {
  }

  lemma RecvRequestBounded(n: Node, m: Msg, env: Env, own: Owner)
    requires NodeOk(n) && m.Rreq? && MsgOk(m) && Even(own) && Bounded(n, own) && MsgBounded(m, own)
    requires RecvRequest(n, m, env).node.seqno <= own(n.index)
    ensures OutBounded(RecvRequest(n, m, env), own)
  {
    if m.src != n.index && !IdLookup(n.bcache, m.src, m.bcastId) {
      var n1 := LearnReverse(n, m, env);
      assert NodeOk(n1) && m.src in n1.table by { LearnReverseStep(n, m, env); }
      LearnReverseBounded(n, m, env, own);
      AnswerRequestBounded(n1, m, env, own);
    }
  }

  lemma RecvReplyBounded(n: Node, m: Msg, env: Env, own: Owner)
    requires NodeOk(n) && m.Rrep? && MsgOk(m) && Even(own) && Bounded(n, own) && MsgBounded(m, own)
    ensures OutBounded(RecvReply(n, m, env), own)
  {
    hide NodeOk, MsgOk, Bounded, OutBounded, PassReply, ForwardEntry, With, RtAdd;
    LearnForwardBounded(n, m, env, own);
    var n1 := RtAdd(n, m.dst);
    SilentBounded(n1, own);
    if Fresher(m.dstSeqno, m.hopCount, n1.table[m.dst]) {
      var n2 := With(n1, m.dst, ForwardEntry(n1.table[m.dst], m, env));
      SilentBounded(n2, own);
      if m.ipDst in n2.table { PassReplyBounded(n2, m, env, own); }
    }
  }

  lemma SilentBounded(n: Node, own: Owner)
    requires Bounded(n, own)
    ensures OutBounded(Out(n, []), own)
  {
  }

  lemma LearnForwardBounded(n: Node, m: Msg, env: Env, own: Owner)
    requires m.Rrep? && Bounded(n, own) && MsgBounded(m, own)
    ensures var n1 := RtAdd(n, m.dst);
            && m.dst in n1.table && Bounded(n1, own)
            && var n2 := With(n1, m.dst, ForwardEntry(n1.table[m.dst], m, env));
            m.dst in n2.table && Bounded(n2, own)
  {
  }

  lemma PassReplyBounded(n: Node, m: Msg, env: Env, own: Owner)
    requires m.Rrep? && m.dst in n.table && m.ipDst in n.table && Bounded(n, own) && MsgBounded(m, own)
    ensures OutBounded(PassReply(n, m, env), own)
  {
  }

  lemma {:induction false} LoseAllBounded(n: Node, sender: Addr, us: seq<Unreachable>, own: Owner)
    requires Bounded(n, own) && LostBounded(us, own)
    ensures var l := LoseAll(n, sender, us);
            Bounded(l.node, own) && LostBounded(l.lost, own) && l.node.seqno == n.seqno
    decreases |us|
  {
    if us != [] {
      var l := LoseOne(n, sender, us[0]);
      LoseAllBounded(l.node, sender, us[1..], own);
    }
  }

  lemma FailOneBounded(n: Node, id: Addr, d: Addr, own: Owner)
    requires NodeOk(n) && d in n.table && Even(own) && Bounded(n, own)
    ensures var l := FailOne(n, id, d);
            Bounded(l.node, own) && LostBounded(l.lost, own) && l.node.seqno == n.seqno
  {
    assert EntryOk(n.table[d]);
    if n.table[d].up {
      LiveBehindOwner(n, own, d);
    }
  }

  lemma {:induction false} FailAllBounded(n: Node, id: Addr, ds: seq<Addr>, own: Owner)
    requires NodeOk(n) && Even(own) && Bounded(n, own) && forall d | d in ds :: d in n.table
    ensures var l := FailAll(n, id, ds);
            Bounded(l.node, own) && LostBounded(l.lost, own) && l.node.seqno == n.seqno
    decreases |ds|
  {
    if ds != [] {
      FailOneBounded(n, id, ds[0], own);
      FailOneStep(n, id, ds[0]);
      FailAllBounded(FailOne(n, id, ds[0]).node, id, ds[1..], own);
    }
  }

  lemma HandleLinkFailureBounded(n: Node, id: Addr, own: Owner)
    requires NodeOk(n) && Even(own) && Bounded(n, own)
    ensures OutBounded(HandleLinkFailure(n, id), own)
  {
    FailAllBounded(n, id, n.dests, own);
  }

  lemma NbDeleteBounded(n: Node, id: Addr, own: Owner)
    requires NodeOk(n) && Even(own) && Bounded(n, own) && n.seqno + 2 <= own(n.index)
    ensures OutBounded(NbDelete(n, id), own)
  {
    hide NodeOk, Bounded, OutBounded, HandleLinkFailure, NbWithout;
    var n1 := n.(seqno := n.seqno + 2, nbrs := NbWithout(n.nbrs, id));
    LostNeighborOk(n, n1, own);
    HandleLinkFailureBounded(n1, id, own);
  }

  lemma LostNeighborOk(n: Node, n1: Node, own: Owner)
    requires NodeOk(n) && Bounded(n, own) && n1 == n.(seqno := n.seqno + 2, nbrs := n1.nbrs) && n1.seqno <= own(n.index)
    ensures NodeOk(n1) && Bounded(n1, own) && TableListed(n1)
  {
    SameTable(n, n1);
  }

  lemma PurgeOneBounded(n: Node, d: Addr, env: Env, own: Owner)
    requires NodeOk(n) && d in n.table && Even(own) && Bounded(n, own)
    requires PurgeOne(n, d, env).node.seqno <= own(n.index)
    ensures OutBounded(PurgeOne(n, d, env), own)
  {
    if n.table[d].up {
      LiveBehindOwner(n, own, d);
    } else if d in env.waiting {
      SendRequestBounded(n, d, env, own);
    }
  }

  lemma {:induction false} PurgeAllBounded(n: Node, ds: seq<Addr>, env: Env, own: Owner)
    requires NodeOk(n) && Even(own) && Bounded(n, own) && forall d | d in ds :: d in n.table
    requires PurgeAll(n, ds, env).node.seqno <= own(n.index)
    ensures OutBounded(PurgeAll(n, ds, env), own)
    decreases |ds|
  {
    if ds != [] {
      var o := PurgeOne(n, ds[0], env);
      PurgeOneStep(n, ds[0], env);
      PurgeAllStep(o.node, ds[1..], env);
      PurgeOneBounded(n, ds[0], env, own);
      PurgeAllBounded(o.node, ds[1..], env, own);
    }
  }

  lemma RtResolveBounded(n: Node, d: Addr, mine: bool, env: Env, own: Owner)
    requires NodeOk(n) && Even(own) && Bounded(n, own)
    requires RtResolve(n, d, mine, env).node.seqno <= own(n.index)
    ensures OutBounded(RtResolve(n, d, mine, env), own)
  {
    AddEntry(n, d);
    var n1 := RtAdd(n, d);
    if !n1.table[d].up && mine {
      SendRequestBounded(n1, d, env, own);
    }
  }

  // ---------- which requests a node sends ----------

  predicate OwnRequest(n: Node, n': Node, m: Msg) {
    m.Rreq? && m.src == m.sender && m.hopCount == 1 && n.bid <= m.bcastId < n'.bid
  }

  /** The handler leaves the broadcast-id cache alone and sends only its node's own requests, each with a
      new id of its own. */
  predicate OwnRequests(n: Node, o: Out) {
    && o.node.bcache == n.bcache && o.node.bid >= n.bid
    && (forall k | 0 <= k < |o.sent| && o.sent[k].Rreq? :: OwnRequest(n, o.node, o.sent[k]))
    && (forall j, k | 0 <= j < k < |o.sent| && o.sent[j].Rreq? && o.sent[k].Rreq? ::
          o.sent[j].bcastId < o.sent[k].bcastId)
  }

  /** The handler passes on at most the request `m`, and only one it did not have in its cache. */
  predicate PassesOn(n: Node, m: Msg, now: real, o: Out)
    requires m.Rreq?
  {
    && !IdLookup(n.bcache, m.src, m.bcastId) && m.src != n.index
    && o.node.bcache == IdInsert(n.bcache, m.src, m.bcastId, now) && o.node.bid == n.bid
    && |o.sent| <= 1
    && forall k | 0 <= k < |o.sent| && o.sent[k].Rreq? ::
         && o.sent[k].src == m.src && o.sent[k].bcastId == m.bcastId && o.sent[k].sender == n.index
         && o.sent[k].hopCount + o.sent[k].ttl == m.hopCount + m.ttl
  }

  lemma RecvRequestPasses(n: Node, m: Msg, env: Env)
    requires m.Rreq?
    ensures OwnRequests(n, RecvRequest(n, m, env)) || PassesOn(n, m, env.now, RecvRequest(n, m, env))
  {
  }

  lemma RecvReplyOwn(n: Node, m: Msg, env: Env)
    requires m.Rrep?
    ensures OwnRequests(n, RecvReply(n, m, env))
  {
  }

  lemma {:induction false} LoseAllCache(n: Node, sender: Addr, us: seq<Unreachable>)
    ensures var n' := LoseAll(n, sender, us).node; n'.bcache == n.bcache && n'.bid == n.bid
    decreases |us|
  {
    if us != [] { LoseAllCache(LoseOne(n, sender, us[0]).node, sender, us[1..]); }
  }

  lemma {:induction false} FailAllCache(n: Node, id: Addr, ds: seq<Addr>)
    requires forall d | d in ds :: d in n.table
    ensures var n' := FailAll(n, id, ds).node; n'.bcache == n.bcache && n'.bid == n.bid && n'.seqno == n.seqno
    decreases |ds|
  {
    if ds != [] { FailAllCache(FailOne(n, id, ds[0]).node, id, ds[1..]); }
  }

  lemma {:induction false} PurgeAllOwn(n: Node, ds: seq<Addr>, env: Env)
    requires forall d | d in ds :: d in n.table
    ensures OwnRequests(n, PurgeAll(n, ds, env))
    decreases |ds|
  {
    if ds != [] {
      var o := PurgeOne(n, ds[0], env);
      var r := PurgeAll(o.node, ds[1..], env);
      assert OwnRequests(n, o);
      PurgeAllOwn(o.node, ds[1..], env);
      forall k | 0 <= k < |o.sent + r.sent| && (o.sent + r.sent)[k].Rreq?
        ensures OwnRequest(n, r.node, (o.sent + r.sent)[k])
      {
        if k >= |o.sent| { assert OwnRequest(o.node, r.node, r.sent[k - |o.sent|]); }
      }
    }
  }

  /** Purging drops exactly the expired ids. */
  lemma {:induction false} IdPurgeKeeps(cache: seq<BcastId>, now: real, b: BcastId)
    ensures b in IdPurge(cache, now) <==> b in cache && b.expire > now
    decreases |cache|
  {
    if cache != [] {
      IdPurgeKeeps(cache[1..], now, b);
      assert cache == [cache[0]] + cache[1..];
    }
  }
}
