/** How far AOMDV sequence numbers run ahead of the node that owns them, in tables and in packets. */
module AomdvBounds {
  import opened RoutingBase
  import opened AomdvPaths
  import opened AomdvNode
  import opened AomdvProps

  type Owner = Addr -> nat

  ghost predicate Even(own: Owner) {
    forall d :: own(d) % 2 == 0
  }

  predicate EntryBounded(e: Entry, limit: nat) {
    e.seqno <= limit + 1 && e.highest <= limit + 1
  }

  ghost predicate Bounded(n: Node, own: Owner) {
    n.seqno <= own(n.index) && forall d | d in n.table :: EntryBounded(n.table[d], own(d))
  }

  ghost predicate LostBounded(us: seq<Unreachable>, own: Owner) {
    forall k | 0 <= k < |us| :: us[k].seqno <= own(us[k].dst) + 1
  }

  ghost predicate MsgBounded(m: Msg, own: Owner) {
    match m
    case Rreq(_, _, _, _, _, dst, dstSeqno, src, srcSeqno) => dstSeqno <= own(dst) + 1 && srcSeqno <= own(src)
    case Rrep(_, _, _, _, _, _, _, dst, dstSeqno, _) => dstSeqno <= own(dst)
    case Rerr(_, us) => LostBounded(us, own)
    case Hello(sender, seqno) => seqno <= own(sender)
  }

  ghost predicate OutBounded(o: Out, own: Owner) {
    Bounded(o.node, own) && forall k | 0 <= k < |o.sent| :: MsgBounded(o.sent[k], own)
  }

  lemma LiveBehindOwner(n: Node, own: Owner, d: Addr)
    requires NodeOk(n) && Even(own) && Bounded(n, own) && d in n.table && n.table[d].up
    ensures n.table[d].seqno <= own(d)
  {
    assert EntryOk(n.table[d], n.maxPaths) && EntryBounded(n.table[d], own(d)) && own(d) % 2 == 0;
  }

  lemma ChangeBounded(n: Node, d: Addr, e: Entry, own: Owner)
    requires Bounded(n, own) && EntryBounded(e, own(d))
    ensures Bounded(With(n, d, e), own)
  {
  }

  lemma SendRequestBounded(n: Node, d: Addr, env: Env, own: Owner)
    requires d in n.table && Bounded(n, own) && SendRequest(n, d, env).node.seqno <= own(n.index)
    ensures OutBounded(SendRequest(n, d, env), own)
  {
    assert EntryBounded(n.table[d], own(d));
  }

  lemma OfferedBounded(n: Node, e: Entry, seqno: nat, p: Path, limit: nat)
    requires p.hopcount >= 1 && EntryBounded(e, limit) && seqno <= limit
    ensures EntryBounded(Offered(n, e, seqno, p), limit)
  {
  }

  lemma AnswerFromTableBounded(n: Node, m: Msg, env: Env, own: Owner)
    requires NodeOk(n) && m.Rreq? && m.dst in n.table && n.table[m.dst].up && Cached(n.bcache, m.src, m.bcastId)
    requires Even(own) && Bounded(n, own)
    ensures OutBounded(AnswerFromTable(n, m, env), own)
  {
    LiveBehindOwner(n, own, m.dst);
    hide NodeOk, MaxHopcount, IdGet;
    assert EntryBounded(n.table[m.dst], own(m.dst));
  }

  lemma PassRequestBounded(n: Node, m: Msg, own: Owner)
    requires m.Rreq? && m.src in n.table && Bounded(n, own) && MsgBounded(m, own)
    ensures OutBounded(PassRequest(n, m), own)
  {
    hide MaxHopcount;
    assert EntryBounded(n.table[m.src], own(m.src));
    if m.dst in n.table { assert EntryBounded(n.table[m.dst], own(m.dst)); }
  }

  lemma AnswerRequestBounded(n: Node, m: Msg, seen: bool, inHand: bool, env: Env, own: Owner)
    requires NodeOk(n) && m.Rreq? && m.src in n.table && Cached(n.bcache, m.src, m.bcastId)
    requires Even(own) && Bounded(n, own) && MsgBounded(m, own)
    requires AnswerRequest(n, m, seen, inHand, env).node.seqno <= own(n.index)
    ensures OutBounded(AnswerRequest(n, m, seen, inHand, env), own)
  {
    hide NodeOk, PassRequest, AnswerFromTable, IdGet;
    if m.dst != n.index {
      if m.dst in n.table && n.table[m.dst].up && n.table[m.dst].seqno >= m.dstSeqno {
        if inHand && !Counted(n.bcache, m.src, m.bcastId) { AnswerFromTableBounded(n, m, env, own); }
      } else if !seen {
        PassRequestBounded(n, m, own);
      }
    }
  }

  lemma NotedBounded(n: Node, m: Msg, env: Env, own: Owner)
    requires m.Rreq? && Bounded(n, own)
    ensures var n1 := Noted(n, m, env);
            Bounded(n1, own) && EntryBounded(n1.table[m.src], own(m.src)) && Cached(n1.bcache, m.src, m.bcastId)
  {
  }

  lemma SettledBounded(e: Entry, d: Addr, env: Env, limit: nat)
    requires EntryBounded(e, limit)
    ensures EntryBounded(Settled(e, d, env), limit)
  {
  }

  lemma RecvRequestBounded(n: Node, m: Msg, env: Env, own: Owner)
    requires NodeOk(n) && m.Rreq? && MsgOk(m) && Even(own) && Bounded(n, own) && MsgBounded(m, own)
    requires RecvRequest(n, m, env).node.seqno <= own(n.index)
    ensures OutBounded(RecvRequest(n, m, env), own)
  {
    if m.src != n.index {
      var n1 := Noted(n, m, env);
      NotedBounded(n, m, env, own);
      var r := UpdateReverse(n1, n1.table[m.src], m, FirstHop(n1, m), env);
      OfferedBounded(n1, n1.table[m.src], m.srcSeqno, ReversePath(m, FirstHop(n1, m), env), own(m.src));
      hide NodeOk, Bounded, EntryBounded, OutBounded, AnswerRequest, Noted, Offered, Settled, Cached;
      if r.goOn {
        var n3 := With(n1, m.src, Settled(r.entry, m.src, env));
        SettledBounded(r.entry, m.src, env, own(m.src));
        ChangeBounded(n1, m.src, n3.table[m.src], own);
        ReverseNode(n, m, env);
        AnswerRequestBounded(n3, m, Cached(n.bcache, m.src, m.bcastId), r.inHand, env, own);
      } else {
        ChangeBounded(n1, m.src, r.entry, own);
        Silent(With(n1, m.src, r.entry), own);
      }
    }
  }

  lemma Silent(n: Node, own: Owner)
    requires Bounded(n, own)
    ensures OutBounded(Out(n, []), own)
  {
  }

  /** The node between updating the reverse route and answering. */
  lemma ReverseNode(n: Node, m: Msg, env: Env)
    requires NodeOk(n) && m.Rreq? && MsgOk(m)
    ensures var n1 := Noted(n, m, env);
            NodeOk(With(n1, m.src, Settled(UpdateReverse(n1, n1.table[m.src], m, FirstHop(n1, m), env).entry, m.src, env)))
  {
    var n1 := Noted(n, m, env);
    hide NodeOk, StepOk, Learned, UpdateReverse, Settled, EntryOf;
    NotedStep(n, m, env);
    NotedTable(n, m, env);
    UpdateReverseOk(n1, m, FirstHop(n1, m), env);
    LearnSettled(n, m, n1, m.src, UpdateReverse(n1, n1.table[m.src], m, FirstHop(n1, m), env).entry, env);
  }

  lemma RecvReplyBounded(n: Node, m: Msg, env: Env, own: Owner)
    requires m.Rrep? && Bounded(n, own) && MsgBounded(m, own)
    ensures OutBounded(RecvReply(n, m, env), own)
  {
    if m.dst != n.index {
      var n1 := RtAdd(n, m.dst);
      assert Bounded(n1, own);
      var f := UpdateForward(n1, n1.table[m.dst], m, env);
      assert EntryBounded(n1.table[m.dst], own(m.dst));
      OfferedBounded(n1, n1.table[m.dst], m.dstSeqno, ForwardPath(m, env), own(m.dst));
      ChangeBounded(n1, m.dst, f.entry, own);
      if f.goOn {
        var n3 := With(n1, m.dst, Settled(f.entry, m.dst, env));
        ChangeBounded(n1, m.dst, n3.table[m.dst], own);
        hide UpdateForward, Settled;
        RelayReplyBounded(n3, m, env, own);
      }
    }
  }

  lemma RelayReplyBounded(n: Node, m: Msg, env: Env, own: Owner)
    requires m.Rrep? && m.dst in n.table && Bounded(n, own) && MsgBounded(m, own)
    ensures OutBounded(RelayReply(n, m, env), own)
  {
    hide MaxHopcount, IdGet, Counted;
    assert EntryBounded(n.table[m.dst], own(m.dst));
    if m.ipDst in n.table { assert EntryBounded(n.table[m.ipDst], own(m.ipDst)); }
  }

  lemma LoseOneBounded(n: Node, sender: Addr, u: Unreachable, own: Owner)
    requires Bounded(n, own) && u.seqno <= own(u.dst) + 1
    ensures var l := LoseOne(n, sender, u);
            Bounded(l.node, own) && LostBounded(l.lost, own) && l.node.seqno == n.seqno && l.node.bcache == n.bcache
  {
    hide Without;
    if u.dst in n.table { assert EntryBounded(n.table[u.dst], own(u.dst)); }
  }

  lemma {:induction false} LoseAllBounded(n: Node, sender: Addr, us: seq<Unreachable>, own: Owner)
    requires Bounded(n, own) && LostBounded(us, own)
    ensures var l := LoseAll(n, sender, us);
            Bounded(l.node, own) && LostBounded(l.lost, own) && l.node.seqno == n.seqno
    decreases |us|
  {
    if us != [] {
      LoseOneBounded(n, sender, us[0], own);
      LoseAllBounded(LoseOne(n, sender, us[0]).node, sender, us[1..], own);
    }
  }

  lemma FailOneBounded(n: Node, id: Addr, d: Addr, own: Owner)
    requires NodeOk(n) && d in n.table && Even(own) && Bounded(n, own)
    ensures var l := FailOne(n, id, d);
            Bounded(l.node, own) && LostBounded(l.lost, own) && l.node.seqno == n.seqno
  {
    assert EntryBounded(n.table[d], own(d));
    if n.table[d].up { LiveBehindOwner(n, own, d); }
    hide NodeOk, Without;
  }

  lemma {:induction false} FailAllBounded(n: Node, id: Addr, ds: seq<Addr>, own: Owner)
    requires NodeOk(n) && Even(own) && Bounded(n, own) && forall d | d in ds :: d in n.table
    ensures var l := FailAll(n, id, ds);
            Bounded(l.node, own) && LostBounded(l.lost, own) && l.node.seqno == n.seqno
    decreases |ds|
  {
    if ds != [] {
      FailOneBounded(n, id, ds[0], own);
      FailOneStep(n, id, ds[0]);
      FailAllBounded(FailOne(n, id, ds[0]).node, id, ds[1..], own);
    }
  }

  lemma HandleLinkFailureBounded(n: Node, id: Addr, own: Owner)
    requires NodeOk(n) && Even(own) && Bounded(n, own)
    ensures OutBounded(HandleLinkFailure(n, id), own)
  {
    FailAllBounded(n, id, n.dests, own);
    hide NodeOk, Bounded, LostBounded, OutBounded, FailAll, SendError;
    ErrorBounded(FailAll(n, id, n.dests), own);
  }

  lemma {:induction false} SalvageAllQuiet(n: Node, ps: seq<Stuck>, now: real)
    ensures var n' := SalvageAll(n, ps, now);
            n'.seqno == n.seqno && n'.bid == n.bid && n'.bcache == n.bcache && n'.index == n.index
    decreases |ps|
  {
    if ps != [] { SalvageAllQuiet(SalvageOne(n, ps[0], now), ps[1..], now); }
  }

  lemma {:induction false} SalvageAllBounded(n: Node, ps: seq<Stuck>, now: real, own: Owner)
    requires Bounded(n, own)
    ensures Bounded(SalvageAll(n, ps, now), own)
    decreases |ps|
  {
    if ps != [] { SalvageAllBounded(SalvageOne(n, ps[0], now), ps[1..], now, own); }
  }

  lemma NbDeleteSeqno(n: Node, id: Addr, stuck: seq<Stuck>, now: real)
    requires Listed(n, n.dests)
    ensures NbDelete(n, id, stuck, now).node.seqno == n.seqno + 2
  {
    FailAllSeqno(ForgetNeighbor(n, id), id, n.dests);
    SalvageAllQuiet(HandleLinkFailure(ForgetNeighbor(n, id), id).node, stuck, now);
  }

  lemma NbDeleteBounded(n: Node, id: Addr, stuck: seq<Stuck>, now: real, own: Owner)
    requires NodeOk(n) && Even(own) && Bounded(n, own) && n.seqno + 2 <= own(n.index)
    ensures OutBounded(NbDelete(n, id, stuck, now), own)
  {
    hide NodeOk, StepOk, Bounded, HandleLinkFailure;
    var n1 := ForgetNeighbor(n, id);
    LostNeighborOk(n, n1, own);
    HandleLinkFailureBounded(n1, id, own);
    SalvageAllBounded(HandleLinkFailure(n1, id).node, stuck, now, own);
  }

  lemma LostNeighborOk(n: Node, n1: Node, own: Owner)
    requires NodeOk(n) && Bounded(n, own) && n1 == n.(seqno := n.seqno + 2, nbrs := n1.nbrs) && n1.seqno <= own(n.index)
    ensures NodeOk(n1) && Bounded(n1, own) && Listed(n1, n1.dests)
  {
  }

  lemma ErrorBounded(l: Losses, own: Owner)
    requires Bounded(l.node, own) && LostBounded(l.lost, own)
    ensures OutBounded(SendError(l), own)
  {
  }

  lemma {:induction false} FailAllSeqno(n: Node, id: Addr, ds: seq<Addr>)
    requires forall d | d in ds :: d in n.table
    ensures var n' := FailAll(n, id, ds).node;
            n'.seqno == n.seqno && n'.bcache == n.bcache && n'.index == n.index
    decreases |ds|
  {
    if ds != [] { FailAllSeqno(FailOne(n, id, ds[0]).node, id, ds[1..]); }
  }

  lemma PurgeOneBounded(n: Node, d: Addr, env: Env, own: Owner)
    requires NodeOk(n) && d in n.table && Even(own) && Bounded(n, own)
    requires PurgeOne(n, d, env).node.seqno <= own(n.index)
    ensures OutBounded(PurgeOne(n, d, env), own)
  {
    assert EntryBounded(n.table[d], own(d)) && own(d) % 2 == 0;
    if n.table[d].up {
      LiveBehindOwner(n, own, d);
      hide NodeOk, Unexpired, Bounded, MaxHopcount;
      ChangeBounded(n, d, PurgeOne(n, d, env).node.table[d], own);
    } else if d in env.waiting {
      hide NodeOk, SendRequest;
      SendRequestBounded(n, d, env, own);
    }
  }

  lemma {:induction false} PurgeAllBounded(n: Node, ds: seq<Addr>, env: Env, own: Owner)
    requires NodeOk(n) && Even(own) && Bounded(n, own) && forall d | d in ds :: d in n.table
    requires PurgeAll(n, ds, env).node.seqno <= own(n.index)
    ensures OutBounded(PurgeAll(n, ds, env), own)
    decreases |ds|
  {
    if ds != [] {
      var o := PurgeOne(n, ds[0], env);
      PurgeOneStep(n, ds[0], env);
      PurgeAllStep(o.node, ds[1..], env);
      PurgeOneBounded(n, ds[0], env, own);
      PurgeAllBounded(o.node, ds[1..], env, own);
    }
  }

  lemma RtResolveBounded(n: Node, d: Addr, mine: bool, env: Env, own: Owner)
    requires Bounded(n, own) && RtResolve(n, d, mine, env).node.seqno <= own(n.index)
    ensures OutBounded(RtResolve(n, d, mine, env), own)
  {
    var n1 := RtAdd(n, d);
    assert Bounded(n1, own) && EntryBounded(n1.table[d], own(d));
    if !n1.table[d].up && mine { SendRequestBounded(n1, d, env, own); }
  }
}
