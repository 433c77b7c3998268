/** What every AODV handler keeps at the node that runs it.  A step is described without reference to the
    rest of the network: entries only get fresher, a changed route is the one the received packet offers,
    and every packet sent offers no better a route than the sender now holds. */
module AodvProps {
  import opened RoutingBase
  import opened AodvNode

  datatype Heard = Nothing | Packet(msg: Msg)

  // ---------- what a single node keeps ----------

  /** RTF_UP goes with a finite hop count and an even sequence number, RTF_DOWN with an odd one or 0. */
  predicate EntryOk(e: Entry) {
    && (e.up <==> e.hops.Fin?)
    && (if e.up then e.seqno % 2 == 0 && e.seqno >= 2 && e.hops.n >= 1 else e.seqno % 2 == 1 || e.seqno == 0)
    && e.lastHops.Num() >= 1
    && e.reqLastTtl >= 0
  }

  ghost predicate NodeOk(n: Node) {
    && n.seqno % 2 == 0 && n.seqno >= 2
    && (forall d :: d in n.dests <==> d in n.table)
    && (forall j, k | 0 <= j < k < |n.dests| :: n.dests[j] != n.dests[k])
    && (forall d | d in n.table :: EntryOk(n.table[d]))
  }

  predicate LostOk(us: seq<Unreachable>) {
    forall k | 0 <= k < |us| :: us[k].seqno % 2 == 1 || us[k].seqno == 0
  }

  predicate MsgOk(m: Msg) {
    match m
    case Rreq(_, ttl, hopCount, _, _, _, _, srcSeqno) =>
      srcSeqno % 2 == 0 && srcSeqno >= 2 && hopCount >= 1 && ttl >= 1 && hopCount + ttl <= NETWORK_DIAMETER + 1
    case Rrep(_, _, _, ttl, hopCount, _, dstSeqno, _) => dstSeqno % 2 == 0 && dstSeqno >= 2 && hopCount >= 1 && ttl >= 1
    case Rerr(_, us) => LostOk(us)
    case Hello(_, _) => true
  }

  // ---------- the freshness order ----------

  /** `n` holds a route to `d` at least as fresh as (seqno, hops), or is `d` itself. */
  predicate AtLeast(n: Node, d: Addr, seqno: nat, hops: nat) {
    || n.index == d
    || (d in n.table && (|| n.table[d].seqno > seqno
                         || (n.table[d].seqno == seqno && n.table[d].hops.Fin? && n.table[d].hops.n <= hops)))
  }

  predicate EntryEvolves(e: Entry, e': Entry) {
    e'.seqno > e.seqno || (e'.seqno == e.seqno && (e'.hops == e.hops || e'.hops.Below(e.hops)))
  }

  predicate Evolves(n: Node, n': Node) {
    && n'.index == n.index && n'.seqno >= n.seqno && n'.bid >= n.bid
    && (forall d | d in n.table :: d in n'.table && EntryEvolves(n.table[d], n'.table[d]))
  }

  /** The packet offers a route to `d` with this sequence number and hop count. */
  predicate Offers(m: Msg, d: Addr, seqno: nat, hops: nat) {
    || (m.Rreq? && m.src == d && m.srcSeqno == seqno && m.hopCount == hops)
    || (m.Rrep? && m.dst == d && m.dstSeqno == seqno && m.hopCount == hops)
  }

  predicate SameRoute(e: Entry, e': Entry) {
    e'.up == e.up && e'.seqno == e.seqno && e'.hops == e.hops && e'.nexthop == e.nexthop
  }

  /** Every live route was held before, or is the one the packet offers through its sender. */
  predicate RoutesFrom(n: Node, h: Heard, n': Node) {
    forall d | d in n'.table && n'.table[d].up && n'.table[d].hops.Fin? ::
      || (d in n.table && SameRoute(n.table[d], n'.table[d]))
      || (h.Packet? && Offers(h.msg, d, n'.table[d].seqno, n'.table[d].hops.n) && n'.table[d].nexthop == h.msg.sender)
  }

  /** What a packet offers is one hop worse than a route its sender holds. */
  predicate Honest(n: Node, m: Msg) {
    && m.sender == n.index
    && (m.Rreq? ==> m.hopCount >= 1 && AtLeast(n, m.src, m.srcSeqno, m.hopCount - 1))
    && (m.Rrep? ==> m.hopCount >= 1 && AtLeast(n, m.dst, m.dstSeqno, m.hopCount - 1))
  }

  predicate SentOk(n: Node, sent: seq<Msg>) {
    forall k | 0 <= k < |sent| :: MsgOk(sent[k]) && Honest(n, sent[k])
  }

  ghost predicate StepOk(n: Node, h: Heard, o: Out) {
    && NodeOk(o.node)
    && Evolves(n, o.node)
    && RoutesFrom(n, h, o.node)
    && SentOk(o.node, o.sent)
  }

  // ---------- the order is kept by steps ----------

  lemma AtLeastEvolves(n: Node, n': Node, d: Addr, seqno: nat, hops: nat)
    requires Evolves(n, n') && AtLeast(n, d, seqno, hops)
    ensures AtLeast(n', d, seqno, hops)
  {
    if n.index != d {
      assert EntryEvolves(n.table[d], n'.table[d]);
    }
  }

  lemma SentEvolves(n: Node, n': Node, sent: seq<Msg>)
    requires Evolves(n, n') && SentOk(n, sent)
    ensures SentOk(n', sent)
  {
    forall k | 0 <= k < |sent| ensures Honest(n', sent[k]) {
      var m := sent[k];
      assert Honest(n, m);
      if m.Rreq? { AtLeastEvolves(n, n', m.src, m.srcSeqno, m.hopCount - 1); }
      if m.Rrep? { AtLeastEvolves(n, n', m.dst, m.dstSeqno, m.hopCount - 1); }
    }
  }

  lemma EvolvesTrans(a: Node, b: Node, c: Node)
    requires Evolves(a, b) && Evolves(b, c)
    ensures Evolves(a, c)
  {
    forall d | d in a.table ensures d in c.table && EntryEvolves(a.table[d], c.table[d]) {
      assert EntryEvolves(a.table[d], b.table[d]) && EntryEvolves(b.table[d], c.table[d]);
    }
  }

  /** Two steps in a row, the second without a packet. */
  lemma StepThen(n: Node, h: Heard, o: Out, r: Out)
    requires StepOk(n, h, o) && StepOk(o.node, Nothing, r)
    ensures StepOk(n, h, Out(r.node, o.sent + r.sent))
  {
    EvolvesTrans(n, o.node, r.node);
    SentEvolves(o.node, r.node, o.sent);
  }

  lemma SendAfter(n: Node, h: Heard, n': Node, sent: seq<Msg>)
    requires StepOk(n, h, Out(n', [])) && SentOk(n', sent)
    ensures StepOk(n, h, Out(n', sent))
  {
  }

  lemma WithPacket(n: Node, h: Heard, o: Out)
    requires StepOk(n, Nothing, o)
    ensures StepOk(n, h, o)
  {
  }

  /** A step that leaves the route table alone. */
  lemma SameTable(n: Node, n': Node)
    requires NodeOk(n) && n'.table == n.table && n'.dests == n.dests && n'.index == n.index
    requires n'.seqno % 2 == 0 && n'.seqno >= n.seqno && n'.bid >= n.bid
    ensures StepOk(n, Nothing, Out(n', []))
  {
  }

  /** Any change to one entry that keeps EntryOk, the order, and the origin of routes is a step. */
  lemma ChangeEntry(n: Node, h: Heard, d: Addr, e': Entry)
    requires NodeOk(n) && d in n.table && EntryOk(e') && EntryEvolves(n.table[d], e')
    requires e'.up ==> || SameRoute(n.table[d], e')
                       || (h.Packet? && Offers(h.msg, d, e'.seqno, e'.hops.n) && e'.nexthop == h.msg.sender)
    ensures StepOk(n, h, Out(With(n, d, e'), []))
  {
    var n' := With(n, d, e');
    assert n'.table.Keys == n.table.Keys;
  }

  lemma AddEntry(n: Node, d: Addr)
    requires NodeOk(n)
    ensures StepOk(n, Nothing, Out(RtAdd(n, d), [])) && d in RtAdd(n, d).table
  {
    if d !in n.table {
      var n' := RtAdd(n, d);
      assert n'.dests == [d] + n.dests;
      forall x ensures x in n'.dests <==> x in n'.table { }
      forall j, k | 0 <= j < k < |n'.dests| ensures n'.dests[j] != n'.dests[k] {
        if j == 0 { assert n'.dests[k] == n.dests[k - 1]; }
      }
    }
  }

  // ---------- handlers ----------

  lemma SendRequestStep(n: Node, d: Addr, env: Env)
    requires NodeOk(n) && d in n.table
    ensures StepOk(n, Nothing, SendRequest(n, d, env))
  {
    hide NodeOk, StepOk, SearchTimeout;
    EntryFits(n, d);
    var o := SendRequest(n, d, env);
    var n1 := With(n, d, o.node.table[d]);
    ChangeEntry(n, Nothing, d, o.node.table[d]);
    if o.sent != [] {
      StillOk(n, Nothing, n1);
      SameTable(n1, o.node);
      StepThen(n, Nothing, Out(n1, []), Out(o.node, []));
      SendAfter(n, Nothing, o.node, o.sent);
    } else {
      assert o.node.table == n1.table;
    }
  }

  lemma EntryFits(n: Node, d: Addr)
    requires NodeOk(n) && d in n.table
    ensures EntryOk(n.table[d]) && n.seqno % 2 == 0 && n.seqno >= 2
  {
  }

  /** A search is never the "first time" one with TTL_START: the last hop count starts at INFINITY2. */
  lemma RingNeverStarts(n: Node, d: Addr)
    requires NodeOk(n) && d in n.table
    ensures Max(n.table[d].reqLastTtl, n.table[d].lastHops.Num()) != 0
    ensures SearchTtl(Max(n.table[d].reqLastTtl, n.table[d].lastHops.Num())) <= NETWORK_DIAMETER
  {
    assert EntryOk(n.table[d]);
  }

  /** Precursor and expiry changes leave every route as it was. */
  lemma TouchEntry(n: Node, d: Addr, e': Entry)
    requires NodeOk(n) && d in n.table && e'.lastHops == n.table[d].lastHops && e'.reqLastTtl == n.table[d].reqLastTtl
    requires SameRoute(n.table[d], e')
    ensures StepOk(n, Nothing, Out(With(n, d, e'), []))
  {
    assert EntryOk(n.table[d]);
    ChangeEntry(n, Nothing, d, e');
  }

  lemma TouchTwice(n: Node, a: Addr, ea: Entry, b: Addr, eb: Entry)
    requires NodeOk(n) && a in n.table && b in n.table
    requires ea.lastHops == n.table[a].lastHops && ea.reqLastTtl == n.table[a].reqLastTtl && SameRoute(n.table[a], ea)
    requires var e := With(n, a, ea).table[b];
             eb.lastHops == e.lastHops && eb.reqLastTtl == e.reqLastTtl && SameRoute(e, eb)
    ensures StepOk(n, Nothing, Out(With(With(n, a, ea), b, eb), []))
  {
    TouchEntry(n, a, ea);
    TouchEntry(With(n, a, ea), b, eb);
    StepThen(n, Nothing, Out(With(n, a, ea), []), Out(With(With(n, a, ea), b, eb), []));
  }

  lemma AnswerRequestStep(n: Node, m: Msg, env: Env)
    requires NodeOk(n) && m.Rreq? && MsgOk(m) && m.src in n.table && m.src != n.index
    requires AtLeast(n, m.src, m.srcSeqno, m.hopCount)
    ensures StepOk(n, Nothing, AnswerRequest(n, m, env))
  {
    var o := AnswerRequest(n, m, env);
    if m.dst == n.index {
      SameTable(n, o.node);
    } else if m.dst in n.table && n.table[m.dst].hops.Fin? && n.table[m.dst].seqno >= m.dstSeqno {
      assert EntryOk(n.table[m.dst]);
      assert AtLeast(n, m.dst, n.table[m.dst].seqno, n.table[m.dst].hops.n);
      var rt := n.table[m.dst];
      var ea := rt.(precursors := PcInsert(rt.precursors, n.table[m.src].nexthop));
      TouchTwice(n, m.dst, ea, m.src, o.node.table[m.src]);
      assert o.node == With(With(n, m.dst, ea), m.src, o.node.table[m.src]);
      AtLeastEvolves(n, o.node, m.dst, n.table[m.dst].seqno, n.table[m.dst].hops.n);
      SendAfter(n, Nothing, o.node, o.sent);
    } else {
      SameTable(n, o.node);
    }
  }

  lemma LearnReverseStep(n: Node, m: Msg, env: Env)
    requires NodeOk(n) && m.Rreq? && MsgOk(m) && m.src != n.index
    ensures var n' := LearnReverse(n, m, env);
            StepOk(n, Packet(m), Out(n', [])) && m.src in n'.table && AtLeast(n', m.src, m.srcSeqno, m.hopCount)
  {
    var n0 := n.(bcache := IdInsert(n.bcache, m.src, m.bcastId, env.now));
    SameTable(n, n0);
    AddEntry(n0, m.src);
    var n1 := RtAdd(n0, m.src);
    var e, e' := n1.table[m.src], ReverseEntry(n1.table[m.src], m, env);
    assert EntryOk(e);
    ChangeEntry(n1, Packet(m), m.src, e');
    EvolvesTrans(n0, n1, With(n1, m.src, e'));
  }

  lemma RecvRequestStep(n: Node, m: Msg, env: Env)
    requires NodeOk(n) && m.Rreq? && MsgOk(m)
    ensures StepOk(n, Packet(m), RecvRequest(n, m, env))
  {
    if m.src != n.index && !IdLookup(n.bcache, m.src, m.bcastId) {
      LearnReverseStep(n, m, env);
      var n1 := LearnReverse(n, m, env);
      AnswerRequestStep(n1, m, env);
      StepThen(n, Packet(m), Out(n1, []), AnswerRequest(n1, m, env));
      assert [] + RecvRequest(n, m, env).sent == RecvRequest(n, m, env).sent;
    }
  }

  lemma PassReplyStep(n: Node, m: Msg, env: Env)
    requires NodeOk(n) && m.Rrep? && MsgOk(m) && m.dst in n.table && m.ipDst in n.table
    requires AtLeast(n, m.dst, m.dstSeqno, m.hopCount)
    ensures StepOk(n, Nothing, PassReply(n, m, env))
  {
    hide NodeOk, EntryOk, StepOk, PcInsert, Evolves, RoutesFrom;
    var o := PassReply(n, m, env);
    if m.ttl - 1 == 0 {
      TouchEntry(n, m.dst, o.node.table[m.dst]);
    } else {
      var ea := n.table[m.ipDst].(expire := env.now + ACTIVE_ROUTE_TIMEOUT);
      TouchTwice(n, m.ipDst, ea, m.dst, o.node.table[m.dst]);
      assert o.node == With(With(n, m.ipDst, ea), m.dst, o.node.table[m.dst]);
      AtLeastAfter(n, o.node, m.dst, m.dstSeqno, m.hopCount);
      SendAfter(n, Nothing, o.node, o.sent);
    }
  }

  lemma AtLeastAfter(n: Node, n': Node, d: Addr, seqno: nat, hops: nat)
    requires StepOk(n, Nothing, Out(n', [])) && AtLeast(n, d, seqno, hops)
    ensures AtLeast(n', d, seqno, hops)
  {
    AtLeastEvolves(n, n', d, seqno, hops);
  }

  lemma LearnForward(n: Node, m: Msg, env: Env)
    requires NodeOk(n) && m.Rrep? && MsgOk(m)
    requires var n1 := RtAdd(n, m.dst); Fresher(m.dstSeqno, m.hopCount, n1.table[m.dst])
    ensures var n1 := RtAdd(n, m.dst);
            var n2 := With(n1, m.dst, ForwardEntry(n1.table[m.dst], m, env));
            StepOk(n, Packet(m), Out(n2, [])) && AtLeast(n2, m.dst, m.dstSeqno, m.hopCount) && m.dst in n2.table
  {
    AddEntry(n, m.dst);
    var n1 := RtAdd(n, m.dst);
    var e := n1.table[m.dst];
    assert EntryOk(e);
    var e' := ForwardEntry(e, m, env);
    ChangeEntry(n1, Packet(m), m.dst, e');
    EvolvesTrans(n, n1, With(n1, m.dst, e'));
  }

  lemma StillOk(n: Node, h: Heard, n': Node)
    requires StepOk(n, h, Out(n', []))
    ensures NodeOk(n') && n'.index == n.index
  {
  }

  lemma RecvReplyStep(n: Node, m: Msg, env: Env)
    requires NodeOk(n) && m.Rrep? && MsgOk(m)
    ensures StepOk(n, Packet(m), RecvReply(n, m, env))
  {
    hide NodeOk, StepOk, MsgOk, AtLeast, PassReply, ForwardEntry, With, RtAdd;
    var n1 := RtAdd(n, m.dst);
    AddEntry(n, m.dst);
    if Fresher(m.dstSeqno, m.hopCount, n1.table[m.dst]) {
      LearnForward(n, m, env);
      var n2 := With(n1, m.dst, ForwardEntry(n1.table[m.dst], m, env));
      if m.ipDst != n2.index && m.ipDst in n2.table && n2.table[m.ipDst].hops.Fin? {
        StillOk(n, Packet(m), n2);
        PassReplyStep(n2, m, env);
        StepThen(n, Packet(m), Out(n2, []), PassReply(n2, m, env));
        assert [] + PassReply(n2, m, env).sent == PassReply(n2, m, env).sent;
      }
    } else {
      WithPacket(n, Packet(m), Out(n1, []));
    }
  }

  lemma LoseOneStep(n: Node, sender: Addr, u: Unreachable)
    requires NodeOk(n) && (u.seqno % 2 == 1 || u.seqno == 0)
    ensures var l := LoseOne(n, sender, u); StepOk(n, Nothing, Out(l.node, [])) && LostOk(l.lost)
  {
    var l := LoseOne(n, sender, u);
    if u.dst in n.table {
      assert EntryOk(n.table[u.dst]);
      ChangeEntry(n, Nothing, u.dst, l.node.table[u.dst]);
      if l.node == n { } else { assert l.node == With(n, u.dst, l.node.table[u.dst]); }
    }
  }

  lemma {:induction false} LoseAllStep(n: Node, sender: Addr, us: seq<Unreachable>)
    requires NodeOk(n) && LostOk(us)
    ensures var l := LoseAll(n, sender, us); StepOk(n, Nothing, Out(l.node, [])) && LostOk(l.lost)
    decreases |us|
  {
    if us != [] {
      var l := LoseOne(n, sender, us[0]);
      LoseOneStep(n, sender, us[0]);
      LoseAllStep(l.node, sender, us[1..]);
      StepThen(n, Nothing, Out(l.node, []), Out(LoseAll(l.node, sender, us[1..]).node, []));
    }
  }

  lemma RecvErrorStep(n: Node, m: Msg)
    requires NodeOk(n) && m.Rerr? && MsgOk(m)
    ensures StepOk(n, Nothing, RecvError(n, m))
  {
    LoseAllStep(n, m.sender, m.unreachable);
  }

  lemma FailOneStep(n: Node, id: Addr, d: Addr)
    requires NodeOk(n) && d in n.table
    ensures var l := FailOne(n, id, d); StepOk(n, Nothing, Out(l.node, [])) && LostOk(l.lost)
  {
    hide NodeOk, StepOk, PcWithout;
    EntryFits(n, d);
    ChangeEntry(n, Nothing, d, FailOne(n, id, d).node.table[d]);
  }

  lemma {:induction false} FailAllStep(n: Node, id: Addr, ds: seq<Addr>)
    requires NodeOk(n) && forall d | d in ds :: d in n.table
    ensures var l := FailAll(n, id, ds); StepOk(n, Nothing, Out(l.node, [])) && LostOk(l.lost)
    decreases |ds|
  {
    if ds != [] {
      var l := FailOne(n, id, ds[0]);
      FailOneStep(n, id, ds[0]);
      FailAllStep(l.node, id, ds[1..]);
      StepThen(n, Nothing, Out(l.node, []), Out(FailAll(l.node, id, ds[1..]).node, []));
    }
  }

  lemma HandleLinkFailureStep(n: Node, id: Addr)
    requires NodeOk(n)
    ensures StepOk(n, Nothing, HandleLinkFailure(n, id))
  {
    FailAllStep(n, id, n.dests);
    SendAfter(n, Nothing, FailAll(n, id, n.dests).node, HandleLinkFailure(n, id).sent);
  }

  lemma NbDeleteStep(n: Node, id: Addr)
    requires NodeOk(n)
    ensures StepOk(n, Nothing, NbDelete(n, id))
  {
    hide NodeOk, StepOk, HandleLinkFailure, NbWithout;
    ForgetStep(n, id);
    var n1 := n.(seqno := n.seqno + 2, nbrs := NbWithout(n.nbrs, id));
    var o := HandleLinkFailure(n1, id);
    HandleLinkFailureStep(n1, id);
    StepThen(n, Nothing, Out(n1, []), o);
    assert [] + o.sent == o.sent;
  }

  lemma ForgetStep(n: Node, id: Addr)
    requires NodeOk(n)
    ensures var n1 := n.(seqno := n.seqno + 2, nbrs := NbWithout(n.nbrs, id));
            NodeOk(n1) && TableListed(n1) && StepOk(n, Nothing, Out(n1, []))
  {
    SameTable(n, n.(seqno := n.seqno + 2, nbrs := NbWithout(n.nbrs, id)));
  }

  /** A hello makes its sender a neighbour; a new neighbour raises the own number, and nothing else does. */
  lemma RecvHelloStep(n: Node, m: Msg, env: Env)
    requires NodeOk(n) && m.Hello?
    ensures var o := RecvHello(n, m, env);
            && StepOk(n, Nothing, o) && NbKnown(o.node.nbrs, m.sender)
            && (o.node.seqno != n.seqno <==> !NbKnown(n.nbrs, m.sender))
            && forall id | id != m.sender :: NbKnown(o.node.nbrs, id) <==> NbKnown(n.nbrs, id)
  {
    var o := RecvHello(n, m, env);
    SameTable(n, o.node);
    var k := NbFind(n.nbrs, m.sender);
    if k < |n.nbrs| {
      NbFound(o.node.nbrs, m.sender, k);
    }
    forall id | id != m.sender ensures NbKnown(o.node.nbrs, id) <==> NbKnown(n.nbrs, id) {
      if k < |n.nbrs| {
        NbFound(o.node.nbrs, id, NbFind(n.nbrs, id));
      }
    }
  }

  lemma PurgeOneStep(n: Node, d: Addr, env: Env)
    requires NodeOk(n) && d in n.table
    ensures StepOk(n, Nothing, PurgeOne(n, d, env))
  {
    var e := n.table[d];
    assert EntryOk(e);
    if e.up {
      ChangeEntry(n, Nothing, d, PurgeOne(n, d, env).node.table[d]);
    } else if d in env.waiting {
      SendRequestStep(n, d, env);
    }
  }

  lemma {:induction false} PurgeAllStep(n: Node, ds: seq<Addr>, env: Env)
    requires NodeOk(n) && forall d | d in ds :: d in n.table
    ensures StepOk(n, Nothing, PurgeAll(n, ds, env))
    decreases |ds|
  {
    if ds != [] {
      var o := PurgeOne(n, ds[0], env);
      PurgeOneStep(n, ds[0], env);
      PurgeAllStep(o.node, ds[1..], env);
      StepThen(n, Nothing, o, PurgeAll(o.node, ds[1..], env));
    }
  }

  lemma RtResolveStep(n: Node, d: Addr, mine: bool, env: Env)
    requires NodeOk(n)
    ensures StepOk(n, Nothing, RtResolve(n, d, mine, env))
  {
    AddEntry(n, d);
    var n1 := RtAdd(n, d);
    var e := n1.table[d];
    var o := RtResolve(n, d, mine, env);
    assert EntryOk(e);
    if e.up {
      TouchEntry(n1, d, o.node.table[d]);
      StepThen(n, Nothing, Out(n1, []), Out(o.node, []));
    } else if mine {
      SendRequestStep(n1, d, env);
      StepThen(n, Nothing, Out(n1, []), o);
    } else {
      SendAfter(n, Nothing, n1, o.sent);
    }
  }
}
