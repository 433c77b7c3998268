/** Node-disjoint replies: while the nodes remember a discovery, each node but the destination transmits at
    most one reply for it, so the trails that two different replies follow share no such node. */
module AomdvDisjoint {
  import opened RoutingBase
  import opened AomdvPaths
  import opened AomdvNode
  import opened AomdvProps
  import opened AomdvBounds
  import opened AomdvNetwork

  // ---------- the record of a discovery ----------

  lemma InsertCounts(cache: seq<BcastId>, src: Addr, id: nat, now: real, s: Addr, i: nat)
    requires !Cached(cache, src, id)
    ensures Counted(IdInsert(cache, src, id, now), s, i) <==> Counted(cache, s, i)
    ensures Cached(cache, s, i) ==> Cached(IdInsert(cache, src, id, now), s, i)
  {
    var c := IdInsert(cache, src, id, now);
    assert c[1..] == cache;
  }

  lemma MarkCounts(cache: seq<BcastId>, src: Addr, id: nat, s: Addr, i: nat)
    requires Cached(cache, src, id)
    ensures Counted(MarkCount(cache, src, id), s, i) <==> Counted(cache, s, i) || (s == src && i == id)
    ensures Cached(MarkCount(cache, src, id), s, i) <==> Cached(cache, s, i)
  {
    MarkFinds(cache, IdGet(cache, src, id), s, i);
  }

  /** Changing a record's count moves no record. */
  lemma {:induction false} MarkFinds(cache: seq<BcastId>, k: nat, s: Addr, i: nat)
    requires k < |cache|
    ensures IdGet(cache[k := cache[k].(count := 1)], s, i) == IdGet(cache, s, i)
    decreases |cache|
  {
    var c := cache[k := cache[k].(count := 1)];
    if cache[0].src != s || cache[0].id != i {
      if k == 0 {
        assert c[1..] == cache[1..];
      } else {
        assert c[1..] == cache[1..][k - 1 := cache[1..][k - 1].(count := 1)];
        MarkFinds(cache[1..], k - 1, s, i);
      }
    }
  }

  /** No record of the discovery has expired. */
  predicate Lasting(cache: seq<BcastId>, src: Addr, id: nat, now: real) {
    forall k | 0 <= k < |cache| && cache[k].src == src && cache[k].id == id :: cache[k].expire > now
  }

  lemma {:induction false} PurgeCounts(cache: seq<BcastId>, now: real, src: Addr, id: nat)
    requires Lasting(cache, src, id, now)
    ensures Counted(cache, src, id) ==> Counted(IdPurge(cache, now), src, id)
    decreases |cache|
  {
    if cache != [] {
      assert Lasting(cache[1..], src, id, now) by {
        forall k | 0 <= k < |cache[1..]| && cache[1..][k].src == src && cache[1..][k].id == id
          ensures cache[1..][k].expire > now { assert cache[1..][k] == cache[k + 1]; }
      }
      PurgeCounts(cache[1..], now, src, id);
      if cache[0].expire > now {
        var r := [cache[0]] + IdPurge(cache[1..], now);
        assert r[1..] == IdPurge(cache[1..], now);
      }
    }
  }

  // ---------- what one handler does to replies ----------

  /** A reply transmitted by a node that is not the destination it tells of. */
  predicate Relay(m: Msg) {
    m.Rrep? && m.dst != m.sender
  }

  /** No reply is sent and no record changes. */
  predicate Quiet(n: Node, o: Out) {
    o.node.bcache == n.bcache && forall k | 0 <= k < |o.sent| :: !o.sent[k].Rrep?
  }

  /** Records keep their marks, and a relayed reply is the only packet sent and marks its discovery, which
      was not marked before. */
  ghost predicate Marks(n: Node, o: Out) {
    && (forall s, i | Counted(n.bcache, s, i) :: Counted(o.node.bcache, s, i))
    && (forall k | 0 <= k < |o.sent| && Relay(o.sent[k]) ::
          && |o.sent| == 1 && Counted(o.node.bcache, o.sent[k].ipDst, o.sent[k].bcastId)
          && !Counted(n.bcache, o.sent[k].ipDst, o.sent[k].bcastId))
  }

  /** A reply sent while handling the reply `m` is `m` passed on. */
  predicate PassesOn(n: Node, m: Msg, o: Out)
    requires m.Rrep?
  {
    |o.sent| <= 1 && forall k | 0 <= k < |o.sent| ::
      && o.sent[k].Rrep? && o.sent[k].sender == n.index && o.sent[k].sender != o.sent[k].dst
      && o.sent[k].dst == m.dst && o.sent[k].ipDst == m.ipDst && o.sent[k].bcastId == m.bcastId
  }

  lemma AnswerRequestMarks(n: Node, m: Msg, seen: bool, inHand: bool, env: Env)
    requires m.Rreq? && m.src in n.table && Cached(n.bcache, m.src, m.bcastId)
    ensures Marks(n, AnswerRequest(n, m, seen, inHand, env))
  {
    hide Counted, IdGet, MarkCount, Advertised;
    forall s, i ensures Counted(MarkCount(n.bcache, m.src, m.bcastId), s, i)
                        <==> Counted(n.bcache, s, i) || (s == m.src && i == m.bcastId)
    {
      MarkCounts(n.bcache, m.src, m.bcastId, s, i);
    }
  }

  lemma NotedMarks(n: Node, m: Msg, env: Env)
    requires m.Rreq?
    ensures forall s, i :: Counted(Noted(n, m, env).bcache, s, i) <==> Counted(n.bcache, s, i)
    ensures Cached(Noted(n, m, env).bcache, m.src, m.bcastId)
  {
    if !Cached(n.bcache, m.src, m.bcastId) {
      forall s, i ensures Counted(Noted(n, m, env).bcache, s, i) <==> Counted(n.bcache, s, i) {
        InsertCounts(n.bcache, m.src, m.bcastId, env.now, s, i);
      }
    }
  }

  lemma RecvRequestMarks(n: Node, m: Msg, env: Env)
    requires m.Rreq?
    ensures Marks(n, RecvRequest(n, m, env))
  {
    if m.src != n.index {
      NotedMarks(n, m, env);
      var n1 := Noted(n, m, env);
      var r := UpdateReverse(n1, n1.table[m.src], m, FirstHop(n1, m), env);
      hide Counted, Noted, UpdateReverse, Settled, AnswerRequest;
      if r.goOn {
        AnswerRequestMarks(With(n1, m.src, Settled(r.entry, m.src, env)), m, Cached(n.bcache, m.src, m.bcastId), r.inHand, env);
      }
    }
  }

  lemma RelayReplyMarks(n: Node, m: Msg, env: Env)
    requires m.Rrep? && m.dst in n.table && m.dst != n.index
    ensures Marks(n, RelayReply(n, m, env)) && PassesOn(n, m, RelayReply(n, m, env))
  {
    hide Counted, IdGet, MarkCount, Advertised;
    if Cached(n.bcache, m.ipDst, m.bcastId) {
      forall s, i ensures Counted(MarkCount(n.bcache, m.ipDst, m.bcastId), s, i)
                          <==> Counted(n.bcache, s, i) || (s == m.ipDst && i == m.bcastId)
      {
        MarkCounts(n.bcache, m.ipDst, m.bcastId, s, i);
      }
    }
  }

  lemma RecvReplyMarks(n: Node, m: Msg, env: Env)
    requires m.Rrep?
    ensures Marks(n, RecvReply(n, m, env)) && PassesOn(n, m, RecvReply(n, m, env))
  {
    if m.dst != n.index {
      var n1 := RtAdd(n, m.dst);
      var f := UpdateForward(n1, n1.table[m.dst], m, env);
      hide Counted, UpdateForward, Settled, RelayReply;
      if f.goOn { RelayReplyMarks(With(n1, m.dst, Settled(f.entry, m.dst, env)), m, env); }
    }
  }

  lemma RecvHelloQuiet(n: Node, m: Msg, env: Env)
    requires m.Hello?
    ensures Quiet(n, RecvHello(n, m, env))
  {
  }

  lemma {:induction false} LoseAllCache(n: Node, sender: Addr, us: seq<Unreachable>)
    ensures LoseAll(n, sender, us).node.bcache == n.bcache
    decreases |us|
  {
    if us != [] {
      hide Without;
      LoseAllCache(LoseOne(n, sender, us[0]).node, sender, us[1..]);
    }
  }

  lemma {:induction false} PurgeAllQuiet(n: Node, ds: seq<Addr>, env: Env)
    requires forall d | d in ds :: d in n.table
    ensures Quiet(n, PurgeAll(n, ds, env))
    decreases |ds|
  {
    if ds != [] { PurgeAllQuiet(PurgeOne(n, ds[0], env).node, ds[1..], env); }
  }

  lemma QuietMarks(n: Node, o: Out)
    requires Quiet(n, o)
    ensures Marks(n, o)
  {
  }

  lemma ReceiptMarks(n: Node, m: Msg, env: Env)
    ensures Marks(n, Receipt(n, m, env))
    ensures m.Rrep? ==> PassesOn(n, m, Receipt(n, m, env))
    ensures !m.Rrep? && !m.Rreq? ==> Quiet(n, Receipt(n, m, env))
  {
    hide Marks, RecvRequest, RecvReply, RecvHello, LoseAll;
    match m
    case Rreq(_, _, _, _, _, _, _, _, _) => RecvRequestMarks(n, m, env);
    case Rrep(_, _, _, _, _, _, _, _, _, _) => RecvReplyMarks(n, m, env);
    case Rerr(_, _) => LoseAllCache(n, m.sender, m.unreachable); QuietMarks(n, RecvError(n, m));
    case Hello(_, _) => RecvHelloQuiet(n, m, env); QuietMarks(n, RecvHello(n, m, env));
  }

  /** Every event but a purge of ids only adds marks. */
  lemma ActMarks(s: Net, e: Event)
    requires e.At? && Enabled(s, e)
    ensures var (n, o) := (s.nodes[e.i], Act(s, e));
            && (!e.action.PurgeIds? ==> Marks(n, o))
            && (e.action.PurgeIds? ==> o.sent == [] && o.node.bcache == IdPurge(n.bcache, s.now))
            && (e.action.Receive? && s.log[e.action.k].msg.Rrep? ==> PassesOn(n, s.log[e.action.k].msg, o))
  {
    var n := s.nodes[e.i];
    var env := Env(s.now, e.waiting, e.perHop);
    hide Marks, Receipt, PurgeAll;
    match e.action
    case Receive(k) => ReceiptMarks(n, s.log[k].msg, env);
    case Data(d, mine) => QuietMarks(n, Act(s, e));
    case PurgeRoutes => PurgeAllQuiet(n, n.dests, env); QuietMarks(n, Act(s, e));
    case PurgeIds =>
    case LoseNeighbor(id, stuck) =>
      FailAllSeqno(ForgetNeighbor(n, id), id, n.dests);
      SalvageAllQuiet(HandleLinkFailure(ForgetNeighbor(n, id), id).node, stuck, s.now);
      QuietMarks(n, Act(s, e));
    case Beacon => QuietMarks(n, Act(s, e));
  }

  // ---------- at most one reply for a discovery ----------

  /** Packet `k` is a reply of the discovery (src, id) that `x`, not its destination, transmitted. */
  predicate RelayedBy(s: Net, k: nat, x: Addr, src: Addr, id: nat)
    requires k < |s.log|
  {
    Relay(s.log[k].msg) && s.log[k].msg.sender == x && s.log[k].msg.ipDst == src && s.log[k].msg.bcastId == id
  }

  ghost predicate AtMostOne(s: Net, x: Addr, src: Addr, id: nat) {
    && (forall k | 0 <= k < |s.log| && RelayedBy(s, k, x, src, id) :: x in s.nodes && Counted(s.nodes[x].bcache, src, id))
    && (forall j, k | 0 <= j < |s.log| && 0 <= k < |s.log| && RelayedBy(s, j, x, src, id) && RelayedBy(s, k, x, src, id) ::
          j == k)
  }

  /** When `x` purges its ids, no record of the discovery is lost. */
  predicate Spares(s: Net, e: Event, x: Addr, src: Addr, id: nat) {
    e.At? && e.i == x && e.action.PurgeIds? && Enabled(s, e) ==> Lasting(s.nodes[x].bcache, src, id, s.now)
  }

  /** Along the whole run `x` keeps what it has recorded of the discovery. */
  ghost predicate Remembers(s: Net, es: seq<Event>, x: Addr, src: Addr, id: nat) {
    forall a | 0 <= a < |es| :: Spares(Exec(s, es[..a]), es[a], x, src, id)
  }

  lemma ActorSends(s: Net, e: Event)
    requires Inv(s) && e.At? && Enabled(s, e)
    ensures forall k | 0 <= k < |Act(s, e).sent| :: Act(s, e).sent[k].sender == e.i
  {
    ActStep(s, e);
    hide Inv, Act;
    assert forall k | 0 <= k < |Act(s, e).sent| :: Current(Act(s, e).node, Act(s, e).sent[k]);
  }

  /** After an event, a reply transmitted by `x` is an old one, or the only new one and the first. */
  lemma RelayAfter(s: Net, e: Event, x: Addr, src: Addr, id: nat, k: nat)
    requires Inv(s) && AtMostOne(s, x, src, id) && Spares(s, e, x, src, id) && e.At? && Enabled(s, e)
    requires k < |Apply(s, e).log| && RelayedBy(Apply(s, e), k, x, src, id)
    ensures var s' := Apply(s, e);
            && (k < |s.log| ==> RelayedBy(s, k, x, src, id))
            && (k >= |s.log| ==> e.i == x && |s'.log| == |s.log| + 1 && !Counted(s.nodes[x].bcache, src, id))
            && x in s'.nodes && Counted(s'.nodes[x].bcache, src, id)
  {
    hide Inv, Counted, Act, Lasting;
    ActorSends(s, e);
    ActMarks(s, e);
    LogAfter(s, e, k);
    if e.i == x && e.action.PurgeIds? { PurgeCounts(s.nodes[x].bcache, s.now, src, id); }
  }

  lemma KeepAtMostOne(s: Net, e: Event, x: Addr, src: Addr, id: nat)
    requires Inv(s) && AtMostOne(s, x, src, id) && Spares(s, e, x, src, id)
    ensures AtMostOne(Apply(s, e), x, src, id)
  {
    hide Inv, Counted, Act, Spares;
    var s' := Apply(s, e);
    if Enabled(s, e) && e.At? {
      forall k | 0 <= k < |s'.log| && RelayedBy(s', k, x, src, id)
        ensures k < |s.log| ==> RelayedBy(s, k, x, src, id)
        ensures k >= |s.log| ==> e.i == x && |s'.log| == |s.log| + 1 && !Counted(s.nodes[x].bcache, src, id)
        ensures x in s'.nodes && Counted(s'.nodes[x].bcache, src, id)
      {
        RelayAfter(s, e, x, src, id, k);
      }
    } else {
      assert s'.log == s.log && s'.nodes == s.nodes;
      forall k | 0 <= k < |s'.log| && RelayedBy(s', k, x, src, id)
        ensures x in s'.nodes && Counted(s'.nodes[x].bcache, src, id) && RelayedBy(s, k, x, src, id)
      {
        assert RelayedBy(s, k, x, src, id);
      }
    }
  }

  lemma {:induction false} AtMostOneKept(s: Net, es: seq<Event>, x: Addr, src: Addr, id: nat)
    requires Init(s) && Remembers(s, es, x, src, id)
    ensures AtMostOne(Exec(s, es), x, src, id)
    decreases |es|
  {
    if es != [] {
      var fs, e := es[..|es| - 1], es[|es| - 1];
      assert Remembers(s, fs, x, src, id) by {
        forall a | 0 <= a < |fs| ensures Spares(Exec(s, fs[..a]), fs[a], x, src, id) {
          assert fs[..a] == es[..a] && Spares(Exec(s, es[..a]), es[a], x, src, id);
        }
      }
      AtMostOneKept(s, fs, x, src, id);
      Reachable(s, fs);
      assert Spares(Exec(s, fs), e, x, src, id);
      hide Inv, AtMostOne, Remembers;
      KeepAtMostOne(Exec(s, fs), e, x, src, id);
    }
  }

  /** While it remembers the discovery, a node that is not the destination transmits one reply at most. */
  lemma OneReplyPerNode(s: Net, es: seq<Event>, x: Addr, src: Addr, id: nat, j: nat, k: nat)
    requires Init(s) && Remembers(s, es, x, src, id) && j < |Exec(s, es).log| && k < |Exec(s, es).log|
    requires RelayedBy(Exec(s, es), j, x, src, id) && RelayedBy(Exec(s, es), k, x, src, id)
    ensures j == k
  {
    AtMostOneKept(s, es, x, src, id);
  }
}
