/** How far an AOMDV request spreads: duplicates are looked at for the paths they bring, but a node passes the same request
    on at most once in any BCAST_ID_SAVE window. */
module AomdvFlooding {
  import opened RoutingBase
  import opened AomdvPaths
  import opened AomdvNode
  import opened AomdvProps
  import opened AomdvBounds
  import opened AomdvNetwork
  import AomdvEffects

  /** Packet `k` is a request that its sender passed on for another node. */
  predicate PassedOn(s: Net, k: nat)
    requires k < |s.log|
  {
    s.log[k].msg.Rreq? && s.log[k].msg.src != s.log[k].msg.sender
  }

  predicate SameRequest(a: Msg, b: Msg) {
    a.Rreq? && b.Rreq? && a.src == b.src && a.bcastId == b.bcastId
  }

  predicate Holds(cache: seq<BcastId>, src: Addr, id: nat, until: real) {
    exists k | 0 <= k < |cache| :: cache[k].src == src && cache[k].id == id && cache[k].expire >= until
  }

  lemma HoldsCached(cache: seq<BcastId>, src: Addr, id: nat, until: real)
    requires Holds(cache, src, id, until)
    ensures Cached(cache, src, id)
  {
  }

  lemma {:induction false} PurgeForgets(cache: seq<BcastId>, now: real, src: Addr, id: nat, until: real)
    requires Holds(cache, src, id, until) && until > now
    ensures Holds(IdPurge(cache, now), src, id, until)
    decreases |cache|
  {
    var k :| 0 <= k < |cache| && cache[k].src == src && cache[k].id == id && cache[k].expire >= until;
    var r := IdPurge(cache[1..], now);
    if k == 0 {
      assert ([cache[0]] + r)[0] == cache[0];
    } else {
      assert cache[1..][k - 1] == cache[k];
      PurgeForgets(cache[1..], now, src, id, until);
      var j :| 0 <= j < |r| && r[j].src == src && r[j].id == id && r[j].expire >= until;
      assert ([cache[0]] + r)[j + 1] == r[j];
    }
  }

  // ---------- what one event does ----------

  /** No record is lost. */
  ghost predicate KeepsRecords(cache: seq<BcastId>, cache': seq<BcastId>) {
    forall src, id, until | Holds(cache, src, id, until) :: Holds(cache', src, id, until)
  }

  /** No request of another node is sent. */
  predicate OwnOnly(n: Node, sent: seq<Msg>) {
    forall k | 0 <= k < |sent| && sent[k].Rreq? :: sent[k].src == n.index
  }

  /** The only packet is `m` passed on, which was unknown and is remembered now. */
  predicate Passes(n: Node, m: Msg, now: real, o: Out)
    requires m.Rreq?
  {
    && |o.sent| == 1 && SameRequest(o.sent[0], m) && !Cached(n.bcache, m.src, m.bcastId)
    && Holds(o.node.bcache, m.src, m.bcastId, now + BCAST_ID_SAVE)
  }

  ghost predicate Floods(n: Node, h: Heard, now: real, o: Out) {
    && KeepsRecords(n.bcache, o.node.bcache)
    && (OwnOnly(n, o.sent) || (h.Packet? && h.msg.Rreq? && Passes(n, h.msg, now, o)))
  }

  lemma SameRecords(n: Node, h: Heard, now: real, o: Out)
    requires o.node.bcache == n.bcache && OwnOnly(n, o.sent)
    ensures Floods(n, h, now, o)
  {
  }

  lemma RecordedKeeps(n: Node, m: Msg, env: Env, mark: bool, cache: seq<BcastId>)
    requires m.Rreq? && AomdvEffects.Recorded(n, m, env, mark, cache)
    ensures KeepsRecords(n.bcache, cache)
    ensures !mark && !Cached(n.bcache, m.src, m.bcastId) ==> Holds(cache, m.src, m.bcastId, env.now + BCAST_ID_SAVE)
  {
    hide Cached, Counted;
    var new_ := if Cached(n.bcache, m.src, m.bcastId) then 0 else 1;
    forall src, id, until | Holds(n.bcache, src, id, until) ensures Holds(cache, src, id, until) {
      var k :| 0 <= k < |n.bcache| && n.bcache[k].src == src && n.bcache[k].id == id && n.bcache[k].expire >= until;
      assert cache[k + new_].src == src && cache[k + new_].id == id && cache[k + new_].expire >= until;
    }
    if new_ == 1 && !mark { assert cache[0].src == m.src; }
  }

  lemma RequestFloods(n: Node, m: Msg, env: Env)
    requires NodeOk(n) && m.Rreq? && MsgOk(m)
    ensures Floods(n, Packet(m), env.now, RecvRequest(n, m, env))
  {
    hide AomdvEffects.TakenUp, AomdvEffects.GoesOn, AomdvEffects.Advertising, AomdvEffects.Recorded, NodeOk, RecvRequest, Cached,
      KeepsRecords, Holds;
    var o := RecvRequest(n, m, env);
    AomdvEffects.RequestTells(n, m, env);
    if m.src == n.index {
      SameRecords(n, Packet(m), env.now, o);
    } else {
      RecordedKeeps(n, m, env, AomdvEffects.FromTable(n, m, o.sent), o.node.bcache);
    }
  }

  lemma ReplyFloods(n: Node, m: Msg, env: Env)
    requires NodeOk(n) && m.Rrep? && MsgOk(m)
    ensures Floods(n, Packet(m), env.now, RecvReply(n, m, env))
  {
    hide AomdvEffects.TakenUp, AomdvEffects.GoesBack, AomdvEffects.Keeps, AomdvEffects.Advertising, NodeOk, RecvReply, Counted;
    AomdvEffects.ReplyTells(n, m, env);
    var o := RecvReply(n, m, env);
    if o.node.bcache != n.bcache {
      forall src, id, until | Holds(n.bcache, src, id, until) ensures Holds(o.node.bcache, src, id, until) {
        var k :| 0 <= k < |n.bcache| && n.bcache[k].src == src && n.bcache[k].id == id && n.bcache[k].expire >= until;
        assert o.node.bcache[k].expire >= until;
      }
    }
  }

  lemma HelloFloods(n: Node, m: Msg, env: Env)
    requires NodeOk(n) && m.Hello? && MsgOk(m)
    ensures Floods(n, Packet(m), env.now, RecvHello(n, m, env))
  {
    hide RecvReply, Floods, EntryOk;
    assert NodeOk(HeardHello(n, m.sender, env.now));
    ReplyFloods(HeardHello(n, m.sender, env.now), HelloAsReply(n, m), env);
    HelloLikeReply(n, m, env);
  }

  lemma HelloLikeReply(n: Node, m: Msg, env: Env)
    requires m.Hello? && Floods(HeardHello(n, m.sender, env.now), Packet(HelloAsReply(n, m)), env.now, RecvHello(n, m, env))
    ensures Floods(n, Packet(m), env.now, RecvHello(n, m, env))
  {
    hide RecvHello, KeepsRecords;
  }

  lemma LossFloods(n: Node, id: Addr, stuck: seq<Stuck>, now: real, h: Heard)
    requires NodeOk(n) && AomdvNode.Listed(n, n.dests)
    ensures Floods(n, h, now, NbDelete(n, id, stuck, now))
  {
    hide NbDelete, NodeOk, AomdvEffects.Failed, AomdvEffects.FailureTold;
    AomdvEffects.NeighborTells(n, id, stuck, now);
    var o := NbDelete(n, id, stuck, now);
    var n1 :| AomdvEffects.FailureEffect(n.(seqno := n.seqno + 2, nbrs := o.node.nbrs), id, Out(n1, o.sent))
              && AomdvEffects.Salvaged(n1, stuck, now, o.node);
    SameRecords(n, h, now, o);
  }

  lemma ReceiptFloods(n: Node, m: Msg, env: Env)
    requires NodeOk(n) && MsgOk(m)
    ensures Floods(n, Packet(m), env.now, Receipt(n, m, env))
  {
    hide NodeOk, MsgOk, Floods, RecvRequest, RecvReply, RecvHello, RecvError;
    match m
    case Rreq(_, _, _, _, _, _, _, _, _) => RequestFloods(n, m, env);
    case Rrep(_, _, _, _, _, _, _, _, _, _) => ReplyFloods(n, m, env);
    case Rerr(_, _) => ErrorFloods(n, m, env);
    case Hello(_, _) => HelloFloods(n, m, env);
  }

  lemma ErrorFloods(n: Node, m: Msg, env: Env)
    requires NodeOk(n) && m.Rerr?
    ensures Floods(n, Packet(m), env.now, RecvError(n, m))
  {
    hide NodeOk, RecvError, AomdvEffects.Withdrawn, AomdvEffects.Passed;
    AomdvEffects.ErrorTells(n, m);
    SameRecords(n, Packet(m), env.now, RecvError(n, m));
  }

  lemma DataFloods(n: Node, d: Addr, mine: bool, env: Env)
    requires NodeOk(n)
    ensures Floods(n, Nothing, env.now, RtResolve(n, d, mine, env))
  {
    hide NodeOk, RtResolve, AomdvEffects.Searched, AomdvEffects.Used;
    AomdvEffects.ResolveTells(n, d, mine, env);
    SameRecords(n, Nothing, env.now, RtResolve(n, d, mine, env));
  }

  lemma WalkFloods(n: Node, env: Env)
    requires NodeOk(n) && AomdvNode.Listed(n, n.dests)
    ensures Floods(n, Nothing, env.now, RtPurge(n, env))
  {
    hide NodeOk, RtPurge, AomdvEffects.Purged;
    AomdvEffects.PurgeTells(n, env);
    SameRecords(n, Nothing, env.now, RtPurge(n, env));
  }

  /** Every event but a purge of ids keeps the records, and passes on at most the request it receives. */
  lemma ActFloods(s: Net, e: Event)
    requires NodesOk(s) && LogOk(s) && e.At? && Enabled(s, e)
    ensures var (n, o) := (s.nodes[e.i], Act(s, e));
      if e.action.PurgeIds? then o.sent == [] && o.node.bcache == IdPurge(n.bcache, s.now)
      else Floods(n, HeardIn(s, e), s.now, o)
  {
    var n := s.nodes[e.i];
    var env := Env(s.now, e.waiting, e.perHop);
    hide NodeOk, Floods, Receipt, RtResolve, RtPurge, NbDelete;
    match e.action
    case Receive(k) => assert SenderOk(s, k); ReceiptFloods(n, s.log[k].msg, env);
    case Data(d, mine) => DataFloods(n, d, mine, env);
    case PurgeRoutes => WalkFloods(n, env);
    case PurgeIds =>
    case LoseNeighbor(id, stuck) => LossFloods(n, id, stuck, s.now, HeardIn(s, e));
    case Beacon => SameRecords(n, Nothing, s.now, SendHello(n));
  }

  // ---------- at most once a window ----------

  /** The node that passed this request on still remembers it, or its window is over. */
  predicate Remembered(s: Net, k: nat)
    requires k < |s.log| && s.log[k].msg.Rreq?
  {
    var m := s.log[k].msg;
    || s.log[k].at + BCAST_ID_SAVE <= s.now
    || (m.sender in s.nodes && Holds(s.nodes[m.sender].bcache, m.src, m.bcastId, s.log[k].at + BCAST_ID_SAVE))
  }

  ghost predicate MemoryOk(s: Net) {
    forall k | 0 <= k < |s.log| && PassedOn(s, k) :: Remembered(s, k)
  }

  predicate Apart(s: Net, j: nat, k: nat)
    requires j < |s.log| && k < |s.log|
  {
    s.log[j].msg.sender == s.log[k].msg.sender && SameRequest(s.log[j].msg, s.log[k].msg) && PassedOn(s, j)
    ==> s.log[k].at >= s.log[j].at + BCAST_ID_SAVE
  }

  ghost predicate WindowOk(s: Net) {
    forall j, k | 0 <= j < k < |s.log| :: Apart(s, j, k)
  }

  lemma Actor(s: Net, e: Event, k: nat)
    requires NodesOk(s) && LogOk(s) && e.At? && Enabled(s, e) && k < |Act(s, e).sent|
    ensures Act(s, e).sent[k].sender == e.i && s.nodes[e.i].index == e.i
  {
    assert SentOk(Act(s, e).node, Act(s, e).sent) && Act(s, e).node.index == e.i by { ActStep(s, e); }
    hide Act;
    assert Current(Act(s, e).node, Act(s, e).sent[k]);
  }

  lemma KeepHolds(s: Net, e: Event, src: Addr, id: nat, until: real)
    requires NodesOk(s) && LogOk(s) && e.At? && Enabled(s, e)
    requires Holds(s.nodes[e.i].bcache, src, id, until) && until > s.now
    ensures Holds(Act(s, e).node.bcache, src, id, until)
  {
    hide NodesOk, LogOk, Act, Holds, IdPurge;
    ActFloods(s, e);
    if e.action.PurgeIds? { PurgeForgets(s.nodes[e.i].bcache, s.now, src, id, until); }
  }

  lemma KeepMemory(s: Net, e: Event, k: nat)
    requires NodesOk(s) && LogOk(s) && MemoryOk(s) && Enabled(s, e)
    requires k < |Apply(s, e).log| && PassedOn(Apply(s, e), k)
    ensures Remembered(Apply(s, e), k)
  {
    hide NodesOk, LogOk, Act, Holds, Cached;
    var s' := Apply(s, e);
    if e.At? { LogAfter(s, e, k); }
    if k < |s.log| {
      assert PassedOn(s, k) && Remembered(s, k);
      var m, until := s.log[k].msg, s.log[k].at + BCAST_ID_SAVE;
      if until > s.now && e.At? && e.i == m.sender { KeepHolds(s, e, m.src, m.bcastId, until); }
    } else {
      Actor(s, e, k - |s.log|);
      ActFloods(s, e);
    }
  }

  lemma KeepApart(s: Net, e: Event, j: nat, k: nat)
    requires NodesOk(s) && LogOk(s) && MemoryOk(s) && WindowOk(s) && Enabled(s, e) && j < k < |Apply(s, e).log|
    ensures Apart(Apply(s, e), j, k)
  {
    hide NodesOk, LogOk, Act, Holds, Cached;
    var s' := Apply(s, e);
    if e.At? {
      LogAfter(s, e, j);
      LogAfter(s, e, k);
    }
    if k < |s.log| {
      assert Apart(s, j, k);
    } else {
      Actor(s, e, k - |s.log|);
      ActFloods(s, e);
      if j >= |s.log| {
        Actor(s, e, j - |s.log|);
      } else if !Apart(s', j, k) {
        var m := s.log[j].msg;
        assert PassedOn(s, j) && Remembered(s, j);
        HoldsCached(s.nodes[e.i].bcache, m.src, m.bcastId, s.log[j].at + BCAST_ID_SAVE);
      }
    }
  }

  lemma {:induction false} WindowsReachable(s: Net, es: seq<Event>)
    requires Init(s)
    ensures Inv(Exec(s, es)) && MemoryOk(Exec(s, es)) && WindowOk(Exec(s, es))
    decreases |es|
  {
    Reachable(s, es);
    if es != [] {
      var t, e := Exec(s, es[..|es| - 1]), es[|es| - 1];
      WindowsReachable(s, es[..|es| - 1]);
      hide Exec, Remembered, Apart, PassedOn, Apply, Enabled;
      Idle(t, e);
      if Enabled(t, e) {
        var t' := Apply(t, e);
        forall k | 0 <= k < |t'.log| && PassedOn(t', k) ensures Remembered(t', k) { KeepMemory(t, e, k); }
        forall j, k | 0 <= j < k < |t'.log| ensures Apart(t', j, k) { KeepApart(t, e, j, k); }
      }
    }
  }

  lemma Idle(s: Net, e: Event)
    ensures !Enabled(s, e) ==> Apply(s, e) == s
  {
  }

  /** Two transmissions of one request by a node that is not its source are a whole window apart, however many copies of it
      reach the node in between. */
  lemma OncePerWindow(s: Net, es: seq<Event>, j: nat, k: nat)
    requires Init(s) && j < k < |Exec(s, es).log|
    requires SameRequest(Exec(s, es).log[j].msg, Exec(s, es).log[k].msg) && PassedOn(Exec(s, es), j)
    requires Exec(s, es).log[j].msg.sender == Exec(s, es).log[k].msg.sender
    ensures Exec(s, es).log[k].at >= Exec(s, es).log[j].at + BCAST_ID_SAVE
  {
    WindowsReachable(s, es);
    assert Apart(Exec(s, es), j, k);
  }
}
