/** A network of AOMDV nodes.  As for AODV, every packet sent stays in the log and any node may receive any
    of them at any later time.  Each log entry also records which packet's reception caused it, -1 for none:
    a history that no handler reads. */
module AomdvNetwork {
  import opened RoutingBase
  import opened AomdvPaths
  import opened AomdvNode
  import opened AomdvProps
  import opened AomdvBounds

  datatype Sent = Sent(at: real, msg: Msg, cause: int)

  datatype Net = Net(nodes: map<Addr, Node>, log: seq<Sent>, now: real)

  datatype Action =
    | Receive(k: nat)
    | Data(d: Addr, mine: bool)
    | PurgeRoutes
    | PurgeIds
    | LoseNeighbor(id: Addr, stuck: seq<Stuck>)
    | Beacon

  datatype Event =
    | Tick(dt: real)
    | At(i: Addr, action: Action, waiting: set<Addr>, perHop: map<Addr, real>)

  ghost predicate Init(s: Net) {
    s.log == [] && forall i | i in s.nodes :: s.nodes[i] == Boot(i, s.nodes[i].maxPaths, s.nodes[i].lenDiff)
  }

  predicate Enabled(s: Net, e: Event) {
    match e
    case Tick(dt) => dt >= 0.0
    case At(i, action, _, _) =>
      && i in s.nodes
      && (action.Receive? ==> action.k < |s.log|)
      && (action.PurgeRoutes? || action.LoseNeighbor? ==> Listed(s.nodes[i], s.nodes[i].dests))  // in every run
  }

  function Receipt(n: Node, m: Msg, env: Env): Out {
    match m
    case Rreq(_, _, _, _, _, _, _, _, _) => RecvRequest(n, m, env)
    case Rrep(_, _, _, _, _, _, _, _, _, _) => RecvReply(n, m, env)
    case Rerr(_, _) => RecvError(n, m)
    case Hello(_, _) => RecvHello(n, m, env)
  }

  function Act(s: Net, e: Event): Out
    requires e.At? && Enabled(s, e)
  {
    var n := s.nodes[e.i];
    var env := Env(s.now, e.waiting, e.perHop);
    match e.action
    case Receive(k) => Receipt(n, s.log[k].msg, env)
    case Data(d, mine) => RtResolve(n, d, mine, env)
    case PurgeRoutes => RtPurge(n, env)
    case PurgeIds => Out(n.(bcache := IdPurge(n.bcache, s.now)), [])
    case LoseNeighbor(id, stuck) => NbDelete(n, id, stuck, s.now)
    case Beacon => SendHello(n)
  }

  function Cause(e: Event): int {
    if e.At? && e.action.Receive? then e.action.k else -1
  }

  function Stamp(sent: seq<Msg>, now: real, cause: int): (r: seq<Sent>)
    ensures |r| == |sent| && forall k | 0 <= k < |r| :: r[k] == Sent(now, sent[k], cause)
  {
    seq(|sent|, k requires 0 <= k < |sent| => Sent(now, sent[k], cause))
  }

  /** One event; an event that cannot happen changes nothing. */
  function Apply(s: Net, e: Event): Net {
    if !Enabled(s, e) then s
    else if e.Tick? then s.(now := s.now + e.dt)
    else
      var o := Act(s, e);
      s.(nodes := s.nodes[e.i := o.node], log := s.log + Stamp(o.sent, s.now, Cause(e)))
  }

  function Exec(s: Net, es: seq<Event>): Net
    decreases |es|
  {
    if es == [] then s else Apply(Exec(s, es[..|es| - 1]), es[|es| - 1])
  }

  // ---------- the invariant ----------

  ghost function OwnSeqno(s: Net): Owner {
    d => if d in s.nodes then s.nodes[d].seqno else 0
  }

  ghost predicate NodesOk(s: Net) {
    forall i | i in s.nodes :: s.nodes[i].index == i && NodeOk(s.nodes[i])
  }

  ghost predicate SenderOk(s: Net, k: nat)
    requires k < |s.log|
  {
    MsgOk(s.log[k].msg) && s.log[k].msg.sender in s.nodes && Honest(s.nodes[s.log[k].msg.sender], s.log[k].msg)
  }

  ghost predicate LogOk(s: Net) {
    forall k | 0 <= k < |s.log| :: SenderOk(s, k)
  }

  /** A node tells one hop count for each destination and sequence number, in every packet it ever sends. */
  predicate Agree(a: Msg, b: Msg, d: Addr, seqno: nat, g: int, h: int) {
    a.sender == b.sender && Offers(a, d, seqno, g) && Offers(b, d, seqno, h) ==> g == h
  }

  ghost predicate Consistent(s: Net, j: nat, k: nat)
    requires j < |s.log| && k < |s.log|
  {
    forall d, q, g, h :: Agree(s.log[j].msg, s.log[k].msg, d, q, g, h)
  }

  ghost predicate OneCount(s: Net) {
    forall j, k | 0 <= j < |s.log| && 0 <= k < |s.log| :: Consistent(s, j, k)
  }

  /** The path is the one some packet of its next hop offered. */
  ghost predicate Backed(s: Net, d: Addr, seqno: nat, p: Path) {
    exists k: nat | k < |s.log| :: s.log[k].msg.sender == p.nexthop && Offers(s.log[k].msg, d, seqno, p.hopcount - 1)
  }

  ghost predicate EntryBacked(s: Net, i: Addr, d: Addr)
    requires i in s.nodes && d in s.nodes[i].table
  {
    var e := s.nodes[i].table[d];
    forall k | 0 <= k < |e.paths| :: Backed(s, d, e.seqno, e.paths[k])
  }

  ghost predicate RoutesBacked(s: Net) {
    forall i, d | i in s.nodes && d in s.nodes[i].table :: EntryBacked(s, i, d)
  }

  ghost predicate SeqnosOk(s: Net) {
    && (forall i | i in s.nodes :: Bounded(s.nodes[i], OwnSeqno(s)))
    && (forall k | 0 <= k < |s.log| :: MsgBounded(s.log[k].msg, OwnSeqno(s)))
  }

  ghost predicate Inv(s: Net) {
    NodesOk(s) && LogOk(s) && OneCount(s) && RoutesBacked(s) && SeqnosOk(s)
  }

  function HeardIn(s: Net, e: Event): Heard
    requires e.At? && Enabled(s, e)
  {
    if e.action.Receive? then Packet(s.log[e.action.k].msg) else Nothing
  }

  lemma ReceiptStep(n: Node, m: Msg, env: Env)
    requires NodeOk(n) && MsgOk(m)
    ensures StepOk(n, Packet(m), Receipt(n, m, env))
  {
    hide NodeOk, StepOk, RecvRequest, RecvReply, RecvError, RecvHello;
    match m
    case Rreq(_, _, _, _, _, _, _, _, _) => RecvRequestStep(n, m, env);
    case Rrep(_, _, _, _, _, _, _, _, _, _) => RecvReplyStep(n, m, env);
    case Rerr(_, _) => RecvErrorStep(n, m); WithPacket(n, Packet(m), RecvError(n, m));
    case Hello(_, _) => RecvHelloStep(n, m, env);
  }

  lemma BeaconStep(n: Node)
    requires NodeOk(n)
    ensures StepOk(n, Nothing, SendHello(n))
  {
    SameTable(n, n);
    assert SentOk(n, SendHello(n).sent);
    hide NodeOk;
    SendAfter(n, Nothing, n, SendHello(n).sent);
  }

  lemma ActStep(s: Net, e: Event)
    requires NodesOk(s) && LogOk(s) && e.At? && Enabled(s, e)
    ensures StepOk(s.nodes[e.i], HeardIn(s, e), Act(s, e)) && Act(s, e).node.index == e.i
  {
    var n := s.nodes[e.i];
    var env := Env(s.now, e.waiting, e.perHop);
    hide NodeOk, StepOk, RtResolve, NbDelete, SendHello, PurgeAll, Receipt;
    match e.action {
      case Receive(k) => assert SenderOk(s, k); ReceiptStep(n, s.log[k].msg, env);
      case Data(d, mine) => RtResolveStep(n, d, mine, env);
      case PurgeRoutes => PurgeAllStep(n, n.dests, env);
      case PurgeIds => SameTable(n, Act(s, e).node);
      case LoseNeighbor(id, stuck) => NbDeleteStep(n, id, stuck, s.now);
      case Beacon => BeaconStep(n);
    }
    SilentPart(n, HeardIn(s, e), Act(s, e));
  }

  lemma ReceiptBounded(n: Node, m: Msg, env: Env, own: Owner)
    requires NodeOk(n) && MsgOk(m) && Even(own) && Bounded(n, own) && MsgBounded(m, own)
    requires Receipt(n, m, env).node.seqno <= own(n.index)
    ensures OutBounded(Receipt(n, m, env), own)
  {
    hide NodeOk, RecvRequest, RecvReply, LoseAll, OutBounded;
    match m
    case Rreq(_, _, _, _, _, _, _, _, _) => RecvRequestBounded(n, m, env, own);
    case Rrep(_, _, _, _, _, _, _, _, _, _) => RecvReplyBounded(n, m, env, own);
    case Rerr(_, _) => LoseAllBounded(n, m.sender, m.unreachable, own); ErrorBounded(LoseAll(n, m.sender, m.unreachable), own);
    case Hello(_, _) =>
      RecvReplyBounded(HeardHello(n, m.sender, env.now), HelloAsReply(n, m), env, own);
  }

  lemma ActBounded(s: Net, e: Event, own: Owner)
    requires NodesOk(s) && LogOk(s) && e.At? && Enabled(s, e) && Even(own)
    requires Bounded(s.nodes[e.i], own)
    requires forall k | 0 <= k < |s.log| :: MsgBounded(s.log[k].msg, own)
    requires Act(s, e).node.seqno <= own(e.i)
    ensures OutBounded(Act(s, e), own)
  {
    var n := s.nodes[e.i];
    var env := Env(s.now, e.waiting, e.perHop);
    hide NodeOk, MsgBounded, RtResolve, PurgeAll, Receipt, NbDelete;
    match e.action
    case Receive(k) => assert SenderOk(s, k); ReceiptBounded(n, s.log[k].msg, env, own);
    case Data(d, mine) => RtResolveBounded(n, d, mine, env, own);
    case PurgeRoutes => PurgeAllBounded(n, n.dests, env, own);
    case PurgeIds =>
    case LoseNeighbor(id, stuck) => NbDeleteSeqno(n, id, stuck, s.now); NbDeleteBounded(n, id, stuck, s.now, own);
    case Beacon => BeaconBounded(n, own);
  }

  lemma BeaconBounded(n: Node, own: Owner)
    requires Bounded(n, own)
    ensures OutBounded(SendHello(n), own)
  {
  }

  // ---------- one event keeps the invariant ----------

  lemma LogAfter(s: Net, e: Event, k: nat)
    requires e.At? && Enabled(s, e) && k < |Apply(s, e).log|
    ensures k < |s.log| ==> Apply(s, e).log[k] == s.log[k]
    ensures k >= |s.log| ==> k - |s.log| < |Act(s, e).sent|
                             && Apply(s, e).log[k] == Sent(s.now, Act(s, e).sent[k - |s.log|], Cause(e))
  {
  }

  lemma KeepSender(s: Net, e: Event, k: nat)
    requires NodesOk(s) && LogOk(s) && e.At? && Enabled(s, e) && k < |Apply(s, e).log|
    ensures SenderOk(Apply(s, e), k)
  {
    LogAfter(s, e, k);
    var o := Act(s, e);
    assert Evolves(s.nodes[e.i], o.node) && SentOk(o.node, o.sent) && o.node.index == e.i by { ActStep(s, e); }
    hide NodeOk, Evolves, Act, MsgOk;
    if k < |s.log| {
      assert SenderOk(s, k);
      if s.log[k].msg.sender == e.i { HonestEvolves(s.nodes[e.i], o.node, s.log[k].msg); }
    }
  }

  /** A packet sent now agrees with everything its sender has said before. */
  lemma NewAgrees(s: Net, e: Event, j: nat, k: nat)
    requires NodesOk(s) && LogOk(s) && e.At? && Enabled(s, e) && j < |Apply(s, e).log| && |s.log| <= k < |Apply(s, e).log|
    ensures Consistent(Apply(s, e), j, k) && Consistent(Apply(s, e), k, j)
  {
    var s', o := Apply(s, e), Act(s, e);
    KeepSender(s, e, j);
    LogAfter(s, e, k);
    assert SentOk(o.node, o.sent) && o.node.index == e.i by { ActStep(s, e); }
    hide NodeOk, Act, MsgOk;
    var a, b := s'.log[j].msg, s'.log[k].msg;
    assert Current(o.node, b);
    if a.sender == b.sender {
      assert Honest(o.node, a);
      forall d, q, g, h | Offers(a, d, q, g) && Offers(b, d, q, h) ensures g == h {
        assert Advertises(o.node, d, q, g) && Advertises(o.node, d, q, h);
        assert d == o.node.index || o.node.table[d].seqno == q;
      }
    }
  }

  lemma KeepOneCount(s: Net, e: Event)
    requires NodesOk(s) && LogOk(s) && OneCount(s) && e.At? && Enabled(s, e)
    ensures OneCount(Apply(s, e))
  {
    var s' := Apply(s, e);
    forall j, k | 0 <= j < |s'.log| && 0 <= k < |s'.log| ensures Consistent(s', j, k) {
      LogAfter(s, e, j);
      LogAfter(s, e, k);
      hide Act, Apply;
      if j < |s.log| && k < |s.log| {
        assert Consistent(s, j, k);
        forall d, q, g, h ensures Agree(s'.log[j].msg, s'.log[k].msg, d, q, g, h) {
          assert Agree(s.log[j].msg, s.log[k].msg, d, q, g, h);
        }
      } else if k >= |s.log| {
        NewAgrees(s, e, j, k);
      } else {
        NewAgrees(s, e, k, j);
      }
    }
  }

  lemma BackedLater(s: Net, e: Event, d: Addr, seqno: nat, p: Path)
    requires e.At? && Enabled(s, e) && Backed(s, d, seqno, p)
    ensures Backed(Apply(s, e), d, seqno, p)
  {
    var k: nat :| k < |s.log| && s.log[k].msg.sender == p.nexthop && Offers(s.log[k].msg, d, seqno, p.hopcount - 1);
    LogAfter(s, e, k);
    hide Apply, Act;
  }

  lemma KeepBacked(s: Net, e: Event, i: Addr, d: Addr)
    requires NodesOk(s) && LogOk(s) && RoutesBacked(s) && e.At? && Enabled(s, e)
    requires i in s.nodes && d in Apply(s, e).nodes[i].table
    ensures EntryBacked(Apply(s, e), i, d)
  {
    var s' := Apply(s, e);
    var f := s'.nodes[i].table[d];
    forall k | 0 <= k < |f.paths| ensures Backed(s', d, f.seqno, f.paths[k]) {
      if i == e.i {
        assert PathsFrom(EntryOf(s.nodes[i], d), HeardIn(s, e), d, f) by { ActStep(s, e); }
        PathBacked(s, e, d, f, k);
      } else {
        assert EntryBacked(s, i, d);
        BackedLater(s, e, d, f.seqno, f.paths[k]);
      }
    }
  }

  lemma PathBacked(s: Net, e: Event, d: Addr, f: Entry, k: nat)
    requires RoutesBacked(s) && e.At? && Enabled(s, e) && k < |f.paths|
    requires PathsFrom(EntryOf(s.nodes[e.i], d), HeardIn(s, e), d, f)
    ensures Backed(Apply(s, e), d, f.seqno, f.paths[k])
  {
    hide Apply, Act, Offers;
    var was, p := EntryOf(s.nodes[e.i], d), f.paths[k];
    if OfferedBy(HeardIn(s, e), d, f.seqno, p) {
      assert s.log[e.action.k].msg.sender == p.nexthop && Offers(s.log[e.action.k].msg, d, f.seqno, p.hopcount - 1);
      assert Backed(s, d, f.seqno, p);
    } else {
      assert Among(p, was.paths) && was.seqno == f.seqno;
      var j :| 0 <= j < |was.paths| && SamePath(p, was.paths[j]);
      assert EntryBacked(s, e.i, d);
      assert Backed(s, d, was.seqno, was.paths[j]);
    }
    BackedLater(s, e, d, f.seqno, p);
  }

  lemma OwnersGrow(s: Net, e: Event)
    requires NodesOk(s) && LogOk(s) && e.At? && Enabled(s, e)
    ensures var (own, own') := (OwnSeqno(s), OwnSeqno(Apply(s, e)));
            (forall d :: own(d) <= own'(d)) && Even(own') && own'(e.i) == Act(s, e).node.seqno
  {
    assert Evolves(s.nodes[e.i], Act(s, e).node) && NodeOk(Act(s, e).node) by { ActStep(s, e); }
    hide Act;
  }

  lemma KeepSeqnos(s: Net, e: Event)
    requires Inv(s) && e.At? && Enabled(s, e)
    ensures SeqnosOk(Apply(s, e))
  {
    hide NodesOk, Act, OneCount, RoutesBacked, LogOk, Bounded, MsgBounded, OwnSeqno, Even;
    var s', o := Apply(s, e), Act(s, e);
    var own, own' := OwnSeqno(s), OwnSeqno(s');
    OwnersGrow(s, e);
    forall i | i in s.nodes ensures Bounded(s.nodes[i], own') { RaiseNode(s.nodes[i], own, own'); }
    forall k | 0 <= k < |s.log| ensures MsgBounded(s.log[k].msg, own') { RaiseMsg(s.log[k].msg, own, own'); }
    ActBounded(s, e, own');
    forall k | 0 <= k < |s'.log| ensures MsgBounded(s'.log[k].msg, own') { LogAfter(s, e, k); }
  }

  lemma RaiseNode(n: Node, own: Owner, own': Owner)
    requires Bounded(n, own) && forall d :: own(d) <= own'(d)
    ensures Bounded(n, own')
  {
    assert own(n.index) <= own'(n.index);
    forall d | d in n.table ensures EntryBounded(n.table[d], own'(d)) {
      assert EntryBounded(n.table[d], own(d)) && own(d) <= own'(d);
    }
  }

  lemma RaiseMsg(m: Msg, own: Owner, own': Owner)
    requires MsgBounded(m, own) && forall d :: own(d) <= own'(d)
    ensures MsgBounded(m, own')
  {
    if m.Rerr? {
      forall k | 0 <= k < |m.unreachable| ensures m.unreachable[k].seqno <= own'(m.unreachable[k].dst) + 1 {
        assert own(m.unreachable[k].dst) <= own'(m.unreachable[k].dst);
      }
    }
  }

  lemma TickKeepsInv(s: Net, e: Event)
    requires Inv(s) && e.Tick? && Enabled(s, e)
    ensures Inv(Apply(s, e))
  {
    hide NodeOk, Honest, Agree, Offers, Bounded;
    var s' := Apply(s, e);
    assert forall d :: OwnSeqno(s)(d) == OwnSeqno(s')(d);
    forall i | i in s'.nodes ensures Bounded(s'.nodes[i], OwnSeqno(s')) {
      RaiseNode(s.nodes[i], OwnSeqno(s), OwnSeqno(s'));
    }
    forall k | 0 <= k < |s'.log| ensures MsgBounded(s'.log[k].msg, OwnSeqno(s')) && SenderOk(s', k) {
      RaiseMsg(s.log[k].msg, OwnSeqno(s), OwnSeqno(s'));
      assert SenderOk(s, k);
    }
    forall j, k | 0 <= j < |s'.log| && 0 <= k < |s'.log| ensures Consistent(s', j, k) { assert Consistent(s, j, k); }
    forall i, d | i in s'.nodes && d in s'.nodes[i].table ensures EntryBacked(s', i, d) {
      assert EntryBacked(s, i, d);
      forall k | 0 <= k < |s.nodes[i].table[d].paths|
        ensures Backed(s', d, s.nodes[i].table[d].seqno, s.nodes[i].table[d].paths[k])
      {
        assert Backed(s, d, s.nodes[i].table[d].seqno, s.nodes[i].table[d].paths[k]);
      }
    }
  }

  lemma KeepNodes(s: Net, e: Event)
    requires NodesOk(s) && LogOk(s) && e.At? && Enabled(s, e)
    ensures NodesOk(Apply(s, e))
  {
    assert NodeOk(Act(s, e).node) && Act(s, e).node.index == e.i by { ActStep(s, e); }
    hide NodeOk, Act;
  }

  lemma ApplyKeepsInv(s: Net, e: Event)
    requires Inv(s)
    ensures Inv(Apply(s, e))
  {
    if Enabled(s, e) && e.At? {
      var s' := Apply(s, e);
      KeepNodes(s, e);
      KeepSeqnos(s, e);
      KeepOneCount(s, e);
      hide NodesOk, OneCount, SeqnosOk, SenderOk, EntryBacked, Act;
      forall k | 0 <= k < |s'.log| ensures SenderOk(s', k) { KeepSender(s, e, k); }
      forall i, d | i in s'.nodes && d in s'.nodes[i].table ensures EntryBacked(s', i, d) { KeepBacked(s, e, i, d); }
    } else if Enabled(s, e) {
      TickKeepsInv(s, e);
    }
  }

  lemma InitInv(s: Net)
    requires Init(s)
    ensures Inv(s)
  {
    assert forall i | i in s.nodes :: s.nodes[i].table == map[];
  }

  /** Every state of every run from a freshly booted network satisfies the invariant. */
  lemma {:induction false} Reachable(s: Net, es: seq<Event>)
    requires Init(s)
    ensures Inv(Exec(s, es))
    decreases |es|
  {
    if es == [] {
      InitInv(s);
    } else {
      Reachable(s, es[..|es| - 1]);
      ApplyKeepsInv(Exec(s, es[..|es| - 1]), es[|es| - 1]);
    }
  }
}
