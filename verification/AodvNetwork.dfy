/** A network of AODV nodes.  Every packet ever sent stays in the log and any node may receive any of them
    at any later time, any number of times or never: loss, delay, duplication and reordering are all runs
    of this model, and so is a reply reaching a node it was not addressed to. */
module AodvNetwork {
  import opened RoutingBase
  import opened AodvNode
  import opened AodvProps
  import opened AodvBounds

  datatype Sent = Sent(at: real, msg: Msg)

  datatype Net = Net(nodes: map<Addr, Node>, log: seq<Sent>, now: real)

  datatype Action =
    | Receive(k: nat)
    | Data(d: Addr, mine: bool)
    | PurgeRoutes
    | PurgeIds
    | LoseNeighbor(id: Addr)
    | Beacon

  datatype Event =
    | Tick(dt: real)
    | At(i: Addr, action: Action, waiting: set<Addr>, perHop: map<Addr, real>)

  ghost predicate Init(s: Net) {
    s.log == [] && forall i | i in s.nodes :: s.nodes[i] == Boot(i)
  }

  predicate Enabled(s: Net, e: Event) {
    match e
    case Tick(dt) => dt >= 0.0
    case At(i, action, _, _) =>
      && i in s.nodes
      && (action.Receive? ==> action.k < |s.log|)
      && (action.PurgeRoutes? || action.LoseNeighbor? ==> TableListed(s.nodes[i]))  // holds in every run
  }

  function Receipt(n: Node, m: Msg, env: Env): Out {
    match m
    case Rreq(_, _, _, _, _, _, _, _) => RecvRequest(n, m, env)
    case Rrep(_, _, _, _, _, _, _, _) => RecvReply(n, m, env)
    case Rerr(_, _) => RecvError(n, m)
    case Hello(_, _) => RecvHello(n, m, env)
  }

  function Act(s: Net, e: Event): Out
    requires e.At? && Enabled(s, e)
  {
    var n := s.nodes[e.i];
    var env := Env(s.now, e.waiting, e.perHop);
    match e.action
    case Receive(k) => Receipt(n, s.log[k].msg, env)
    case Data(d, mine) => RtResolve(n, d, mine, env)
    case PurgeRoutes => RtPurge(n, env)
    case PurgeIds => Out(n.(bcache := IdPurge(n.bcache, s.now)), [])
    case LoseNeighbor(id) => NbDelete(n, id)
    case Beacon => SendHello(n)
  }

  function Stamp(sent: seq<Msg>, now: real): (r: seq<Sent>)
    ensures |r| == |sent| && forall k | 0 <= k < |r| :: r[k] == Sent(now, sent[k])
  {
    seq(|sent|, k requires 0 <= k < |sent| => Sent(now, sent[k]))
  }

  /** One event; an event that cannot happen changes nothing. */
  function Apply(s: Net, e: Event): Net {
    if !Enabled(s, e) then s
    else if e.Tick? then s.(now := s.now + e.dt)
    else
      var o := Act(s, e);
      s.(nodes := s.nodes[e.i := o.node], log := s.log + Stamp(o.sent, s.now))
  }

  function Exec(s: Net, es: seq<Event>): Net
    decreases |es|
  {
    if es == [] then s else Apply(Exec(s, es[..|es| - 1]), es[|es| - 1])
  }

  // ---------- the invariant ----------

  ghost function OwnSeqno(s: Net): Owner {
    d => if d in s.nodes then s.nodes[d].seqno else 0
  }

  ghost predicate NodesOk(s: Net) {
    forall i | i in s.nodes :: s.nodes[i].index == i && NodeOk(s.nodes[i])
  }

  ghost predicate LogOk(s: Net) {
    forall k | 0 <= k < |s.log| ::
      MsgOk(s.log[k].msg) && s.log[k].msg.sender in s.nodes && Honest(s.nodes[s.log[k].msg.sender], s.log[k].msg)
  }

  /** The next hop of a live route holds at least as fresh a route, one hop shorter, or is the destination. */
  predicate RouteOk(s: Net, i: Addr, d: Addr)
    requires i in s.nodes && d in s.nodes[i].table
  {
    var e := s.nodes[i].table[d];
    e.up ==> && e.hops.Fin? && e.hops.n >= 1 && e.nexthop in s.nodes
             && AtLeast(s.nodes[e.nexthop], d, e.seqno, e.hops.n - 1)
  }

  ghost predicate RoutesOk(s: Net) {
    forall i, d | i in s.nodes && d in s.nodes[i].table :: RouteOk(s, i, d)
  }

  ghost predicate SeqnosOk(s: Net) {
    && (forall i | i in s.nodes :: Bounded(s.nodes[i], OwnSeqno(s)))
    && (forall k | 0 <= k < |s.log| :: MsgBounded(s.log[k].msg, OwnSeqno(s)))
  }

  ghost predicate Inv(s: Net) {
    NodesOk(s) && LogOk(s) && RoutesOk(s) && SeqnosOk(s)
  }

  lemma OwnersEven(s: Net)
    requires NodesOk(s)
    ensures Even(OwnSeqno(s))
  {
  }

  /** The packet an event brings to its node. */
  function HeardIn(s: Net, e: Event): Heard
    requires e.At? && Enabled(s, e)
  {
    if e.action.Receive? && (s.log[e.action.k].msg.Rreq? || s.log[e.action.k].msg.Rrep?)
    then Packet(s.log[e.action.k].msg) else Nothing
  }

  lemma ActStep(s: Net, e: Event)
    requires NodesOk(s) && LogOk(s) && e.At? && Enabled(s, e)
    ensures StepOk(s.nodes[e.i], HeardIn(s, e), Act(s, e))
  {
    var n := s.nodes[e.i];
    var env := Env(s.now, e.waiting, e.perHop);
    match e.action
    case Receive(k) =>
      var m := s.log[k].msg;
      match m {
        case Rreq(_, _, _, _, _, _, _, _) => RecvRequestStep(n, m, env);
        case Rrep(_, _, _, _, _, _, _, _) => RecvReplyStep(n, m, env);
        case Rerr(_, _) => RecvErrorStep(n, m);
        case Hello(_, _) => SameTable(n, Act(s, e).node);
      }
    case Data(d, mine) => RtResolveStep(n, d, mine, env);
    case PurgeRoutes => PurgeAllStep(n, n.dests, env);
    case PurgeIds => SameTable(n, Act(s, e).node);
    case LoseNeighbor(id) => NbDeleteStep(n, id);
    case Beacon => SameTable(n, n);
  }

  lemma ReceiptBounded(n: Node, m: Msg, env: Env, own: Owner)
    requires NodeOk(n) && MsgOk(m) && Even(own) && Bounded(n, own) && MsgBounded(m, own)
    requires Receipt(n, m, env).node.seqno <= own(n.index)
    ensures OutBounded(Receipt(n, m, env), own)
  {
    match m
    case Rreq(_, _, _, _, _, _, _, _) => RecvRequestBounded(n, m, env, own);
    case Rrep(_, _, _, _, _, _, _, _) => RecvReplyBounded(n, m, env, own);
    case Rerr(_, _) => LoseAllBounded(n, m.sender, m.unreachable, own);
    case Hello(_, _) =>
  }

  lemma NbDeleteSeqno(n: Node, id: Addr)
    requires TableListed(n)
    ensures NbDelete(n, id).node.seqno == n.seqno + 2
  {
    FailAllCache(n.(seqno := n.seqno + 2, nbrs := NbWithout(n.nbrs, id)), id, n.dests);
  }

  lemma ActBounded(s: Net, e: Event, own: Owner)
    requires NodesOk(s) && LogOk(s) && e.At? && Enabled(s, e) && Even(own)
    requires Bounded(s.nodes[e.i], own)
    requires forall k | 0 <= k < |s.log| :: MsgBounded(s.log[k].msg, own)
    requires Act(s, e).node.seqno <= own(e.i)
    ensures OutBounded(Act(s, e), own)
  {
    var n := s.nodes[e.i];
    var env := Env(s.now, e.waiting, e.perHop);
    match e.action
    case Receive(k) => ReceiptBounded(n, s.log[k].msg, env, own);
    case Data(d, mine) => RtResolveBounded(n, d, mine, env, own);
    case PurgeRoutes => PurgeAllBounded(n, n.dests, env, own);
    case PurgeIds =>
    case LoseNeighbor(id) =>
      NbDeleteSeqno(n, id);
      NbDeleteBounded(n, id, own);
    case Beacon =>
  }

  // ---------- one event keeps the invariant ----------

  lemma ActEvolves(s: Net, e: Event)
    requires NodesOk(s) && LogOk(s) && e.At? && Enabled(s, e)
    ensures Evolves(s.nodes[e.i], Act(s, e).node) && SentOk(Act(s, e).node, Act(s, e).sent) && NodeOk(Act(s, e).node)
  {
    ActStep(s, e);
  }

  lemma StaysHonest(n: Node, n': Node, m: Msg)
    requires Evolves(n, n') && Honest(n, m)
    ensures Honest(n', m)
  {
    if m.Rreq? { AtLeastEvolves(n, n', m.src, m.srcSeqno, m.hopCount - 1); }
    if m.Rrep? { AtLeastEvolves(n, n', m.dst, m.dstSeqno, m.hopCount - 1); }
  }

  /** The log grows by what the acting node sends; the other nodes stay as they are. */
  lemma AppliedLog(s: Net, e: Event, k: nat)
    requires e.At? && Enabled(s, e) && k < |Apply(s, e).log|
    ensures Apply(s, e).nodes == s.nodes[e.i := Act(s, e).node]
    ensures k < |s.log| ==> Apply(s, e).log[k] == s.log[k]
    ensures k >= |s.log| ==> k - |s.log| < |Act(s, e).sent| && Apply(s, e).log[k] == Sent(s.now, Act(s, e).sent[k - |s.log|])
  {
  }

  lemma SameIndex(n: Node, n': Node)
    requires Evolves(n, n')
    ensures n'.index == n.index
  {
  }

  lemma KeepLogAt(s: Net, e: Event, k: nat)
    requires LogOk(s) && NodesOk(s) && e.At? && Enabled(s, e) && k < |Apply(s, e).log|
    requires Evolves(s.nodes[e.i], Act(s, e).node) && SentOk(Act(s, e).node, Act(s, e).sent)
    ensures var (s', m) := (Apply(s, e), Apply(s, e).log[k].msg);
            MsgOk(m) && m.sender in s'.nodes && Honest(s'.nodes[m.sender], m)
  {
    hide Act, Apply, Evolves, NodeOk, MsgOk, Stamp;
    AppliedLog(s, e, k);
    if k < |s.log| {
      var m := s.log[k].msg;
      assert Honest(s.nodes[m.sender], m);
      if m.sender == e.i { StaysHonest(s.nodes[e.i], Act(s, e).node, m); }
    } else {
      var m := Act(s, e).sent[k - |s.log|];
      SameIndex(s.nodes[e.i], Act(s, e).node);
      assert Honest(Act(s, e).node, m);
    }
  }

  lemma KeepLog(s: Net, e: Event)
    requires Inv(s) && e.At? && Enabled(s, e)
    ensures LogOk(Apply(s, e))
  {
    hide Act, Apply, Enabled, Evolves, SentOk, MsgOk, Honest, NodeOk, RoutesOk, SeqnosOk;
    ActEvolves(s, e);
    var s' := Apply(s, e);
    forall k | 0 <= k < |s'.log|
      ensures MsgOk(s'.log[k].msg) && s'.log[k].msg.sender in s'.nodes && Honest(s'.nodes[s'.log[k].msg.sender], s'.log[k].msg)
    {
      KeepLogAt(s, e, k);
    }
  }

  /** Where a live route comes from: in the old state its next hop already backed it. */
  lemma RouteOrigin(s: Net, e: Event, i: Addr, d: Addr)
    requires NodesOk(s) && LogOk(s) && RoutesOk(s) && e.At? && Enabled(s, e)
    requires i in s.nodes && d in Apply(s, e).nodes[i].table && Apply(s, e).nodes[i].table[d].up
    ensures var f := Apply(s, e).nodes[i].table[d];
            && f.hops.Fin? && f.hops.n >= 1 && f.nexthop in s.nodes
            && AtLeast(s.nodes[f.nexthop], d, f.seqno, f.hops.n - 1)
  {
    var n' := Apply(s, e).nodes[i];
    var f := n'.table[d];
    if i != e.i {
      assert RouteOk(s, i, d);
    } else {
      assert EntryOk(f) && RoutesFrom(s.nodes[i], HeardIn(s, e), n') by { ActStep(s, e); }
      if d in s.nodes[i].table && SameRoute(s.nodes[i].table[d], f) {
        assert RouteOk(s, i, d);
      } else {
        var m := HeardIn(s, e).msg;
        assert Offers(m, d, f.seqno, f.hops.n) && f.nexthop == m.sender;
        assert Honest(s.nodes[m.sender], m);
      }
    }
  }

  lemma KeepRoute(s: Net, e: Event, i: Addr, d: Addr)
    requires NodesOk(s) && LogOk(s) && RoutesOk(s) && e.At? && Enabled(s, e)
    requires i in s.nodes && d in Apply(s, e).nodes[i].table
    ensures RouteOk(Apply(s, e), i, d)
  {
    var f := Apply(s, e).nodes[i].table[d];
    if f.up {
      RouteOrigin(s, e, i, d);
      if f.nexthop == e.i {
        assert Evolves(s.nodes[e.i], Act(s, e).node) by { ActStep(s, e); }
        AtLeastEvolves(s.nodes[e.i], Act(s, e).node, d, f.seqno, f.hops.n - 1);
      }
    }
  }

  lemma OwnersRise(s: Net, e: Event)
    requires NodesOk(s) && e.At? && Enabled(s, e) && Act(s, e).node.seqno >= s.nodes[e.i].seqno
    ensures forall d :: OwnSeqno(s)(d) <= OwnSeqno(Apply(s, e))(d)
  {
    hide Act;
  }

  lemma KeepSeqnos(s: Net, e: Event)
    requires Inv(s) && e.At? && Enabled(s, e) && NodesOk(Apply(s, e))
    ensures SeqnosOk(Apply(s, e))
  {
    hide Act, MsgBounded, NodeOk, SentOk, LogOk, RoutesOk;
    var s', o := Apply(s, e), Act(s, e);
    var own, own' := OwnSeqno(s), OwnSeqno(s');
    ActEvolves(s, e);
    OwnersRise(s, e);
    OwnersEven(s');
    forall i | i in s.nodes ensures Bounded(s.nodes[i], own') { assert Bounded(s.nodes[i], own); }
    forall k | 0 <= k < |s.log| ensures MsgBounded(s.log[k].msg, own') { RaiseMsg(s.log[k].msg, own, own'); }
    ActBounded(s, e, own');
    hide Bounded, Evolves;
    forall k | 0 <= k < |s'.log| ensures MsgBounded(s'.log[k].msg, own') {
      AppliedLog(s, e, k);
    }
  }

  lemma RaiseMsg(m: Msg, own: Owner, own': Owner)
    requires MsgBounded(m, own) && forall d :: own(d) <= own'(d)
    ensures MsgBounded(m, own')
  {
    if m.Rerr? {
      forall k | 0 <= k < |m.unreachable| ensures m.unreachable[k].seqno <= own'(m.unreachable[k].dst) + 1 {
        assert own(m.unreachable[k].dst) <= own'(m.unreachable[k].dst);
      }
    }
  }

  lemma ApplyKeepsInv(s: Net, e: Event)
    requires Inv(s)
    ensures Inv(Apply(s, e))
  {
    var s' := Apply(s, e);
    if Enabled(s, e) && e.At? {
      assert NodesOk(s') by { ActStep(s, e); }
      KeepLog(s, e);
      forall i, d | i in s'.nodes && d in s'.nodes[i].table ensures RouteOk(s', i, d) { KeepRoute(s, e, i, d); }
      KeepSeqnos(s, e);
    } else if Enabled(s, e) {
      assert forall d :: OwnSeqno(s)(d) == OwnSeqno(s')(d);
      forall k | 0 <= k < |s'.log| ensures MsgBounded(s'.log[k].msg, OwnSeqno(s')) {
        RaiseMsg(s.log[k].msg, OwnSeqno(s), OwnSeqno(s'));
      }
      forall i, d | i in s'.nodes && d in s'.nodes[i].table ensures RouteOk(s', i, d) { assert RouteOk(s, i, d); }
    }
  }

  /** Every state of every run from a freshly booted network satisfies the invariant. */
  lemma {:induction false} Reachable(s: Net, es: seq<Event>)
    requires Init(s)
    ensures Inv(Exec(s, es))
    decreases |es|
  {
    if es == [] {
    } else {
      Reachable(s, es[..|es| - 1]);
      ApplyKeepsInv(Exec(s, es[..|es| - 1]), es[|es| - 1]);
    }
  }
}
