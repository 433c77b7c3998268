/** The trails that replies follow.  Each transmission of a reply is traced back, cause by cause, to the
    transmission that started it; two replies of one discovery that started apart never pass through a common
    node but the destination. */
module AomdvTrails {
  import opened RoutingBase
  import opened AomdvPaths
  import opened AomdvNode
  import opened AomdvProps
  import opened AomdvBounds
  import opened AomdvNetwork
  import opened AomdvDisjoint

  // ---------- a discovery has one destination ----------

  predicate Keyed(m: Msg) {
    m.Rreq? || m.Rrep?
  }

  /** The source that started the discovery a packet belongs to. */
  function KeySrc(m: Msg): Addr
    requires Keyed(m)
  {
    if m.Rreq? then m.src else m.ipDst
  }

  predicate SameKey(a: Msg, b: Msg) {
    Keyed(a) && Keyed(b) && KeySrc(a) == KeySrc(b) && a.bcastId == b.bcastId
  }

  predicate Inherits(h: Heard, m: Msg) {
    h.Packet? && SameKey(h.msg, m) && m.dst == h.msg.dst
  }

  predicate FreshKey(n: Node, n': Node, m: Msg) {
    m.Rreq? && m.src == n.index && n.bid <= m.bcastId < n'.bid
  }

  /** What is sent belongs to the discovery of the packet received, or to new ones of the node's own. */
  predicate KeyStep(n: Node, h: Heard, o: Out) {
    && o.node.bid >= n.bid
    && (forall k | 0 <= k < |o.sent| && Keyed(o.sent[k]) :: Inherits(h, o.sent[k]) || FreshKey(n, o.node, o.sent[k]))
    && (forall j, k | 0 <= j < k < |o.sent| :: !SameKey(o.sent[j], o.sent[k]))
  }

  lemma RecvRequestKeys(n: Node, m: Msg, env: Env)
    requires m.Rreq?
    ensures KeyStep(n, Packet(m), RecvRequest(n, m, env))
  {
    if m.src != n.index {
      var n1 := Noted(n, m, env);
      var r := UpdateReverse(n1, n1.table[m.src], m, FirstHop(n1, m), env);
      hide UpdateReverse, Settled, Advertised, Counted, MarkCount, IdGet, IdInsert;
    }
  }

  lemma RecvReplyKeys(n: Node, m: Msg, env: Env)
    requires m.Rrep?
    ensures KeyStep(n, Packet(m), RecvReply(n, m, env))
  {
    RecvReplyMarks(n, m, env);
    RecvReplyBid(n, m, env);
    hide RecvReply, Marks;
  }

  lemma RecvReplyBid(n: Node, m: Msg, env: Env)
    requires m.Rrep?
    ensures RecvReply(n, m, env).node.bid == n.bid
  {
    hide UpdateForward, Settled, Advertised, Counted, MarkCount, IdGet;
  }

  lemma RecvHelloKeys(n: Node, m: Msg, env: Env)
    requires m.Hello?
    ensures KeyStep(n, Packet(m), RecvHello(n, m, env))
  {
    var n1 := HeardHello(n, m.sender, env.now);
    RecvReplyBid(n1, HelloAsReply(n, m), env);
    RecvReplyMarks(n1, HelloAsReply(n, m), env);
    HelloSilent(n, m, env);
    hide RecvReply, Marks;
  }

  lemma HelloSilent(n: Node, m: Msg, env: Env)
    requires m.Hello?
    ensures RecvHello(n, m, env).sent == []
  {
    hide UpdateForward, Settled;
  }

  lemma {:induction false} LoseAllBid(n: Node, sender: Addr, us: seq<Unreachable>)
    ensures LoseAll(n, sender, us).node.bid == n.bid
    decreases |us|
  {
    if us != [] {
      hide Without;
      LoseAllBid(LoseOne(n, sender, us[0]).node, sender, us[1..]);
    }
  }

  lemma {:induction false} FailAllBid(n: Node, id: Addr, ds: seq<Addr>)
    requires forall d | d in ds :: d in n.table
    ensures FailAll(n, id, ds).node.bid == n.bid
    decreases |ds|
  {
    if ds != [] { FailAllBid(FailOne(n, id, ds[0]).node, id, ds[1..]); }
  }

  lemma PurgeOneKeys(n: Node, d: Addr, env: Env)
    requires d in n.table
    ensures KeyStep(n, Nothing, PurgeOne(n, d, env)) && PurgeOne(n, d, env).node.index == n.index
    ensures forall k | 0 <= k < |PurgeOne(n, d, env).sent| :: FreshKey(n, PurgeOne(n, d, env).node, PurgeOne(n, d, env).sent[k])
  {
    hide Unexpired, FirstUsed;
  }

  lemma {:induction false} PurgeAllKeys(n: Node, ds: seq<Addr>, env: Env)
    requires forall d | d in ds :: d in n.table
    ensures KeyStep(n, Nothing, PurgeAll(n, ds, env))
    ensures forall k | 0 <= k < |PurgeAll(n, ds, env).sent| :: FreshKey(n, PurgeAll(n, ds, env).node, PurgeAll(n, ds, env).sent[k])
    decreases |ds|
  {
    if ds != [] {
      var o := PurgeOne(n, ds[0], env);
      PurgeOneKeys(n, ds[0], env);
      PurgeAllKeys(o.node, ds[1..], env);
      var r := PurgeAll(o.node, ds[1..], env);
      forall j, k | 0 <= j < k < |o.sent + r.sent| ensures !SameKey((o.sent + r.sent)[j], (o.sent + r.sent)[k]) {
        if j < |o.sent| && k >= |o.sent| {
          assert FreshKey(n, o.node, o.sent[j]) && FreshKey(o.node, r.node, r.sent[k - |o.sent|]);
        }
      }
    }
  }

  lemma ActKeys(s: Net, e: Event)
    requires e.At? && Enabled(s, e)
    ensures KeyStep(s.nodes[e.i], HeardIn(s, e), Act(s, e))
  {
    var n := s.nodes[e.i];
    var env := Env(s.now, e.waiting, e.perHop);
    match e.action
    case Receive(k) =>
      var m := s.log[k].msg;
      hide RecvRequest, RecvReply, RecvHello, LoseAll;
      match m {
        case Rreq(_, _, _, _, _, _, _, _, _) => RecvRequestKeys(n, m, env);
        case Rrep(_, _, _, _, _, _, _, _, _, _) => RecvReplyKeys(n, m, env);
        case Rerr(_, _) => LoseAllBid(n, m.sender, m.unreachable);
        case Hello(_, _) => RecvHelloKeys(n, m, env);
      }
    case Data(d, mine) =>
    case PurgeRoutes => PurgeAllKeys(n, n.dests, env);
    case PurgeIds =>
    case LoseNeighbor(id, stuck) =>
      FailAllBid(ForgetNeighbor(n, id), id, n.dests);
      SalvageAllQuiet(HandleLinkFailure(ForgetNeighbor(n, id), id).node, stuck, s.now);
    case Beacon =>
  }

  predicate IdUsed(s: Net, k: nat)
    requires k < |s.log| && Keyed(s.log[k].msg)
  {
    KeySrc(s.log[k].msg) in s.nodes && s.log[k].msg.bcastId < s.nodes[KeySrc(s.log[k].msg)].bid
  }

  predicate OneDst(s: Net, j: nat, k: nat)
    requires j < |s.log| && k < |s.log|
  {
    SameKey(s.log[j].msg, s.log[k].msg) ==> s.log[j].msg.dst == s.log[k].msg.dst
  }

  ghost predicate IdsOk(s: Net) {
    forall k | 0 <= k < |s.log| && Keyed(s.log[k].msg) :: IdUsed(s, k)
  }

  ghost predicate DstsOk(s: Net) {
    forall j, k | 0 <= j < |s.log| && 0 <= k < |s.log| :: OneDst(s, j, k)
  }

  ghost predicate KeysOk(s: Net) {
    IdsOk(s) && DstsOk(s)
  }

  lemma NewKey(s: Net, e: Event, k: nat)
    requires e.At? && Enabled(s, e) && |s.log| <= k < |Apply(s, e).log| && Keyed(Apply(s, e).log[k].msg)
    ensures var (n, o, m) := (s.nodes[e.i], Act(s, e), Apply(s, e).log[k].msg);
            Inherits(HeardIn(s, e), m) || FreshKey(n, o.node, m)
    ensures Act(s, e).node.bid >= s.nodes[e.i].bid
  {
    ActKeys(s, e);
    LogAfter(s, e, k);
    hide Act;
  }

  lemma KeepIdUsed(s: Net, e: Event, k: nat)
    requires NodesOk(s) && KeysOk(s) && e.At? && Enabled(s, e) && k < |Apply(s, e).log| && Keyed(Apply(s, e).log[k].msg)
    ensures IdUsed(Apply(s, e), k)
  {
    ActKeys(s, e);
    LogAfter(s, e, k);
    assert s.nodes[e.i].index == e.i;
    hide NodesOk, Act;
    if k < |s.log| {
      assert IdUsed(s, k);
    } else {
      NewKey(s, e, k);
      if Inherits(HeardIn(s, e), Apply(s, e).log[k].msg) { assert IdUsed(s, e.action.k); }
    }
  }

  lemma KeepOneDst(s: Net, e: Event, j: nat, k: nat)
    requires NodesOk(s) && KeysOk(s) && e.At? && Enabled(s, e) && j <= k < |Apply(s, e).log|
    ensures OneDst(Apply(s, e), j, k) && OneDst(Apply(s, e), k, j)
  {
    var s' := Apply(s, e);
    if SameKey(s'.log[j].msg, s'.log[k].msg) && j < k {
      LogAfter(s, e, j);
      LogAfter(s, e, k);
      assert s.nodes[e.i].index == e.i;
      if k < |s.log| {
        assert OneDst(s, j, k);
      } else {
        NewKey(s, e, k);
        ActKeys(s, e);
        hide NodesOk, Act, Apply;
        if j < |s.log| {
          assert IdUsed(s, j);
          assert Inherits(HeardIn(s, e), s'.log[k].msg);
          assert OneDst(s, j, e.action.k);
        }
      }
    }
  }

  lemma KeepIds(t: Net, e: Event)
    requires NodesOk(t) && KeysOk(t) && Enabled(t, e) && e.At?
    ensures IdsOk(Apply(t, e))
  {
    hide NodesOk, KeysOk, Act, Apply, Enabled, IdUsed, Keyed;
    var t' := Apply(t, e);
    forall k | 0 <= k < |t'.log| && Keyed(t'.log[k].msg) ensures IdUsed(t', k) { KeepIdUsed(t, e, k); }
  }

  lemma KeepDsts(t: Net, e: Event)
    requires NodesOk(t) && KeysOk(t) && Enabled(t, e) && e.At?
    ensures DstsOk(Apply(t, e))
  {
    hide NodesOk, KeysOk, Act, Apply, Enabled, OneDst;
    var t' := Apply(t, e);
    forall j, k | 0 <= j < |t'.log| && 0 <= k < |t'.log| ensures OneDst(t', j, k) {
      if j <= k { KeepOneDst(t, e, j, k); } else { KeepOneDst(t, e, k, j); }
    }
  }

  lemma ActKeepsKeys(t: Net, e: Event)
    requires KeysOk(t) && Inv(t) && Enabled(t, e) && e.At?
    ensures KeysOk(Apply(t, e))
  {
    hide NodesOk, IdsOk, DstsOk, Act, Apply, Enabled;
    KeepIds(t, e);
    KeepDsts(t, e);
  }

  lemma TimeKeepsKeys(t: Net, e: Event)
    requires KeysOk(t) && (!Enabled(t, e) || !e.At?)
    ensures KeysOk(Apply(t, e))
  {
    var t' := Apply(t, e);
    forall k | 0 <= k < |t'.log| && Keyed(t'.log[k].msg) ensures IdUsed(t', k) { assert IdUsed(t, k); }
    forall j, k | 0 <= j < |t'.log| && 0 <= k < |t'.log| ensures OneDst(t', j, k) { assert OneDst(t, j, k); }
  }

  lemma {:induction false} KeysReachable(s: Net, es: seq<Event>)
    requires Init(s)
    ensures KeysOk(Exec(s, es))
    decreases |es|
  {
    if es != [] {
      var t, e := Exec(s, es[..|es| - 1]), es[|es| - 1];
      KeysReachable(s, es[..|es| - 1]);
      Reachable(s, es[..|es| - 1]);
      hide Inv, KeysOk, Apply, Enabled, Init;
      if Enabled(t, e) && e.At? { ActKeepsKeys(t, e); } else { TimeKeepsKeys(t, e); }
    }
  }

  // ---------- trails ----------

  /** Packet `k` is a reply passed on; its cause is the transmission received. */
  predicate PassedOn(s: Net, k: nat)
    requires k < |s.log|
  {
    s.log[k].msg.Rrep? && 0 <= s.log[k].cause < k && s.log[s.log[k].cause].msg.Rrep?
  }

  /** The transmissions by which the reply sent as packet `k` came about, first to last. */
  function Trail(s: Net, k: nat): (t: seq<nat>)
    requires k < |s.log|
    ensures |t| >= 1 && forall u | u in t :: u <= k
  {
    if PassedOn(s, k) then Trail(s, s.log[k].cause) + [k] else [k]
  }

  predicate CauseOk(s: Net, k: nat)
    requires k < |s.log|
  {
    && s.log[k].cause < k
    && (PassedOn(s, k) ==>
          var (a, b) := (s.log[s.log[k].cause].msg, s.log[k].msg);
          b.sender != b.dst && b.dst == a.dst && b.ipDst == a.ipDst && b.bcastId == a.bcastId)
  }

  ghost predicate CausesOk(s: Net) {
    forall k | 0 <= k < |s.log| :: CauseOk(s, k)
  }

  lemma KeepCause(s: Net, e: Event, k: nat)
    requires CausesOk(s) && e.At? && Enabled(s, e) && k < |Apply(s, e).log|
    ensures CauseOk(Apply(s, e), k)
  {
    var s' := Apply(s, e);
    LogAfter(s, e, k);
    ActMarks(s, e);
    hide Marks, Act;
    if k < |s.log| {
      assert CauseOk(s, k);
      assert s.log[k].cause >= 0 ==> s'.log[s.log[k].cause] == s.log[s.log[k].cause];
    } else if PassedOn(s', k) {
      assert s'.log[e.action.k] == s.log[e.action.k];
    }
  }

  lemma {:induction false} CausesReachable(s: Net, es: seq<Event>)
    ensures Init(s) ==> CausesOk(Exec(s, es))
    decreases |es|
  {
    if es != [] && Init(s) {
      var t, e := Exec(s, es[..|es| - 1]), es[|es| - 1];
      CausesReachable(s, es[..|es| - 1]);
      hide Init;
      forall k | 0 <= k < |Apply(t, e).log| ensures CauseOk(Apply(t, e), k) {
        if Enabled(t, e) && e.At? { KeepCause(t, e, k); } else { assert CauseOk(t, k); }
      }
    }
  }

  /** Every transmission of a trail belongs to the same reply: same discovery, same destination, same start. */
  lemma {:induction false} TrailOf(s: Net, k: nat, u: nat)
    requires CausesOk(s) && k < |s.log| && s.log[k].msg.Rrep? && u in Trail(s, k)
    ensures u < |s.log| && s.log[u].msg.Rrep? && Trail(s, u)[0] == Trail(s, k)[0]
    ensures s.log[u].msg.dst == s.log[k].msg.dst && s.log[u].msg.ipDst == s.log[k].msg.ipDst
    ensures s.log[u].msg.bcastId == s.log[k].msg.bcastId
    decreases k
  {
    assert CauseOk(s, k);
    if PassedOn(s, k) && u != k {
      assert u in Trail(s, s.log[k].cause);
      TrailOf(s, s.log[k].cause, u);
    }
  }

  /** Two replies of one discovery that were started by different transmissions: their trails have no
      transmitting node in common but the destination they both tell of. */
  lemma NodeDisjointReplies(s: Net, es: seq<Event>, p: nat, q: nat, u: nat, v: nat)
    requires Init(s) && p < |Exec(s, es).log| && q < |Exec(s, es).log|
    requires Exec(s, es).log[p].msg.Rrep? && SameKey(Exec(s, es).log[p].msg, Exec(s, es).log[q].msg)
    requires Exec(s, es).log[q].msg.Rrep?
    requires forall x :: Remembers(s, es, x, Exec(s, es).log[p].msg.ipDst, Exec(s, es).log[p].msg.bcastId)
    requires Trail(Exec(s, es), p)[0] != Trail(Exec(s, es), q)[0]
    requires u in Trail(Exec(s, es), p) && v in Trail(Exec(s, es), q)
    requires Exec(s, es).log[u].msg.sender == Exec(s, es).log[v].msg.sender
    ensures Exec(s, es).log[p].msg.dst == Exec(s, es).log[q].msg.dst
    ensures Exec(s, es).log[u].msg.sender == Exec(s, es).log[p].msg.dst
  {
    var t := Exec(s, es);
    CausesReachable(s, es);
    KeysReachable(s, es);
    assert OneDst(t, p, q);
    TrailOf(t, p, u);
    TrailOf(t, q, v);
    var x := t.log[u].msg.sender;
    if x != t.log[p].msg.dst {
      var (src, id) := (t.log[p].msg.ipDst, t.log[p].msg.bcastId);
      assert Remembers(s, es, x, src, id);
      hide Remembers, Init, CausesOk, KeysOk, Exec;
      OneReplyPerNode(s, es, x, src, id, u, v);
    }
  }
}
