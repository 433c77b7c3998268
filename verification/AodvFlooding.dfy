/** How far a route request spreads: a node passes the same request on at most once in any BCAST_ID_SAVE
    window, every copy has spent exactly its hop count of the original time to live, and so no route
    learned from a request is longer than NETWORK_DIAMETER. */
module AodvFlooding {
  import opened RoutingBase
  import opened AodvNode
  import opened AodvProps
  import opened AodvBounds
  import opened AodvNetwork

  /** Packet `k` is a request that its sender passed on for another node. */
  predicate Relayed(s: Net, k: nat)
    requires k < |s.log|
  {
    s.log[k].msg.Rreq? && s.log[k].msg.src != s.log[k].msg.sender
  }

  /** Packet `k` is a request as its source first sent it. */
  predicate Original(s: Net, k: nat)
    requires k < |s.log|
  {
    s.log[k].msg.Rreq? && s.log[k].msg.src == s.log[k].msg.sender && s.log[k].msg.hopCount == 1
  }

  predicate SameRequest(s: Net, j: nat, k: nat)
    requires j < |s.log| && k < |s.log|
  {
    var (a, b) := (s.log[j].msg, s.log[k].msg);
    a.Rreq? && b.Rreq? && a.src == b.src && a.bcastId == b.bcastId
  }

  // ---------- at most once a window ----------

  predicate Holds(cache: seq<BcastId>, src: Addr, id: nat, until: real) {
    exists b | b in cache :: b.src == src && b.id == id && b.expire >= until
  }

  /** The node that passed this request on still remembers it, or its window is over. */
  predicate Remembered(s: Net, k: nat)
    requires k < |s.log| && s.log[k].msg.Rreq?
  {
    var m := s.log[k].msg;
    || s.log[k].at + BCAST_ID_SAVE <= s.now
    || (m.sender in s.nodes && Holds(s.nodes[m.sender].bcache, m.src, m.bcastId, s.log[k].at + BCAST_ID_SAVE))
  }

  ghost predicate MemoryOk(s: Net) {
    forall k | 0 <= k < |s.log| && Relayed(s, k) :: Remembered(s, k)
  }

  predicate Apart(s: Net, j: nat, k: nat)
    requires j < |s.log| && k < |s.log|
  {
    s.log[j].msg.sender == s.log[k].msg.sender && SameRequest(s, j, k) && Relayed(s, j)
    ==> s.log[k].at >= s.log[j].at + BCAST_ID_SAVE
  }

  ghost predicate WindowOk(s: Net) {
    forall j, k | 0 <= j < k < |s.log| :: Apart(s, j, k)
  }

  lemma HoldsFound(cache: seq<BcastId>, src: Addr, id: nat, until: real)
    requires Holds(cache, src, id, until)
    ensures IdLookup(cache, src, id)
  {
    var b :| b in cache && b.src == src && b.id == id && b.expire >= until;
    var k :| 0 <= k < |cache| && cache[k] == b;
  }

  lemma PurgeForgets(cache: seq<BcastId>, now: real, src: Addr, id: nat, until: real)
    requires Holds(cache, src, id, until) && until > now
    ensures Holds(IdPurge(cache, now), src, id, until)
  {
    var b :| b in cache && b.src == src && b.id == id && b.expire >= until;
    IdPurgeKeeps(cache, now, b);
  }

  /** What an event does to the cache and which requests it sends. */
  lemma ActFloods(s: Net, e: Event)
    requires e.At? && Enabled(s, e)
    ensures var n, o := s.nodes[e.i], Act(s, e);
            || OwnRequests(n, o)
            || (e.action.PurgeIds? && o.node == n.(bcache := IdPurge(n.bcache, s.now)) && o.sent == [])
            || (e.action.Receive? && s.log[e.action.k].msg.Rreq? && PassesOn(n, s.log[e.action.k].msg, s.now, o))
  {
    var n := s.nodes[e.i];
    var env := Env(s.now, e.waiting, e.perHop);
    match e.action
    case Receive(k) =>
      var m := s.log[k].msg;
      match m {
        case Rreq(_, _, _, _, _, _, _, _) => RecvRequestPasses(n, m, env);
        case Rrep(_, _, _, _, _, _, _, _) => RecvReplyOwn(n, m, env);
        case Rerr(_, _) => LoseAllCache(n, m.sender, m.unreachable);
        case Hello(_, _) =>
      }
    case Data(d, mine) =>
    case PurgeRoutes => PurgeAllOwn(n, n.dests, env);
    case PurgeIds =>
    case LoseNeighbor(id) => FailAllCache(n.(seqno := n.seqno + 2, nbrs := NbWithout(n.nbrs, id)), id, n.dests);
    case Beacon =>
  }

  lemma KeepMemory(s: Net, e: Event, k: nat)
    requires MemoryOk(s) && Enabled(s, e) && LogOk(s)
    requires k < |Apply(s, e).log| && Relayed(Apply(s, e), k)
    requires e.At? ==> s.nodes[e.i].index == e.i
    ensures Remembered(Apply(s, e), k)
  {
    var s' := Apply(s, e);
    if e.At? { ActFloods(s, e); }
    if k < |s.log| {
      assert s'.log[k] == s.log[k] && Relayed(s, k) && Remembered(s, k);
      var m, until := s.log[k].msg, s.log[k].at + BCAST_ID_SAVE;
      if until > s.now && e.At? && e.i == m.sender {
        KeepHolds(s, e, m.src, m.bcastId, until);
      }
    } else {
      var o := Act(s, e);
      assert s'.log[k] == Sent(s.now, o.sent[k - |s.log|]);
      var m := s.log[e.action.k].msg;
      assert o.node.bcache[0] == BcastId(m.src, m.bcastId, s.now + BCAST_ID_SAVE);
    }
  }

  lemma KeepHolds(s: Net, e: Event, src: Addr, id: nat, until: real)
    requires e.At? && Enabled(s, e) && Holds(s.nodes[e.i].bcache, src, id, until) && until > s.now
    ensures Holds(Act(s, e).node.bcache, src, id, until)
  {
    var n, o := s.nodes[e.i], Act(s, e);
    ActFloods(s, e);
    if e.action.PurgeIds? {
      PurgeForgets(n.bcache, s.now, src, id, until);
    } else if !OwnRequests(n, o) {
      var b :| b in n.bcache && b.src == src && b.id == id && b.expire >= until;
      assert b in o.node.bcache;
    }
  }

  /** A request added to the log is a new one of the acting node's own, or the only packet of its event. */
  lemma NewRequest(s: Net, e: Event, k: nat)
    requires e.At? && Enabled(s, e) && |s.log| <= k < |Apply(s, e).log| && Apply(s, e).log[k].msg.Rreq?
    ensures var (n, o, m) := (s.nodes[e.i], Act(s, e), Apply(s, e).log[k].msg);
            && Apply(s, e).log[k].at == s.now && m == o.sent[k - |s.log|]
            && (|| (OwnRequests(n, o) && OwnRequest(n, o.node, m))
                || (e.action.Receive? && s.log[e.action.k].msg.Rreq? && k == |s.log|
                    && |Apply(s, e).log| == |s.log| + 1 && PassesOn(n, s.log[e.action.k].msg, s.now, o)))
  {
    ActFloods(s, e);
    assert Apply(s, e).log[k] == Sent(s.now, Act(s, e).sent[k - |s.log|]);
    if OwnRequests(s.nodes[e.i], Act(s, e)) {
      assert OwnRequest(s.nodes[e.i], Act(s, e).node, Act(s, e).sent[k - |s.log|]);
    }
  }

  lemma KeepApart(s: Net, e: Event, j: nat, k: nat)
    requires MemoryOk(s) && WindowOk(s) && Enabled(s, e) && j < k < |Apply(s, e).log|
    requires e.At? ==> s.nodes[e.i].index == e.i
    ensures Apart(Apply(s, e), j, k)
  {
    var s' := Apply(s, e);
    if k < |s.log| {
      assert s'.log[j] == s.log[j] && s'.log[k] == s.log[k] && Apart(s, j, k);
    } else if j >= |s.log| {
      if Relayed(s', j) { NewRequest(s, e, j); }
    } else if SameRequest(s', j, k) && Relayed(s', j) && s'.log[j].msg.sender == s'.log[k].msg.sender {
      NewRequest(s, e, k);
      assert s'.log[j] == s.log[j] && Relayed(s, j) && Remembered(s, j);
      var m := s.log[j].msg;
      if s.log[j].at + BCAST_ID_SAVE > s.now {
        HoldsFound(s.nodes[m.sender].bcache, m.src, m.bcastId, s.log[j].at + BCAST_ID_SAVE);
      }
    }
  }

  // ---------- hops and time to live ----------

  /** Packet `k` entered the network as packet `o`, and its hop count is what its time to live has lost. */
  predicate CameFrom(s: Net, o: nat, k: nat)
    requires o < |s.log| && k < |s.log|
  {
    && Original(s, o) && SameRequest(s, o, k)
    && s.log[k].msg.hopCount + s.log[k].msg.ttl == s.log[o].msg.ttl + 1
  }

  ghost predicate HasOrigin(s: Net, k: nat)
    requires k < |s.log|
  {
    exists o: nat | o < |s.log| :: CameFrom(s, o, k)
  }

  ghost predicate OriginsOk(s: Net) {
    && (forall k | 0 <= k < |s.log| && s.log[k].msg.Rreq? :: HasOrigin(s, k))
    && (forall k | 0 <= k < |s.log| && Original(s, k) :: IdUsed(s, k))
  }

  ghost predicate OriginsUnique(s: Net) {
    forall j, k | 0 <= j < k < |s.log| && Original(s, j) && Original(s, k) :: !SameRequest(s, j, k)
  }

  lemma KeepOrigin(s: Net, e: Event, k: nat)
    requires LogOk(s) && OriginsOk(s) && Enabled(s, e)
    requires k < |Apply(s, e).log| && Apply(s, e).log[k].msg.Rreq?
    requires e.At? && k >= |s.log| ==> Apply(s, e).log[k].msg.ttl >= 1
    ensures HasOrigin(Apply(s, e), k)
  {
    var s' := Apply(s, e);
    if k < |s.log| {
      assert s'.log[k] == s.log[k] && HasOrigin(s, k);
      var a: nat :| a < |s.log| && CameFrom(s, a, k);
      assert s'.log[a] == s.log[a] && CameFrom(s', a, k);
    } else {
      NewRequest(s, e, k);
      if OwnRequests(s.nodes[e.i], Act(s, e)) {
        assert CameFrom(s', k, k);
      } else {
        assert HasOrigin(s, e.action.k);
        var a: nat :| a < |s.log| && CameFrom(s, a, e.action.k);
        assert s'.log[a] == s.log[a] && CameFrom(s', a, k);
      }
    }
  }

  ghost predicate IdUsed(s: Net, k: nat)
    requires k < |s.log| && s.log[k].msg.Rreq?
  {
    s.log[k].msg.src in s.nodes && s.log[k].msg.bcastId < s.nodes[s.log[k].msg.src].bid
  }

  /** A first transmission is an old one, with an id its source has used up, or a new one with the acting
      node's next ids. */
  lemma OldOrNew(s: Net, e: Event, k: nat)
    requires NodesOk(s) && OriginsOk(s) && e.At? && Enabled(s, e) && Evolves(s.nodes[e.i], Act(s, e).node)
    requires SentOk(Act(s, e).node, Act(s, e).sent)
    requires k < |Apply(s, e).log| && Original(Apply(s, e), k)
    ensures IdUsed(Apply(s, e), k)
    ensures k < |s.log| ==> Apply(s, e).log[k] == s.log[k] && Original(s, k) && IdUsed(s, k)
    ensures k >= |s.log| ==> && OwnRequests(s.nodes[e.i], Act(s, e)) && Apply(s, e).log[k].msg.src == e.i
                             && s.nodes[e.i].bid <= Apply(s, e).log[k].msg.bcastId
                             && Apply(s, e).log[k].msg == Act(s, e).sent[k - |s.log|]
  {
    if k < |s.log| {
      assert Apply(s, e).log[k] == s.log[k] && Original(s, k);
    } else {
      NewRequest(s, e, k);
      assert Honest(Act(s, e).node, Act(s, e).sent[k - |s.log|]);
    }
  }

  lemma KeepUnique(s: Net, e: Event, j: nat, k: nat)
    requires NodesOk(s) && OriginsOk(s) && OriginsUnique(s) && e.At? && Enabled(s, e)
    requires Evolves(s.nodes[e.i], Act(s, e).node) && SentOk(Act(s, e).node, Act(s, e).sent)
    requires j < k < |Apply(s, e).log| && Original(Apply(s, e), j) && Original(Apply(s, e), k)
    ensures !SameRequest(Apply(s, e), j, k)
  {
    OldOrNew(s, e, j);
    OldOrNew(s, e, k);
    if k < |s.log| {
      assert !SameRequest(s, j, k);
    }
  }

  ghost predicate FloodInv(s: Net) {
    MemoryOk(s) && WindowOk(s) && OriginsOk(s) && OriginsUnique(s)
  }

  lemma OriginalIsRequest(s: Net, k: nat)
    requires k < |s.log| && Original(s, k)
    ensures s.log[k].msg.Rreq?
  {
  }

  lemma KeepOriginAt(s: Net, e: Event, k: nat)
    requires LogOk(s) && OriginsOk(s) && e.At? && Enabled(s, e) && SentOk(Act(s, e).node, Act(s, e).sent)
    requires k < |Apply(s, e).log| && Apply(s, e).log[k].msg.Rreq?
    ensures HasOrigin(Apply(s, e), k)
  {
    hide Act, Apply, LogOk, OriginsOk, Enabled;
    AppliedLog(s, e, k);
    if k >= |s.log| { assert MsgOk(Act(s, e).sent[k - |s.log|]); }
    KeepOrigin(s, e, k);
  }

  lemma KeepOrigins(s: Net, e: Event)
    requires Inv(s) && OriginsOk(s) && OriginsUnique(s) && e.At? && Enabled(s, e)
    ensures OriginsOk(Apply(s, e)) && OriginsUnique(Apply(s, e))
  {
    hide Act, Apply, LogOk, NodesOk, RoutesOk, SeqnosOk, Enabled, SentOk, Evolves, HasOrigin, Original, SameRequest, IdUsed, NodeOk;
    ActEvolves(s, e);
    var s' := Apply(s, e);
    forall k | 0 <= k < |s'.log| && s'.log[k].msg.Rreq? ensures HasOrigin(s', k) { KeepOriginAt(s, e, k); }
    forall k | 0 <= k < |s'.log| && Original(s', k) ensures s'.log[k].msg.Rreq? && IdUsed(s', k) {
      OriginalIsRequest(s', k);
      OldOrNew(s, e, k);
    }
    forall j, k | 0 <= j < k < |s'.log| && Original(s', j) && Original(s', k) ensures !SameRequest(s', j, k) {
      KeepUnique(s, e, j, k);
    }
  }

  lemma TickKeepsOrigins(s: Net, e: Event)
    requires LogOk(s) && OriginsOk(s) && OriginsUnique(s) && e.Tick? && Enabled(s, e)
    ensures OriginsOk(Apply(s, e)) && OriginsUnique(Apply(s, e))
  {
    var s' := Apply(s, e);
    forall k | 0 <= k < |s'.log| && s'.log[k].msg.Rreq? ensures HasOrigin(s', k) { KeepOrigin(s, e, k); }
    forall k | 0 <= k < |s'.log| && Original(s', k) ensures IdUsed(s', k) { assert Original(s, k) && IdUsed(s, k); }
    forall j, k | 0 <= j < k < |s'.log| && Original(s', j) && Original(s', k) ensures !SameRequest(s', j, k) {
      assert Original(s, j) && Original(s, k) && !SameRequest(s, j, k);
    }
  }

  lemma ApplyKeepsFloodInv(s: Net, e: Event)
    requires Inv(s) && FloodInv(s)
    ensures FloodInv(Apply(s, e))
  {
    if Enabled(s, e) {
      var s' := Apply(s, e);
      forall k | 0 <= k < |s'.log| && Relayed(s', k) ensures Remembered(s', k) { KeepMemory(s, e, k); }
      forall j, k | 0 <= j < k < |s'.log| ensures Apart(s', j, k) { KeepApart(s, e, j, k); }
      if e.At? { KeepOrigins(s, e); } else { TickKeepsOrigins(s, e); }
    }
  }

  lemma {:induction false} FloodsReachable(s: Net, es: seq<Event>)
    requires Init(s)
    ensures Inv(Exec(s, es)) && FloodInv(Exec(s, es))
    decreases |es|
  {
    Reachable(s, es);
    if es != [] {
      FloodsReachable(s, es[..|es| - 1]);
      ApplyKeepsFloodInv(Exec(s, es[..|es| - 1]), es[|es| - 1]);
    }
  }

  // ---------- the results ----------

  /** Two transmissions of one request by a node that is not its source are a whole window apart. */
  lemma OncePerWindow(s: Net, es: seq<Event>, j: nat, k: nat)
    requires Init(s) && j < k < |Exec(s, es).log|
    requires SameRequest(Exec(s, es), j, k) && Relayed(Exec(s, es), j)
    requires Exec(s, es).log[j].msg.sender == Exec(s, es).log[k].msg.sender
    ensures Exec(s, es).log[k].at >= Exec(s, es).log[j].at + BCAST_ID_SAVE
  {
    FloodsReachable(s, es);
    assert Apart(Exec(s, es), j, k);
  }

  /** Every copy of a request stems from exactly one first transmission, and its hop count is one more than
      the time to live it has spent; it never exceeds NETWORK_DIAMETER. */
  lemma HopsPlusTtl(s: Net, es: seq<Event>, k: nat) returns (o: nat)
    requires Init(s) && k < |Exec(s, es).log| && Exec(s, es).log[k].msg.Rreq?
    ensures o < |Exec(s, es).log| && CameFrom(Exec(s, es), o, k)
    ensures forall x: nat | x < |Exec(s, es).log| && Original(Exec(s, es), x) && SameRequest(Exec(s, es), x, k) :: x == o
    ensures 1 <= Exec(s, es).log[k].msg.hopCount <= NETWORK_DIAMETER && Exec(s, es).log[k].msg.ttl >= 1
  {
    FloodsReachable(s, es);
    var t := Exec(s, es);
    assert HasOrigin(t, k) && MsgOk(t.log[k].msg);
    o :| o < |t.log| && CameFrom(t, o, k);
    forall x: nat | x < |t.log| && Original(t, x) && SameRequest(t, x, k) ensures x == o {
      assert SameRequest(t, x, o) && SameRequest(t, o, x);
    }
  }

  /** A live route that a request leaves behind is the old one or at most NETWORK_DIAMETER hops long. */
  lemma ReverseRoutesShort(s: Net, es: seq<Event>, e: Event)
    requires Init(s) && e.At? && Enabled(Exec(s, es), e) && e.action.Receive?
    requires Exec(s, es).log[e.action.k].msg.Rreq?
    ensures var (t, t') := (Exec(s, es), Apply(Exec(s, es), e));
            forall d | d in t'.nodes[e.i].table && t'.nodes[e.i].table[d].up ::
              || (d in t.nodes[e.i].table && SameRoute(t.nodes[e.i].table[d], t'.nodes[e.i].table[d]))
              || t'.nodes[e.i].table[d].hops.Num() <= NETWORK_DIAMETER
  {
    Reachable(s, es);
    var t := Exec(s, es);
    assert NodeOk(Act(t, e).node) && RoutesFrom(t.nodes[e.i], HeardIn(t, e), Act(t, e).node) by { ActStep(t, e); }
    assert MsgOk(t.log[e.action.k].msg);
    forall d | d in Act(t, e).node.table && Act(t, e).node.table[d].up ensures Act(t, e).node.table[d].hops.Fin? {
      assert EntryOk(Act(t, e).node.table[d]);
    }
  }
}
