/** What holds in every run of an AODV network: no routing loops, the sequence-number discipline, and the
    limits on flooding. */
module AodvRuns {
  import opened RoutingBase
  import opened AodvNode
  import opened AodvProps
  import opened AodvBounds
  import opened AodvNetwork

  // ---------- loop freedom ----------

  /** `i` forwards data for `d` to `j`.  `d` itself delivers, whatever its table says. */
  predicate Hop(s: Net, d: Addr, i: Addr, j: Addr) {
    i in s.nodes && i != d && d in s.nodes[i].table && s.nodes[i].table[d].up && s.nodes[i].table[d].nexthop == j
  }

  predicate Way(s: Net, d: Addr, p: seq<Addr>) {
    forall k | 0 <= k < |p| - 1 :: Hop(s, d, p[k], p[k + 1])
  }

  /** `j` ranks above `i` for `d`: a later sequence number, or the same one and fewer hops. */
  predicate Above(s: Net, d: Addr, j: Addr, i: Addr) {
    && i in s.nodes && j in s.nodes && d in s.nodes[i].table && d in s.nodes[j].table
    && var (a, b) := (s.nodes[i].table[d], s.nodes[j].table[d]);
       b.seqno > a.seqno || (b.seqno == a.seqno && b.hops.Below(a.hops))
  }

  lemma HopClimbs(s: Net, d: Addr, i: Addr, j: Addr)
    requires Inv(s) && Hop(s, d, i, j)
    ensures j == d || Above(s, d, j, i)
  {
    assert RouteOk(s, i, d);
  }

  lemma {:induction false} WayClimbs(s: Net, d: Addr, p: seq<Addr>, j: nat, k: nat)
    requires Inv(s) && Way(s, d, p) && j < k < |p|
    ensures p[k] == d || Above(s, d, p[k], p[j])
    decreases k - j
  {
    hide Inv;
    HopClimbs(s, d, p[k - 1], p[k]);
    if j < k - 1 {
      assert Hop(s, d, p[k - 1], p[k]);
      WayClimbs(s, d, p, j, k - 1);
    }
  }

  /** Along every hop towards `d` the pair (sequence number, hops) gets strictly better. */
  lemma EveryHopClimbs(s: Net, es: seq<Event>, d: Addr, i: Addr, j: Addr)
    requires Init(s) && Hop(Exec(s, es), d, i, j)
    ensures j == d || Above(Exec(s, es), d, j, i)
  {
    Reachable(s, es);
    HopClimbs(Exec(s, es), d, i, j);
  }

  /** Following next hops never visits a node twice, in any state of any run, for any destination. */
  lemma LoopFreedom(s: Net, es: seq<Event>, d: Addr, p: seq<Addr>)
    requires Init(s) && Way(Exec(s, es), d, p)
    ensures forall j, k | 0 <= j < k < |p| :: p[j] != p[k]
  {
    Reachable(s, es);
    forall j, k | 0 <= j < k < |p| ensures p[j] != p[k] {
      WayClimbs(Exec(s, es), d, p, j, k);
      assert Hop(Exec(s, es), d, p[j], p[j + 1]);
    }
  }

  // ---------- sequence numbers ----------

  /** Own numbers stay even, live routes carry even ones and dead routes odd ones or 0, no entry runs more
      than one ahead of its destination and no live one runs ahead at all. */
  lemma SeqnoDiscipline(s: Net, es: seq<Event>, i: Addr, d: Addr)
    requires Init(s) && i in Exec(s, es).nodes
    ensures var t := Exec(s, es);
            && t.nodes[i].seqno % 2 == 0
            && (d in t.nodes[i].table ==>
                  var e := t.nodes[i].table[d];
                  && (if e.up then e.seqno % 2 == 0 && e.seqno <= OwnSeqno(t)(d) else e.seqno % 2 == 1 || e.seqno == 0)
                  && e.seqno <= OwnSeqno(t)(d) + 1
                  && (e.up <==> e.hops.Fin?))
  {
    var t := Exec(s, es);
    Reachable(s, es);
    assert NodeOk(t.nodes[i]) && Bounded(t.nodes[i], OwnSeqno(t));
    if d in t.nodes[i].table {
      assert EntryOk(t.nodes[i].table[d]);
      OwnersEven(t);
      if t.nodes[i].table[d].up { LiveBehindOwner(t.nodes[i], OwnSeqno(t), d); }
    }
  }

  lemma ApplyEvolves(s: Net, e: Event, i: Addr)
    requires Inv(s) && i in s.nodes
    ensures i in Apply(s, e).nodes && Evolves(s.nodes[i], Apply(s, e).nodes[i])
  {
    if Enabled(s, e) && e.At? { ActStep(s, e); }
  }

  lemma {:induction false} NodesKept(s: Net, es: seq<Event>)
    ensures Exec(s, es).nodes.Keys == s.nodes.Keys
    decreases |es|
  {
    if es != [] { NodesKept(s, es[..|es| - 1]); }
  }

  /** As a run goes on, a node's entry for a destination only ever becomes fresher. */
  lemma {:induction false} EntriesOnlyFresher(s: Net, es: seq<Event>, fs: seq<Event>, i: Addr)
    requires Init(s) && i in s.nodes
    ensures i in Exec(s, es).nodes && i in Exec(s, es + fs).nodes
    ensures Evolves(Exec(s, es).nodes[i], Exec(s, es + fs).nodes[i])
    decreases |fs|
  {
    NodesKept(s, es);
    var t := Exec(s, es);
    if fs == [] {
      assert es + fs == es;
    } else {
      var gs, e := fs[..|fs| - 1], fs[|fs| - 1];
      EntriesOnlyFresher(s, es, gs, i);
      var u := Exec(s, es + gs);
      assert (es + fs)[..|es + fs| - 1] == es + gs && (es + fs)[|es + fs| - 1] == e;
      Reachable(s, es + gs);
      ApplyEvolves(u, e, i);
      EvolvesTrans(t.nodes[i], u.nodes[i], Apply(u, e).nodes[i]);
    }
  }

  /** What the handlers in AodvAgent ask of a node and a packet holds whenever a packet is received. */
  lemma HandlersMayAssert(s: Net, es: seq<Event>, i: Addr, k: nat)
    requires Init(s) && i in Exec(s, es).nodes && k < |Exec(s, es).log|
    ensures NodeOk(Exec(s, es).nodes[i]) && MsgOk(Exec(s, es).log[k].msg)
  {
    Reachable(s, es);
  }
}
