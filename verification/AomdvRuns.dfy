/** What holds in every run of an AOMDV network: no loops over any of the alternative paths, the path sets,
    one advertised hop count per sequence number, and the sequence-number discipline. */
module AomdvRuns {
  import opened RoutingBase
  import opened AomdvPaths
  import opened AomdvNode
  import opened AomdvProps
  import opened AomdvBounds
  import opened AomdvNetwork

  // ---------- loop freedom ----------

  /** Some path of `i` for `d` has next hop `j`.  `d` itself delivers, whatever its table says. */
  predicate Hop(s: Net, d: Addr, i: Addr, j: Addr) {
    && i in s.nodes && i != d && d in s.nodes[i].table && s.nodes[i].table[d].up
    && HasNext(s.nodes[i].table[d].paths, j)
  }

  /** A way over any choice of path at each node. */
  predicate Way(s: Net, d: Addr, p: seq<Addr>) {
    forall k | 0 <= k < |p| - 1 :: Hop(s, d, p[k], p[k + 1])
  }

  /** `j` ranks above `i` for `d`: a later sequence number, or the same one and fewer advertised hops. */
  predicate Above(s: Net, d: Addr, j: Addr, i: Addr) {
    && i in s.nodes && j in s.nodes && d in s.nodes[i].table && d in s.nodes[j].table
    && var (a, b) := (s.nodes[i].table[d], s.nodes[j].table[d]);
       b.seqno > a.seqno || (b.seqno == a.seqno && b.adv.Below(a.adv))
  }

  /** What backs one path: its next hop has moved on, or advertises exactly one hop less than the path. */
  lemma PathClimbs(s: Net, d: Addr, i: Addr, k: nat)
    requires Inv(s) && i in s.nodes && d in s.nodes[i].table && k < |s.nodes[i].table[d].paths|
    ensures var (e, p) := (s.nodes[i].table[d], s.nodes[i].table[d].paths[k]);
            && (e.adv.Fin? ==> p.hopcount <= e.adv.n)
            && (p.nexthop == d ==> p.hopcount == 1)
            && (p.nexthop != d ==>
                  && p.nexthop in s.nodes && d in s.nodes[p.nexthop].table
                  && var f := s.nodes[p.nexthop].table[d];
                     f.seqno > e.seqno || (f.seqno == e.seqno && f.adv.Fin? && f.adv.n + 1 == p.hopcount))
  {
    var e := s.nodes[i].table[d];
    var p := e.paths[k];
    assert NodeOk(s.nodes[i]) && EntryOk(e, s.nodes[i].maxPaths) && EntryBacked(s, i, d);
    hide NodeOk, Consistent, MsgOk, Bounded;
    assert Backed(s, d, e.seqno, p);
    var m: nat :| m < |s.log| && s.log[m].msg.sender == p.nexthop && Offers(s.log[m].msg, d, e.seqno, p.hopcount - 1);
    assert SenderOk(s, m);
    assert Advertises(s.nodes[p.nexthop], d, e.seqno, p.hopcount - 1);
  }

  lemma HopClimbs(s: Net, d: Addr, i: Addr, j: Addr)
    requires Inv(s) && Hop(s, d, i, j)
    ensures j == d || Above(s, d, j, i)
  {
    hide Inv;
    var k :| 0 <= k < |s.nodes[i].table[d].paths| && s.nodes[i].table[d].paths[k].nexthop == j;
    PathClimbs(s, d, i, k);
  }

  lemma {:induction false} WayClimbs(s: Net, d: Addr, p: seq<Addr>, j: nat, k: nat)
    requires Inv(s) && Way(s, d, p) && j < k < |p|
    ensures p[k] == d || Above(s, d, p[k], p[j])
    decreases k - j
  {
    hide Inv;
    assert Hop(s, d, p[k - 1], p[k]);
    HopClimbs(s, d, p[k - 1], p[k]);
    if j < k - 1 { WayClimbs(s, d, p, j, k - 1); }
  }

  /** Every path of every live entry climbs: later sequence number at its next hop, or the same one with an
      advertised count below the path's length, which is at most the entry's own advertised count. */
  lemma EveryPathClimbs(s: Net, es: seq<Event>, d: Addr, i: Addr, k: nat)
    requires Init(s) && i in Exec(s, es).nodes && d in Exec(s, es).nodes[i].table
    requires k < |Exec(s, es).nodes[i].table[d].paths|
    ensures var t := Exec(s, es);
            var (e, p) := (t.nodes[i].table[d], t.nodes[i].table[d].paths[k]);
            && (e.adv.Fin? ==> p.hopcount <= e.adv.n)
            && (p.nexthop == d ==> p.hopcount == 1)
            && (p.nexthop != d ==>
                  && p.nexthop in t.nodes && d in t.nodes[p.nexthop].table
                  && var f := t.nodes[p.nexthop].table[d];
                     f.seqno > e.seqno || (f.seqno == e.seqno && f.adv.Fin? && f.adv.n + 1 == p.hopcount))
  {
    Reachable(s, es);
    hide Inv, Exec;
    PathClimbs(Exec(s, es), d, i, k);
  }

  /** However a data packet for any destination is spread over the paths, it never visits a node twice. */
  lemma LoopFreedom(s: Net, es: seq<Event>, d: Addr, p: seq<Addr>)
    requires Init(s) && Way(Exec(s, es), d, p)
    ensures forall j, k | 0 <= j < k < |p| :: p[j] != p[k]
  {
    Reachable(s, es);
    hide Inv, Exec;
    forall j, k | 0 <= j < k < |p| ensures p[j] != p[k] {
      WayClimbs(Exec(s, es), d, p, j, k);
      assert Hop(Exec(s, es), d, p[j], p[j + 1]);
    }
  }

  // ---------- path sets and sequence numbers ----------

  /** In every reachable entry: UP exactly when there are paths, no two with the same next hop or last hop,
      never more than allowed, counted exactly, and none longer than what is advertised. */
  lemma PathSets(s: Net, es: seq<Event>, i: Addr, d: Addr)
    requires Init(s) && i in Exec(s, es).nodes && d in Exec(s, es).nodes[i].table
    ensures var (n, e) := (Exec(s, es).nodes[i], Exec(s, es).nodes[i].table[d]);
            && (e.up <==> e.paths != []) && Disjoint(e.paths)
            && e.numPaths == |e.paths| && (n.maxPaths >= 1 ==> |e.paths| <= n.maxPaths)
            && (e.adv.Fin? ==> MaxHop(e.paths) <= e.adv.n)
  {
    Reachable(s, es);
    var n := Exec(s, es).nodes[i];
    assert NodeOk(n) && EntryOk(n.table[d], n.maxPaths);
  }

  lemma SeqnoDiscipline(s: Net, es: seq<Event>, i: Addr, d: Addr)
    requires Init(s) && i in Exec(s, es).nodes
    ensures var t := Exec(s, es);
            && t.nodes[i].seqno % 2 == 0
            && (d in t.nodes[i].table ==>
                  var e := t.nodes[i].table[d];
                  && (if e.up then e.seqno % 2 == 0 && e.seqno <= OwnSeqno(t)(d) else OddOrZero(e.seqno))
                  && e.seqno <= OwnSeqno(t)(d) + 1)
  {
    var t := Exec(s, es);
    Reachable(s, es);
    assert NodeOk(t.nodes[i]) && Bounded(t.nodes[i], OwnSeqno(t)) && Even(OwnSeqno(t));
    if d in t.nodes[i].table {
      assert EntryOk(t.nodes[i].table[d], t.nodes[i].maxPaths) && EntryBounded(t.nodes[i].table[d], OwnSeqno(t)(d));
      hide Inv;
      if t.nodes[i].table[d].up { LiveBehindOwner(t.nodes[i], OwnSeqno(t), d); }
    }
  }

  lemma {:induction false} NodesKept(s: Net, es: seq<Event>)
    ensures Exec(s, es).nodes.Keys == s.nodes.Keys
    decreases |es|
  {
    if es != [] { NodesKept(s, es[..|es| - 1]); }
  }

  lemma ApplyEvolves(s: Net, e: Event, i: Addr)
    requires Inv(s) && i in s.nodes
    ensures i in Apply(s, e).nodes && Evolves(s.nodes[i], Apply(s, e).nodes[i])
  {
    if Enabled(s, e) && e.At? { assert Evolves(s.nodes[e.i], Act(s, e).node) by { ActStep(s, e); } }
  }

  /** As a run goes on a node's sequence number for a destination never falls, and while it stays the
      advertised hop count stays. */
  lemma {:induction false} AdvertisementsStay(s: Net, es: seq<Event>, fs: seq<Event>, i: Addr)
    requires Init(s) && i in s.nodes
    ensures i in Exec(s, es).nodes && i in Exec(s, es + fs).nodes
    ensures Evolves(Exec(s, es).nodes[i], Exec(s, es + fs).nodes[i])
    decreases |fs|
  {
    NodesKept(s, es);
    if fs == [] {
      assert es + fs == es;
    } else {
      var gs, e := fs[..|fs| - 1], fs[|fs| - 1];
      AdvertisementsStay(s, es, gs, i);
      var u := Exec(s, es + gs);
      assert (es + fs)[..|es + fs| - 1] == es + gs && (es + fs)[|es + fs| - 1] == e;
      Reachable(s, es + gs);
      ApplyEvolves(u, e, i);
      hide Inv, Evolves, Apply;
      EvolvesTrans(Exec(s, es).nodes[i], u.nodes[i], Apply(u, e).nodes[i]);
    }
  }

  // ---------- the hop-count assertions ----------

  lemma SameCount(t: Net, j: nat, k: nat, d: Addr, seqno: nat, g: int, h: int)
    requires OneCount(t) && j < |t.log| && k < |t.log| && t.log[j].msg.sender == t.log[k].msg.sender
    requires Offers(t.log[j].msg, d, seqno, g) && Offers(t.log[k].msg, d, seqno, h)
    ensures g == h
  {
    assert Consistent(t, j, k);
    assert Agree(t.log[j].msg, t.log[k].msg, d, seqno, g, h);
  }

  lemma KnownPathAt(t: Net, i: Addr, d: Addr, x: nat, k: nat, h: int)
    requires OneCount(t) && RoutesBacked(t) && i in t.nodes && d in t.nodes[i].table
    requires x < |t.nodes[i].table[d].paths| && k < |t.log|
    requires Offers(t.log[k].msg, d, t.nodes[i].table[d].seqno, h)
    requires t.nodes[i].table[d].paths[x].nexthop == t.log[k].msg.sender
    ensures t.nodes[i].table[d].paths[x].hopcount == h + 1
  {
    var e := t.nodes[i].table[d];
    assert EntryBacked(t, i, d);
    hide OneCount, RoutesBacked, EntryBacked;
    assert Backed(t, d, e.seqno, e.paths[x]);
    var j: nat :| j < |t.log| && t.log[j].msg.sender == e.paths[x].nexthop
                  && Offers(t.log[j].msg, d, e.seqno, e.paths[x].hopcount - 1);
    SameCount(t, j, k, d, e.seqno, e.paths[x].hopcount - 1, h);
  }

  /** Over a whole run a node tells one hop count per destination and sequence number. */
  lemma OneAdvertisement(s: Net, es: seq<Event>, j: nat, k: nat, d: Addr, seqno: nat, g: int, h: int)
    requires Init(s) && j < |Exec(s, es).log| && k < |Exec(s, es).log|
    requires Exec(s, es).log[j].msg.sender == Exec(s, es).log[k].msg.sender
    requires Offers(Exec(s, es).log[j].msg, d, seqno, g) && Offers(Exec(s, es).log[k].msg, d, seqno, h)
    ensures g == h
  {
    Reachable(s, es);
    hide Exec, OneCount;
    SameCount(Exec(s, es), j, k, d, seqno, g, h);
  }

  /** A request or reply over a path already known under the same sequence number has exactly the length the
      path was stored with: the assertions in recvRequest and recvReply never fail. */
  lemma KnownPathSameLength(s: Net, es: seq<Event>, i: Addr, d: Addr, x: nat, k: nat, h: int)
    requires Init(s) && i in Exec(s, es).nodes && d in Exec(s, es).nodes[i].table
    requires x < |Exec(s, es).nodes[i].table[d].paths| && k < |Exec(s, es).log|
    requires Offers(Exec(s, es).log[k].msg, d, Exec(s, es).nodes[i].table[d].seqno, h)
    requires Exec(s, es).nodes[i].table[d].paths[x].nexthop == Exec(s, es).log[k].msg.sender
    ensures Exec(s, es).nodes[i].table[d].paths[x].hopcount == h + 1
  {
    Reachable(s, es);
    hide Exec, OneCount, RoutesBacked;
    KnownPathAt(Exec(s, es), i, d, x, k, h);
  }

  /** What the handlers in AomdvAgent ask of a node and a packet holds whenever a packet is received. */
  lemma HandlersMayAssert(s: Net, es: seq<Event>, i: Addr, k: nat, d: Addr, seqno: nat, h: int)
    requires Init(s) && i in Exec(s, es).nodes && k < |Exec(s, es).log| && Offers(Exec(s, es).log[k].msg, d, seqno, h)
    ensures var (n, m) := (Exec(s, es).nodes[i], Exec(s, es).log[k].msg);
            && NodeOk(n) && MsgOk(m) && h >= 0
            && (d in n.table ==> LengthsAgree(n.table[d], seqno, m.sender, h + 1))
  {
    Reachable(s, es);
    var t := Exec(s, es);
    assert SenderOk(t, k);
    hide Exec, OneCount, RoutesBacked, NodeOk, Honest, MsgOk;
    if d in t.nodes[i].table && t.nodes[i].table[d].seqno == seqno {
      var e := t.nodes[i].table[d];
      forall x | 0 <= x < |e.paths| && e.paths[x].nexthop == t.log[k].msg.sender ensures e.paths[x].hopcount == h + 1 {
        KnownPathAt(t, i, d, x, k, h);
      }
    }
  }
}
