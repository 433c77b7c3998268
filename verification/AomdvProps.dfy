/** What every AOMDV handler keeps at the node that runs it: the path-set invariant, the parity of sequence
    numbers, a single advertised hop count per sequence number, and where each path comes from. */
module AomdvProps {
  import opened RoutingBase
  import opened AomdvPaths
  import opened AomdvNode

  datatype Heard = Nothing | Packet(msg: Msg)

  predicate OddOrZero(s: nat) {
    s % 2 == 1 || s == 0
  }

  /** RTF_UP exactly when there are paths; the counter counts them; no two share an end; no path is longer
      than what is advertised. */
  predicate EntryOk(e: Entry, maxPaths: int) {
    && (e.up <==> e.paths != [])
    && e.numPaths == |e.paths| && |e.paths| <= Max(1, maxPaths)
    && Disjoint(e.paths)
    && (forall k | 0 <= k < |e.paths| :: e.paths[k].hopcount >= 1 && (e.adv.Fin? ==> e.paths[k].hopcount <= e.adv.n))
    && (if e.up then e.seqno % 2 == 0 && e.seqno >= 2 else OddOrZero(e.seqno) && e.adv.Inf?)
    && OddOrZero(e.highest)
    && e.lastHops.Num() >= 1 && e.reqLastTtl >= 0
  }

  ghost predicate NodeOk(n: Node) {
    && n.seqno % 2 == 0 && n.seqno >= 2
    && (forall d :: d in n.dests <==> d in n.table)
    && (forall j, k | 0 <= j < k < |n.dests| :: n.dests[j] != n.dests[k])
    && (forall d | d in n.table :: EntryOk(n.table[d], n.maxPaths))
  }

  predicate LostOk(us: seq<Unreachable>) {
    forall k | 0 <= k < |us| :: OddOrZero(us[k].seqno)
  }

  predicate MsgOk(m: Msg) {
    match m
    case Rreq(_, _, _, _, _, _, _, _, srcSeqno) => srcSeqno % 2 == 0 && srcSeqno >= 2
    case Rrep(_, _, _, _, _, _, _, _, dstSeqno, _) => dstSeqno % 2 == 0 && dstSeqno >= 2
    case Rerr(_, us) => LostOk(us)
    case Hello(_, seqno) => seqno % 2 == 0 && seqno >= 2
  }

  // ---------- advertisements ----------

  /** The packet tells of a route to `d` with this sequence number and hop count. */
  predicate Offers(m: Msg, d: Addr, seqno: nat, hops: int) {
    match m
    case Rreq(_, _, hopCount, _, _, _, _, src, srcSeqno) => src == d && srcSeqno == seqno && hopCount == hops
    case Rrep(_, _, _, _, hopCount, _, _, dst, dstSeqno, _) => dst == d && dstSeqno == seqno && hopCount == hops
    case Rerr(_, _) => false
    case Hello(sender, own) => sender == d && own == seqno && hops == 0
  }

  /** `n` advertises exactly `hops` for this sequence number of `d`, or has moved past it. */
  predicate Advertises(n: Node, d: Addr, seqno: nat, hops: int) {
    if n.index == d then hops == 0
    else d in n.table && (n.table[d].seqno > seqno
                          || (n.table[d].seqno == seqno && n.table[d].adv.Fin? && n.table[d].adv.n == hops))
  }

  ghost predicate Honest(n: Node, m: Msg) {
    m.sender == n.index && forall d, s, h | Offers(m, d, s, h) :: Advertises(n, d, s, h)
  }

  /** What the packet offers is what the node holds and advertises right now. */
  ghost predicate Current(n: Node, m: Msg) {
    && Honest(n, m)
    && forall d, s, h | Offers(m, d, s, h) :: d == n.index || n.table[d].seqno == s
  }

  ghost predicate SentOk(n: Node, sent: seq<Msg>) {
    forall k | 0 <= k < |sent| :: MsgOk(sent[k]) && Current(n, sent[k])
  }

  /** Sequence numbers do not go back, and what is advertised stays while the sequence number does. */
  predicate EntryEvolves(e: Entry, e': Entry) {
    e'.seqno > e.seqno || (e'.seqno == e.seqno && (e.adv.Fin? ==> e'.adv == e.adv))
  }

  predicate Evolves(n: Node, n': Node) {
    && n'.index == n.index && n'.maxPaths == n.maxPaths && n'.lenDiff == n.lenDiff
    && n'.seqno >= n.seqno && n'.bid >= n.bid
    && (forall d | d in n.table :: d in n'.table && EntryEvolves(n.table[d], n'.table[d]))
  }

  predicate OfferedBy(h: Heard, d: Addr, seqno: nat, p: Path) {
    h.Packet? && Offers(h.msg, d, seqno, p.hopcount - 1) && p.nexthop == h.msg.sender
  }

  /** Every path was there before under the same sequence number, or is the one the packet offers. */
  predicate PathsFrom(e: Entry, h: Heard, d: Addr, e': Entry) {
    forall k | 0 <= k < |e'.paths| ::
      (e'.seqno == e.seqno && Among(e'.paths[k], e.paths)) || OfferedBy(h, d, e'.seqno, e'.paths[k])
  }

  function EntryOf(n: Node, d: Addr): Entry {
    if d in n.table then n.table[d] else FRESH_ENTRY
  }

  predicate RoutesFrom(n: Node, h: Heard, n': Node) {
    forall d | d in n'.table :: PathsFrom(EntryOf(n, d), h, d, n'.table[d])
  }

  ghost predicate StepOk(n: Node, h: Heard, o: Out) {
    NodeOk(o.node) && Evolves(n, o.node) && RoutesFrom(n, h, o.node) && SentOk(o.node, o.sent)
  }

  /** Every path over `nexthop` known under this sequence number has this length. */
  predicate LengthsAgree(e: Entry, seqno: nat, nexthop: Addr, hopcount: nat) {
    e.seqno == seqno ==> forall k | 0 <= k < |e.paths| && e.paths[k].nexthop == nexthop :: e.paths[k].hopcount == hopcount
  }

  // ---------- steps compose ----------

  lemma AdvertisesEvolves(n: Node, n': Node, d: Addr, seqno: nat, hops: int)
    requires Evolves(n, n') && Advertises(n, d, seqno, hops)
    ensures Advertises(n', d, seqno, hops)
  {
    if n.index != d { assert EntryEvolves(n.table[d], n'.table[d]); }
  }

  lemma HonestEvolves(n: Node, n': Node, m: Msg)
    requires Evolves(n, n') && Honest(n, m)
    ensures Honest(n', m)
  {
    forall d, s, h | Offers(m, d, s, h) ensures Advertises(n', d, s, h) { AdvertisesEvolves(n, n', d, s, h); }
  }

  lemma EvolvesTrans(a: Node, b: Node, c: Node)
    requires Evolves(a, b) && Evolves(b, c)
    ensures Evolves(a, c)
  {
    forall d | d in a.table ensures d in c.table && EntryEvolves(a.table[d], c.table[d]) {
      assert EntryEvolves(a.table[d], b.table[d]) && EntryEvolves(b.table[d], c.table[d]);
    }
  }

  lemma SelfAmong(ps: seq<Path>)
    ensures forall k | 0 <= k < |ps| :: Among(ps[k], ps)
  {
    forall k | 0 <= k < |ps| ensures Among(ps[k], ps) { assert SamePath(ps[k], ps[k]); }
  }

  lemma PathsFromTrans(a: Entry, h: Heard, d: Addr, b: Entry, c: Entry)
    requires PathsFrom(a, h, d, b) && PathsFrom(b, Nothing, d, c)
    ensures PathsFrom(a, h, d, c)
  {
    forall k | 0 <= k < |c.paths|
      ensures (c.seqno == a.seqno && Among(c.paths[k], a.paths)) || OfferedBy(h, d, c.seqno, c.paths[k])
    {
      assert Among(c.paths[k], b.paths);
      var j :| 0 <= j < |b.paths| && SamePath(c.paths[k], b.paths[j]);
      if b.seqno == a.seqno && Among(b.paths[j], a.paths) {
        var i :| 0 <= i < |a.paths| && SamePath(b.paths[j], a.paths[i]);
        assert SamePath(c.paths[k], a.paths[i]);
      }
    }
  }

  lemma RoutesFromTrans(a: Node, h: Heard, b: Node, c: Node)
    requires RoutesFrom(a, h, b) && RoutesFrom(b, Nothing, c) && Evolves(a, b) && Evolves(b, c)
    ensures RoutesFrom(a, h, c)
  {
    forall d | d in c.table ensures PathsFrom(EntryOf(a, d), h, d, c.table[d]) {
      assert PathsFrom(EntryOf(b, d), Nothing, d, c.table[d]);
      if d in b.table {
        assert PathsFrom(EntryOf(a, d), h, d, b.table[d]);
        PathsFromTrans(EntryOf(a, d), h, d, b.table[d], c.table[d]);
      }
    }
  }

  /** A silent step followed by a step without a packet. */
  lemma StepThen(n: Node, h: Heard, n1: Node, r: Out)
    requires StepOk(n, h, Out(n1, [])) && StepOk(n1, Nothing, r)
    ensures StepOk(n, h, r)
  {
    EvolvesTrans(n, n1, r.node);
    RoutesFromTrans(n, h, n1, r.node);
  }

  lemma SendAfter(n: Node, h: Heard, n': Node, sent: seq<Msg>)
    requires StepOk(n, h, Out(n', [])) && SentOk(n', sent)
    ensures StepOk(n, h, Out(n', sent))
  {
  }

  lemma WithPacket(n: Node, h: Heard, o: Out)
    requires StepOk(n, Nothing, o)
    ensures StepOk(n, h, o)
  {
    forall d | d in o.node.table ensures PathsFrom(EntryOf(n, d), h, d, o.node.table[d]) {
      assert PathsFrom(EntryOf(n, d), Nothing, d, o.node.table[d]);
    }
  }

  lemma KeptPaths(n: Node, n': Node, d: Addr)
    requires d in n'.table && n'.table[d] == EntryOf(n, d)
    ensures PathsFrom(EntryOf(n, d), Nothing, d, n'.table[d])
  {
    SelfAmong(n'.table[d].paths);
  }

  /** A step that leaves the route table alone. */
  lemma SameTable(n: Node, n': Node)
    requires NodeOk(n) && n'.table == n.table && n'.dests == n.dests && n'.index == n.index
    requires n'.maxPaths == n.maxPaths && n'.lenDiff == n.lenDiff && n'.bid >= n.bid
    requires n'.seqno == n.seqno || (n'.seqno % 2 == 0 && n'.seqno >= n.seqno)
    ensures StepOk(n, Nothing, Out(n', [])) && NodeOk(n')
  {
    forall d | d in n'.table ensures PathsFrom(EntryOf(n, d), Nothing, d, n'.table[d]) { KeptPaths(n, n', d); }
  }

  /** A change to one entry that keeps EntryOk, the order and the origin of paths is a step. */
  lemma ChangeEntry(n: Node, h: Heard, d: Addr, e': Entry)
    requires NodeOk(n) && d in n.table && EntryOk(e', n.maxPaths) && EntryEvolves(n.table[d], e')
    requires PathsFrom(n.table[d], h, d, e')
    ensures StepOk(n, h, Out(With(n, d, e'), []))
  {
    var n' := With(n, d, e');
    assert n'.table.Keys == n.table.Keys;
    forall x | x in n'.table ensures PathsFrom(EntryOf(n, x), h, x, n'.table[x]) {
      if x != d { SelfAmong(n.table[x].paths); }
    }
  }

  lemma AddedNodeOk(n: Node, d: Addr)
    requires NodeOk(n)
    ensures NodeOk(RtAdd(n, d))
  {
    if d !in n.table {
      var n' := RtAdd(n, d);
      forall j, k | 0 <= j < k < |n'.dests| ensures n'.dests[j] != n'.dests[k] {
        if j == 0 { assert n'.dests[k] == n.dests[k - 1]; }
      }
      forall x ensures x in n'.dests <==> x in n'.table {
        assert x in n'.dests <==> x == d || x in n.dests;
      }
    }
  }

  lemma AddEntry(n: Node, d: Addr)
    requires NodeOk(n)
    ensures StepOk(n, Nothing, Out(RtAdd(n, d), [])) && NodeOk(RtAdd(n, d)) && d in RtAdd(n, d).table
  {
    AddedNodeOk(n, d);
    hide NodeOk;
    var n' := RtAdd(n, d);
    forall x | x in n'.table ensures PathsFrom(EntryOf(n, x), Nothing, x, n'.table[x]) { KeptPaths(n, n', x); }
  }

  // ---------- changes to an entry ----------

  /** The entry may stand in for `e` without a packet. */
  predicate Tidy(e: Entry, e': Entry, maxPaths: int) {
    && EntryOk(e', maxPaths) && EntryEvolves(e, e')
    && e'.seqno == e.seqno && forall k | 0 <= k < |e'.paths| :: Among(e'.paths[k], e.paths)
  }

  lemma TidyStep(n: Node, d: Addr, e': Entry)
    requires NodeOk(n) && d in n.table && Tidy(n.table[d], e', n.maxPaths)
    ensures StepOk(n, Nothing, Out(With(n, d, e'), [])) && NodeOk(With(n, d, e'))
  {
    ChangeEntry(n, Nothing, d, e');
  }

  /** Extending one path's lifetime keeps everything. */
  lemma TouchPath(e: Entry, k: nat, until: real, maxPaths: int)
    requires EntryOk(e, maxPaths) && k < |e.paths|
    ensures Tidy(e, e.(paths := e.paths[k := e.paths[k].(expire := until)]), maxPaths)
  {
    var e' := e.(paths := e.paths[k := e.paths[k].(expire := until)]);
    forall j | 0 <= j < |e'.paths| ensures Among(e'.paths[j], e.paths) { assert SamePath(e'.paths[j], e.paths[j]); }
  }

  lemma FirstUsedTidy(e: Entry, until: real, maxPaths: int)
    requires EntryOk(e, maxPaths)
    ensures Tidy(e, FirstUsed(e, until), maxPaths)
  {
    SelfAmong(e.paths);
    if e.paths != [] { TouchPath(e, 0, until, maxPaths); }
  }

  lemma SoftReset(e: Entry, maxPaths: int)
    requires EntryOk(e, maxPaths)
    ensures Tidy(e, e.(reqTimeout := 0.0, reqLastTtl := 0, reqCnt := 0), maxPaths) && Tidy(e, e, maxPaths)
    ensures EntryOk(e.(reqTimeout := 0.0, reqLastTtl := 0, reqCnt := 0), maxPaths)
  {
    SelfAmong(e.paths);
  }

  lemma TidyTrans(a: Entry, b: Entry, c: Entry, maxPaths: int)
    requires Tidy(a, b, maxPaths) && Tidy(b, c, maxPaths)
    ensures Tidy(a, c, maxPaths)
  {
    forall k | 0 <= k < |c.paths| ensures Among(c.paths[k], a.paths) {
      assert Among(c.paths[k], b.paths);
      var j :| 0 <= j < |b.paths| && SamePath(c.paths[k], b.paths[j]);
      assert Among(b.paths[j], a.paths);
      var i :| 0 <= i < |a.paths| && SamePath(b.paths[j], a.paths[i]);
      assert SamePath(c.paths[k], a.paths[i]);
    }
  }

  lemma SettledTidy(e: Entry, d: Addr, env: Env, maxPaths: int)
    requires EntryOk(e, maxPaths)
    ensures Tidy(e, Settled(e, d, env), maxPaths)
  {
    hide Tidy, EntryOk, FirstUsed;
    var f := e.(reqTimeout := 0.0, reqLastTtl := 0, reqCnt := 0);
    SoftReset(e, maxPaths);
    FirstUsedTidy(f, env.now + ACTIVE_ROUTE_TIMEOUT, maxPaths);
    TidyTrans(e, f, FirstUsed(f, env.now + ACTIVE_ROUTE_TIMEOUT), maxPaths);
  }

  /** The advertised count is the longest path's, finite for a live route, and stays what it was once set. */
  lemma AdvertisedTidy(e: Entry, maxPaths: int)
    requires EntryOk(e, maxPaths) && e.up
    ensures Tidy(e, Advertised(e), maxPaths) && Advertised(e).adv.Fin?
    ensures Tidy(e, Advertised(e).(error := true), maxPaths)
  {
    SelfAmong(e.paths);
    assert e.paths[0].hopcount <= MaxHop(e.paths);
  }

  /** The entry may take the place of `e` when the packet arrives. */
  predicate Learned(e: Entry, h: Heard, d: Addr, e': Entry, maxPaths: int) {
    EntryOk(e', maxPaths) && EntryEvolves(e, e') && PathsFrom(e, h, d, e')
  }

  lemma TidyLearned(e: Entry, h: Heard, d: Addr, e': Entry, maxPaths: int)
    requires Tidy(e, e', maxPaths)
    ensures Learned(e, h, d, e', maxPaths)
  {
  }

  lemma KeptLearned(e: Entry, h: Heard, d: Addr, maxPaths: int)
    requires EntryOk(e, maxPaths)
    ensures Learned(e, h, d, e, maxPaths)
  {
    SelfAmong(e.paths);
  }

  lemma RenewedLearned(e: Entry, h: Heard, d: Addr, seqno: nat, p: Path, maxPaths: int)
    requires EntryOk(e, maxPaths) && e.seqno < seqno && seqno % 2 == 0 && p.hopcount >= 1
    requires OfferedBy(h, d, seqno, p)
    ensures Learned(e, h, d, Renewed(e, seqno, p), maxPaths)
  {
    assert [p][0] == p && MaxHop([p]) >= p.hopcount;
  }

  lemma DisjointAdd(ps: seq<Path>, p: Path)
    requires Disjoint(ps) && NewDisjoint(ps, p.nexthop, p.lasthop)
    ensures Disjoint(ps + [p])
  {
  }

  lemma AddedOk(e: Entry, p: Path, maxPaths: int)
    requires EntryOk(e, maxPaths) && e.up && p.hopcount >= 1 && Fin(p.hopcount - 1).Below(e.adv)
    requires NewDisjoint(e.paths, p.nexthop, p.lasthop) && e.numPaths < maxPaths
    ensures EntryOk(Added(e, p), maxPaths)
  {
    DisjointAdd(e.paths, p);
    hide Disjoint, NewDisjoint;
    var ps := e.paths + [p];
    assert ps[|e.paths|] == p && MaxHop(ps) >= p.hopcount;
  }

  lemma AddedLearned(e: Entry, h: Heard, d: Addr, p: Path, maxPaths: int)
    requires EntryOk(e, maxPaths) && e.up && p.hopcount >= 1 && Fin(p.hopcount - 1).Below(e.adv)
    requires NewDisjoint(e.paths, p.nexthop, p.lasthop) && e.numPaths < maxPaths && OfferedBy(h, d, e.seqno, p)
    ensures Learned(e, h, d, Added(e, p), maxPaths)
  {
    AddedOk(e, p, maxPaths);
    AddedFrom(e, h, d, p);
    hide EntryOk, NewDisjoint, PathsFrom;
  }

  lemma AddedFrom(e: Entry, h: Heard, d: Addr, p: Path)
    requires OfferedBy(h, d, e.seqno, p)
    ensures PathsFrom(e, h, d, Added(e, p))
  {
    hide OfferedBy, MaxHopcount;
    var e' := Added(e, p);
    forall k | 0 <= k < |e'.paths|
      ensures (e'.seqno == e.seqno && Among(e'.paths[k], e.paths)) || OfferedBy(h, d, e'.seqno, e'.paths[k])
    {
      if k < |e.paths| {
        assert e'.paths[k] == e.paths[k] && SamePath(e'.paths[k], e.paths[k]);
      } else {
        assert e'.paths[k] == p;
      }
    }
  }

  lemma RefreshedLearned(e: Entry, h: Heard, d: Addr, k: nat, until: real, maxPaths: int)
    requires EntryOk(e, maxPaths) && k < |e.paths|
    ensures Learned(e, h, d, Refreshed(e, k, until), maxPaths)
  {
    TouchPath(e, k, MaxTime(e.paths[k].expire, until), maxPaths);
    TidyLearned(e, h, d, Refreshed(e, k, until), maxPaths);
  }

  lemma OfferedLearned(n: Node, e: Entry, h: Heard, d: Addr, seqno: nat, p: Path)
    requires EntryOk(e, n.maxPaths) && seqno % 2 == 0 && (e.seqno == seqno ==> e.up)
    requires p.hopcount >= 1 && OfferedBy(h, d, seqno, p)
    ensures Learned(e, h, d, Offered(n, e, seqno, p), n.maxPaths)
    ensures e.seqno <= seqno ==> Offered(n, e, seqno, p).up && Offered(n, e, seqno, p).seqno == seqno
  {
    hide EntryOk, Learned, Find, NewDisjoint, MaxHopcount, MinHopcount, OfferedBy, Disjoint;
    KeptLearned(e, h, d, n.maxPaths);
    if e.seqno < seqno {
      RenewedLearned(e, h, d, seqno, p, n.maxPaths);
    } else if e.seqno == seqno && Fin(p.hopcount - 1).Below(e.adv) {
      var k := Find(e.paths, p.nexthop, p.lasthop);
      if k < |e.paths| {
        RefreshedLearned(e, h, d, k, p.expire, n.maxPaths);
      } else if NewDisjoint(e.paths, p.nexthop, p.lasthop) && Fits(n, e, p.hopcount) {
        AddedLearned(e, h, d, p, n.maxPaths);
      }
    }
  }

  lemma AdvertisedAt(n: Node, d: Addr)
    requires NodeOk(n) && d in n.table && n.table[d].up
    ensures Tidy(n.table[d], Advertised(n.table[d]), n.maxPaths) && Advertised(n.table[d]).adv.Fin?
    ensures Tidy(n.table[d], Advertised(n.table[d]).(error := true), n.maxPaths)
    ensures n.table[d].seqno % 2 == 0 && n.table[d].seqno >= 2
  {
    assert EntryOk(n.table[d], n.maxPaths);
    AdvertisedTidy(n.table[d], n.maxPaths);
  }

  lemma UnchangedAt(n: Node, d: Addr)
    requires NodeOk(n) && d in n.table
    ensures Tidy(n.table[d], n.table[d], n.maxPaths)
  {
    assert EntryOk(n.table[d], n.maxPaths);
    SelfAmong(n.table[d].paths);
  }

  lemma FirstUsedAt(n: Node, d: Addr, until: real)
    requires NodeOk(n) && d in n.table
    ensures Tidy(n.table[d], FirstUsed(n.table[d], until), n.maxPaths)
  {
    assert EntryOk(n.table[d], n.maxPaths);
    FirstUsedTidy(n.table[d], until, n.maxPaths);
  }

  // ---------- requests ----------

  /** One tidy entry change together with a change outside the table. */
  lemma TidyThenSame(n: Node, d: Addr, e': Entry, n': Node)
    requires NodeOk(n) && d in n.table && Tidy(n.table[d], e', n.maxPaths)
    requires n'.table == n.table[d := e'] && n'.dests == n.dests && n'.index == n.index
    requires n'.maxPaths == n.maxPaths && n'.lenDiff == n.lenDiff && n'.bid >= n.bid
    requires n'.seqno == n.seqno || (n'.seqno % 2 == 0 && n'.seqno >= n.seqno)
    ensures StepOk(n, Nothing, Out(n', [])) && NodeOk(n')
  {
    var n1 := With(n, d, e');
    TidyStep(n, d, e');
    assert NodeOk(n1);
    SameTable(n1, n');
    StepThen(n, Nothing, n1, Out(n', []));
  }

  lemma SendRequestTidy(n: Node, d: Addr, env: Env)
    requires NodeOk(n) && d in n.table
    ensures Tidy(n.table[d], SendRequest(n, d, env).node.table[d], n.maxPaths)
  {
    assert EntryOk(n.table[d], n.maxPaths);
    SelfAmong(n.table[d].paths);
  }

  lemma SendRequestShape(n: Node, d: Addr, env: Env)
    requires NodeOk(n) && d in n.table
    ensures var o := SendRequest(n, d, env);
            && o.node.table == n.table[d := o.node.table[d]] && o.node.dests == n.dests && o.node.index == n.index
            && o.node.maxPaths == n.maxPaths && o.node.lenDiff == n.lenDiff && o.node.bid >= n.bid
            && (o.node.seqno == n.seqno || (o.node.seqno % 2 == 0 && o.node.seqno >= n.seqno))
            && OwnRequests(n, o.sent)
  {
    assert n.table == n.table[d := n.table[d]];
  }

  lemma SendRequestStep(n: Node, d: Addr, env: Env)
    requires NodeOk(n) && d in n.table
    ensures StepOk(n, Nothing, SendRequest(n, d, env)) && OwnRequests(n, SendRequest(n, d, env).sent)
  {
    hide NodeOk, StepOk, Tidy, SentOk, SendRequest;
    var o := SendRequest(n, d, env);
    SendRequestTidy(n, d, env);
    SendRequestShape(n, d, env);
    TidyThenSame(n, d, o.node.table[d], o.node);
    OwnCurrent(o.node, o.sent);
    SendAfter(n, Nothing, o.node, o.sent);
  }

  /** A search is never the "first time" one with TTL_START: the last hop count starts at INFINITY2. */
  lemma RingNeverStarts(n: Node, d: Addr)
    requires NodeOk(n) && d in n.table
    ensures Max(n.table[d].reqLastTtl, n.table[d].lastHops.Num()) != 0
    ensures SearchTtl(Max(n.table[d].reqLastTtl, n.table[d].lastHops.Num())) <= NETWORK_DIAMETER
  {
    assert EntryOk(n.table[d], n.maxPaths);
  }

  /** Own new requests only: these are current whatever else happens at the node. */
  predicate OwnRequests(n: Node, sent: seq<Msg>) {
    forall k | 0 <= k < |sent| ::
      sent[k].Rreq? && sent[k].sender == n.index && sent[k].src == n.index && sent[k].hopCount == 0 && MsgOk(sent[k])
  }

  lemma OwnCurrent(n: Node, sent: seq<Msg>)
    requires OwnRequests(n, sent)
    ensures SentOk(n, sent)
  {
  }

  lemma UpdateReverseOk(n: Node, m: Msg, firstHop: Addr, env: Env)
    requires NodeOk(n) && m.Rreq? && MsgOk(m) && m.src in n.table
    ensures var r := UpdateReverse(n, n.table[m.src], m, firstHop, env);
            && Learned(n.table[m.src], Packet(m), m.src, r.entry, n.maxPaths)
            && (r.goOn ==> r.entry.up && r.entry.seqno == m.srcSeqno)
  {
    var e := n.table[m.src];
    assert EntryOk(e, n.maxPaths) && (e.seqno == m.srcSeqno ==> e.up);
    hide NodeOk, EntryOk, Learned;
    OfferedLearned(n, e, Packet(m), m.src, m.srcSeqno, ReversePath(m, firstHop, env));
  }

  lemma NotedStep(n: Node, m: Msg, env: Env)
    requires NodeOk(n) && m.Rreq?
    ensures StepOk(n, Nothing, Out(Noted(n, m, env), [])) && NodeOk(Noted(n, m, env)) && m.src in Noted(n, m, env).table
  {
    var n0 := if Cached(n.bcache, m.src, m.bcastId) then n
              else n.(bcache := IdInsert(n.bcache, m.src, m.bcastId, env.now));
    SameTable(n, n0);
    AddEntry(n0, m.src);
    StepThen(n, Nothing, n0, Out(RtAdd(n0, m.src), []));
  }

  lemma AnswerAsDestinationStep(n: Node, m: Msg)
    requires NodeOk(n) && m.Rreq?
    ensures StepOk(n, Nothing, AnswerAsDestination(n, m))
  {
    var o := AnswerAsDestination(n, m);
    SameTable(n, o.node);
    SendAfter(n, Nothing, o.node, o.sent);
  }

  lemma AnswerFromTableStep(n: Node, m: Msg, env: Env)
    requires NodeOk(n) && m.Rreq? && m.dst in n.table && n.table[m.dst].up && m.dst != n.index
    requires Cached(n.bcache, m.src, m.bcastId)
    ensures StepOk(n, Nothing, AnswerFromTable(n, m, env))
  {
    var o := AnswerFromTable(n, m, env);
    var rt := Advertised(n.table[m.dst]).(error := true);
    hide NodeOk, StepOk, Tidy;
    AdvertisedAt(n, m.dst);
    TidyThenSame(n, m.dst, rt, o.node);
    SendAfter(n, Nothing, o.node, o.sent);
  }

  lemma PassRequestStep(n: Node, m: Msg)
    requires NodeOk(n) && m.Rreq? && MsgOk(m) && m.src in n.table && m.src != n.index
    requires n.table[m.src].up && n.table[m.src].seqno == m.srcSeqno
    ensures StepOk(n, Nothing, PassRequest(n, m))
  {
    var o := PassRequest(n, m);
    var rt0 := Advertised(n.table[m.src]);
    hide NodeOk, StepOk, Tidy, SentOk, Advertised;
    AdvertisedAt(n, m.src);
    TidyStep(n, m.src, rt0);
    PassedRequestCurrent(n, m);
    SendAfter(n, Nothing, o.node, o.sent);
  }

  lemma PassedRequestCurrent(n: Node, m: Msg)
    requires m.Rreq? && MsgOk(m) && m.src in n.table && m.src != n.index && n.table[m.src].seqno == m.srcSeqno
    requires Advertised(n.table[m.src]).adv.Fin?
    ensures SentOk(PassRequest(n, m).node, PassRequest(n, m).sent)
  {
    assert PassRequest(n, m).node.table[m.src] == Advertised(n.table[m.src]);
  }

  lemma AnswerRequestStep(n: Node, m: Msg, seen: bool, inHand: bool, env: Env)
    requires NodeOk(n) && m.Rreq? && MsgOk(m) && m.src in n.table && m.src != n.index
    requires n.table[m.src].up && n.table[m.src].seqno == m.srcSeqno && Cached(n.bcache, m.src, m.bcastId)
    ensures StepOk(n, Nothing, AnswerRequest(n, m, seen, inHand, env))
  {
    SameTable(n, n);
    if m.dst == n.index {
      AnswerAsDestinationStep(n, m);
    } else if m.dst in n.table && n.table[m.dst].up && n.table[m.dst].seqno >= m.dstSeqno {
      if inHand && !Counted(n.bcache, m.src, m.bcastId) { AnswerFromTableStep(n, m, env); }
    } else if !seen {
      PassRequestStep(n, m);
    }
  }

  /** Recording what a packet offers and settling the entry, before anything is sent. */
  lemma LearnSettled(n: Node, m: Msg, n1: Node, d: Addr, e: Entry, env: Env)
    requires NodeOk(n1) && StepOk(n, Nothing, Out(n1, []))
    requires forall x | x in n1.table :: n1.table[x] == EntryOf(n, x)
    requires d in n1.table && Learned(n1.table[d], Packet(m), d, e, n1.maxPaths)
    ensures StepOk(n, Packet(m), Out(With(n1, d, e), []))
    ensures var n3 := With(n1, d, Settled(e, d, env)); NodeOk(n3) && StepOk(n, Packet(m), Out(n3, []))
  {
    var n2 := With(n1, d, e);
    var f := Settled(e, d, env);
    assert NodeOk(n2) by { ChangeEntry(n1, Packet(m), d, e); }
    assert NodeOk(With(n2, d, f)) by { SettledTidy(e, d, env, n1.maxPaths); TidyStep(n2, d, f); }
    UpdateTwice(n1.table, d, e, f);
    hide StepOk, NodeOk, Tidy, Settled;
    ChangeEntry(n1, Packet(m), d, e);
    LearnAfter(n, m, n1, n2);
    SettledTidy(e, d, env, n1.maxPaths);
    TidyStep(n2, d, f);
    StepThen(n, Packet(m), n2, Out(With(n1, d, f), []));
  }

  lemma NotedTable(n: Node, m: Msg, env: Env)
    requires m.Rreq?
    ensures var n1 := Noted(n, m, env);
            && (forall x | x in n1.table :: n1.table[x] == EntryOf(n, x)) && Cached(n1.bcache, m.src, m.bcastId)
            && n1.maxPaths == n.maxPaths && n1.index == n.index
  {
  }

  lemma RecvRequestStep(n: Node, m: Msg, env: Env)
    requires NodeOk(n) && m.Rreq? && MsgOk(m)
    ensures StepOk(n, Packet(m), RecvRequest(n, m, env))
  {
    hide StepOk, Learned, UpdateReverse, EntryOf;
    if m.src == n.index {
      SameTable(n, n);
      WithPacket(n, Packet(m), Out(n, []));
    } else {
      var seen := Cached(n.bcache, m.src, m.bcastId);
      var n1 := Noted(n, m, env);
      NotedStep(n, m, env);
      NotedTable(n, m, env);
      hide NodeOk, Noted;
      var r := UpdateReverse(n1, n1.table[m.src], m, FirstHop(n1, m), env);
      UpdateReverseOk(n1, m, FirstHop(n1, m), env);
      LearnSettled(n, m, n1, m.src, r.entry, env);
      if r.goOn {
        var n3 := With(n1, m.src, Settled(r.entry, m.src, env));
        AnswerRequestStep(n3, m, seen, r.inHand, env);
        StepThen(n, Packet(m), n3, AnswerRequest(n3, m, seen, r.inHand, env));
      }
    }
  }

  /** A step without a packet followed by one with it; the first adds no path. */
  lemma LearnAfter(n: Node, m: Msg, n1: Node, n2: Node)
    requires StepOk(n, Nothing, Out(n1, [])) && StepOk(n1, Packet(m), Out(n2, []))
    requires forall d | d in n1.table :: n1.table[d] == EntryOf(n, d)
    ensures StepOk(n, Packet(m), Out(n2, []))
  {
    EvolvesTrans(n, n1, n2);
    forall d | d in n2.table ensures PathsFrom(EntryOf(n, d), Packet(m), d, n2.table[d]) {
      assert PathsFrom(EntryOf(n1, d), Packet(m), d, n2.table[d]);
      assert EntryOf(n1, d) == EntryOf(n, d);
    }
  }

  // ---------- replies ----------

  lemma UpdateForwardOk(n: Node, m: Msg, env: Env)
    requires NodeOk(n) && m.Rrep? && MsgOk(m) && m.dst in n.table
    ensures var f := UpdateForward(n, n.table[m.dst], m, env);
            && Learned(n.table[m.dst], Packet(m), m.dst, f.entry, n.maxPaths)
            && (f.goOn ==> f.entry.up && f.entry.seqno == m.dstSeqno)
  {
    var e := n.table[m.dst];
    assert EntryOk(e, n.maxPaths) && (e.seqno == m.dstSeqno ==> e.up);
    hide NodeOk, EntryOk, Learned;
    OfferedLearned(n, e, Packet(m), m.dst, m.dstSeqno, ForwardPath(m, env));
  }

  lemma PassReplyStep(n: Node, m: Msg, env: Env)
    requires NodeOk(n) && m.Rrep? && MsgOk(m) && m.dst in n.table && m.ipDst in n.table && m.dst != n.index
    requires n.table[m.dst].up && n.table[m.dst].seqno == m.dstSeqno && Cached(n.bcache, m.ipDst, m.bcastId)
    ensures StepOk(n, Nothing, PassReply(n, m, env))
  {
    var o := PassReply(n, m, env);
    var rt := Advertised(n.table[m.dst]).(error := true);
    var n1 := With(n, m.dst, rt);
    var until := env.now + ACTIVE_ROUTE_TIMEOUT;
    hide StepOk, NodeOk, Tidy, SentOk, Advertised, FirstUsed;
    AdvertisedAt(n, m.dst);
    TidyStep(n, m.dst, rt);
    FirstUsedAt(n1, m.ipDst, until);
    TidyThenSame(n1, m.ipDst, FirstUsed(n1.table[m.ipDst], until), o.node);
    StepThen(n, Nothing, n1, Out(o.node, []));
    PassedReplyCurrent(n, m, env, rt);
    SendAfter(n, Nothing, o.node, o.sent);
  }

  lemma PassedReplyCurrent(n: Node, m: Msg, env: Env, rt: Entry)
    requires m.Rrep? && MsgOk(m) && m.dst in n.table && m.ipDst in n.table && m.dst != n.index
    requires rt == Advertised(n.table[m.dst]).(error := true) && rt.adv.Fin?
    requires n.table[m.dst].seqno == m.dstSeqno && Cached(n.bcache, m.ipDst, m.bcastId)
    ensures SentOk(PassReply(n, m, env).node, PassReply(n, m, env).sent)
  {
    var o := PassReply(n, m, env);
    assert o.node.table[m.dst].seqno == rt.seqno && o.node.table[m.dst].adv == rt.adv;
  }

  lemma RecvReplyStep(n: Node, m: Msg, env: Env)
    requires NodeOk(n) && m.Rrep? && MsgOk(m)
    ensures StepOk(n, Packet(m), RecvReply(n, m, env))
  {
    hide StepOk, Learned, UpdateForward;
    if m.dst == n.index {
      SameTable(n, n);
      WithPacket(n, Packet(m), Out(n, []));
    } else {
      var n1 := RtAdd(n, m.dst);
      AddEntry(n, m.dst);
      hide NodeOk;
      var f := UpdateForward(n1, n1.table[m.dst], m, env);
      UpdateForwardOk(n1, m, env);
      LearnSettled(n, m, n1, m.dst, f.entry, env);
      if f.goOn {
        var n3 := With(n1, m.dst, Settled(f.entry, m.dst, env));
        RelayReplyStep(n3, m, env);
        StepThen(n, Packet(m), n3, RelayReply(n3, m, env));
      }
    }
  }

  lemma RelayReplyStep(n: Node, m: Msg, env: Env)
    requires NodeOk(n) && m.Rrep? && MsgOk(m) && m.dst in n.table && m.dst != n.index
    requires n.table[m.dst].up && n.table[m.dst].seqno == m.dstSeqno
    ensures StepOk(n, Nothing, RelayReply(n, m, env))
  {
    SameTable(n, n);
    if !(m.ipDst == n.index || m.ipDst !in n.table || !n.table[m.ipDst].up
         || !Cached(n.bcache, m.ipDst, m.bcastId) || Counted(n.bcache, m.ipDst, m.bcastId)) {
      PassReplyStep(n, m, env);
    }
  }

  lemma RecvHelloStep(n: Node, m: Msg, env: Env)
    requires NodeOk(n) && m.Hello? && MsgOk(m)
    ensures StepOk(n, Packet(m), RecvHello(n, m, env))
  {
    hide NodeOk, StepOk, RecvReply;
    var n1 := HeardHello(n, m.sender, env.now);
    SameTable(n, n1);
    HeardHelloStep(n, n1, m, env);
  }

  lemma HeardHelloStep(n: Node, n1: Node, m: Msg, env: Env)
    requires StepOk(n, Nothing, Out(n1, [])) && NodeOk(n1) && n1.table == n.table && n1.index == n.index
    requires m.Hello? && MsgOk(m)
    ensures StepOk(n, Packet(m), RecvReply(n1, HelloAsReply(n, m), env))
  {
    hide NodeOk, StepOk, RecvReply;
    RecvReplyStep(n1, HelloAsReply(n, m), env);
    HelloStep(n, n1, HelloAsReply(n, m), m, RecvReply(n1, HelloAsReply(n, m), env));
  }

  /** Hearing a hello is hearing the reply it stands for. */
  lemma HelloStep(n: Node, n1: Node, r: Msg, m: Msg, o: Out)
    requires m.Hello? && r == HelloAsReply(n, m) && n1.table == n.table
    requires StepOk(n, Nothing, Out(n1, [])) && StepOk(n1, Packet(r), o)
    ensures StepOk(n, Packet(m), o)
  {
    hide NodeOk, SentOk, Evolves, RoutesFrom;
    HelloRoutes(n, n1, r, m, o.node);
    EvolvesTrans(n, n1, o.node);
  }

  lemma HelloRoutes(n: Node, n1: Node, r: Msg, m: Msg, n': Node)
    requires m.Hello? && r == HelloAsReply(n, m) && n1.table == n.table && RoutesFrom(n1, Packet(r), n')
    ensures RoutesFrom(n, Packet(m), n')
  {
    forall d | d in n'.table ensures PathsFrom(EntryOf(n, d), Packet(m), d, n'.table[d]) {
      assert PathsFrom(EntryOf(n1, d), Packet(r), d, n'.table[d]);
      assert EntryOf(n1, d) == EntryOf(n, d);
      forall k | 0 <= k < |n'.table[d].paths| && OfferedBy(Packet(r), d, n'.table[d].seqno, n'.table[d].paths[k])
        ensures OfferedBy(Packet(m), d, n'.table[d].seqno, n'.table[d].paths[k])
      {
      }
    }
  }

  // ---------- losses ----------

  /** What remains of a live route after one next hop is deleted. */
  lemma PathDeleteOk(e: Entry, id: Addr, maxPaths: int)
    requires EntryOk(e, maxPaths) && e.up && HasNext(e.paths, id)
    ensures var e' := PathDelete(e, id);
            && e'.numPaths == |e'.paths| == |e.paths| - 1 && Disjoint(e'.paths) && !HasNext(e'.paths, id)
            && (forall q | q in e'.paths :: q in e.paths)
            && (e'.paths != [] ==> Tidy(e, e', maxPaths))
  {
    WithoutKeeps(e.paths, id);
    SubAmong(e.paths, Without(e.paths, id));
  }

  lemma SubAmong(ps: seq<Path>, qs: seq<Path>)
    requires forall q | q in qs :: q in ps
    ensures forall k | 0 <= k < |qs| :: Among(qs[k], ps)
  {
    forall k | 0 <= k < |qs| ensures Among(qs[k], ps) {
      assert qs[k] in ps;
      var j :| 0 <= j < |ps| && ps[j] == qs[k];
      assert SamePath(qs[k], ps[j]);
    }
  }

  lemma LoseOneStep(n: Node, sender: Addr, u: Unreachable)
    requires NodeOk(n) && OddOrZero(u.seqno)
    ensures var l := LoseOne(n, sender, u); StepOk(n, Nothing, Out(l.node, [])) && LostOk(l.lost)
  {
    var l := LoseOne(n, sender, u);
    if l.node == n {
      SameTable(n, n);
    } else {
      var e := n.table[u.dst];
      assert EntryOk(e, n.maxPaths);
      PathDeleteOk(e, sender, n.maxPaths);
      ChangeEntry(n, Nothing, u.dst, l.node.table[u.dst]);
    }
  }

  lemma {:induction false} LoseAllStep(n: Node, sender: Addr, us: seq<Unreachable>)
    requires NodeOk(n) && LostOk(us)
    ensures var l := LoseAll(n, sender, us); StepOk(n, Nothing, Out(l.node, [])) && LostOk(l.lost)
    decreases |us|
  {
    if us == [] {
      SameTable(n, n);
    } else {
      var l := LoseOne(n, sender, us[0]);
      LoseOneStep(n, sender, us[0]);
      LoseAllStep(l.node, sender, us[1..]);
      StepThen(n, Nothing, l.node, Out(LoseAll(l.node, sender, us[1..]).node, []));
    }
  }

  lemma RecvErrorStep(n: Node, m: Msg)
    requires NodeOk(n) && m.Rerr? && MsgOk(m)
    ensures StepOk(n, Nothing, RecvError(n, m))
  {
    LoseAllStep(n, m.sender, m.unreachable);
  }

  lemma FailOneStep(n: Node, id: Addr, d: Addr)
    requires NodeOk(n) && d in n.table
    ensures var l := FailOne(n, id, d); StepOk(n, Nothing, Out(l.node, [])) && LostOk(l.lost)
  {
    var l := FailOne(n, id, d);
    if l.node == n {
      SameTable(n, n);
    } else {
      var e := n.table[d];
      assert EntryOk(e, n.maxPaths);
      PathDeleteOk(e, id, n.maxPaths);
      ChangeEntry(n, Nothing, d, l.node.table[d]);
    }
  }

  lemma {:induction false} FailAllStep(n: Node, id: Addr, ds: seq<Addr>)
    requires NodeOk(n) && forall d | d in ds :: d in n.table
    ensures var l := FailAll(n, id, ds); StepOk(n, Nothing, Out(l.node, [])) && LostOk(l.lost)
    decreases |ds|
  {
    if ds == [] {
      SameTable(n, n);
    } else {
      var l := FailOne(n, id, ds[0]);
      FailOneStep(n, id, ds[0]);
      FailAllStep(l.node, id, ds[1..]);
      StepThen(n, Nothing, l.node, Out(FailAll(l.node, id, ds[1..]).node, []));
    }
  }

  lemma SendErrorStep(n: Node, l: Losses)
    requires StepOk(n, Nothing, Out(l.node, [])) && LostOk(l.lost)
    ensures StepOk(n, Nothing, SendError(l))
  {
  }

  lemma HandleLinkFailureStep(n: Node, id: Addr)
    requires NodeOk(n)
    ensures StepOk(n, Nothing, HandleLinkFailure(n, id))
  {
    assert Listed(n, n.dests);
    FailAllStep(n, id, n.dests);
    hide NodeOk, StepOk, LostOk, FailAll, SendError;
    SendErrorStep(n, FailAll(n, id, n.dests));
  }

  /** A packet over the first path changes no route. */
  lemma UsedStep(n: Node, d: Addr, mine: bool, now: real)
    requires NodeOk(n) && d in n.table
    ensures StepOk(n, Nothing, Out(With(n, d, Used(n.table[d], mine, now)), []))
  {
    assert EntryOk(n.table[d], n.maxPaths);
    FirstUsedTidy(n.table[d], now + ACTIVE_ROUTE_TIMEOUT, n.maxPaths);
    TidyStep(n, d, Used(n.table[d], mine, now));
  }

  lemma {:induction false} SalvageAllStep(n: Node, ps: seq<Stuck>, now: real)
    requires NodeOk(n)
    ensures StepOk(n, Nothing, Out(SalvageAll(n, ps, now), []))
    decreases |ps|
  {
    SameTable(n, n);
    if ps != [] {
      var n1 := SalvageOne(n, ps[0], now);
      if n1 != n { UsedStep(n, ps[0].dst, ps[0].mine, now); }
      SalvageAllStep(n1, ps[1..], now);
      StepThen(n, Nothing, n1, Out(SalvageAll(n1, ps[1..], now), []));
    }
  }

  /** Errors offer no route, so they stay true of whatever the node becomes. */
  lemma ErrorsThen(n: Node, o: Out, n': Node)
    requires StepOk(n, Nothing, o) && StepOk(o.node, Nothing, Out(n', []))
    requires forall k | 0 <= k < |o.sent| :: o.sent[k].Rerr?
    ensures StepOk(n, Nothing, Out(n', o.sent))
  {
    SilentPart(n, Nothing, o);
    StepThen(n, Nothing, o.node, Out(n', []));
    forall k | 0 <= k < |o.sent| ensures MsgOk(o.sent[k]) && Current(n', o.sent[k]) {
      assert Current(o.node, o.sent[k]);
    }
  }

  lemma ForgetStep(n: Node, id: Addr)
    requires NodeOk(n)
    ensures var n1 := ForgetNeighbor(n, id); NodeOk(n1) && Listed(n1, n1.dests) && StepOk(n, Nothing, Out(n1, []))
  {
    SameTable(n, ForgetNeighbor(n, id));
  }

  lemma NbDeleteStep(n: Node, id: Addr, stuck: seq<Stuck>, now: real)
    requires NodeOk(n)
    ensures StepOk(n, Nothing, NbDelete(n, id, stuck, now))
  {
    hide NodeOk, StepOk, SalvageAll, HandleLinkFailure, Listed, ForgetNeighbor;
    ForgetStep(n, id);
    var n1 := ForgetNeighbor(n, id);
    HandleLinkFailureStep(n1, id);
    var o := HandleLinkFailure(n1, id);
    StepThen(n, Nothing, n1, o);
    SilentPart(n, Nothing, o);
    SalvageAllStep(o.node, stuck, now);
    ErrorsOnly(n1, id);
    ErrorsThen(n, o, SalvageAll(o.node, stuck, now));
  }

  lemma ErrorsOnly(n: Node, id: Addr)
    requires Listed(n, n.dests)
    ensures forall k | 0 <= k < |HandleLinkFailure(n, id).sent| :: HandleLinkFailure(n, id).sent[k].Rerr?
  {
  }

  // ---------- purge and data ----------

  lemma PurgeOneStep(n: Node, d: Addr, env: Env)
    requires NodeOk(n) && d in n.table
    ensures StepOk(n, Nothing, PurgeOne(n, d, env)) && OwnRequests(n, PurgeOne(n, d, env).sent)
  {
    hide NodeOk, StepOk, SendRequest, Unexpired;
    var e := n.table[d];
    if e.up && e.expire < env.now {
      PurgedStep(n, d, env);
    } else if e.up {
      LiveKeptStep(n, d, env);
    } else if d in env.waiting {
      SendRequestStep(n, d, env);
    } else {
      SameTable(n, n);
    }
  }

  lemma LiveKeptStep(n: Node, d: Addr, env: Env)
    requires NodeOk(n) && d in n.table
    ensures StepOk(n, Nothing, Out(With(n, d, Drained(n.table[d], d, env)), []))
  {
    hide NodeOk, StepOk, Tidy, EntryOk;
    UnchangedAt(n, d);
    FirstUsedAt(n, d, env.now + ACTIVE_ROUTE_TIMEOUT);
    TidyStep(n, d, Drained(n.table[d], d, env));
  }

  lemma PurgedStep(n: Node, d: Addr, env: Env)
    requires NodeOk(n) && d in n.table && n.table[d].up && n.table[d].expire < env.now
    ensures StepOk(n, Nothing, PurgeOne(n, d, env)) && PurgeOne(n, d, env).sent == []
  {
    var e, o := n.table[d], PurgeOne(n, d, env);
    assert EntryOk(e, n.maxPaths);
    UnexpiredKeeps(e.paths, env.now);
    SubAmong(e.paths, Unexpired(e.paths, env.now));
    assert Learned(e, Nothing, d, o.node.table[d], n.maxPaths);
    hide NodeOk, StepOk, EntryOk, Unexpired, Among;
    ChangeEntry(n, Nothing, d, o.node.table[d]);
  }

  lemma SilentPart(n: Node, h: Heard, o: Out)
    requires StepOk(n, h, o)
    ensures StepOk(n, h, Out(o.node, [])) && o.node.index == n.index && NodeOk(o.node)
  {
  }

  lemma PurgesCompose(n: Node, o: Out, r: Out)
    requires StepOk(n, Nothing, o) && OwnRequests(n, o.sent)
    requires StepOk(o.node, Nothing, r) && OwnRequests(o.node, r.sent)
    ensures StepOk(n, Nothing, Out(r.node, o.sent + r.sent)) && OwnRequests(n, o.sent + r.sent)
  {
    hide StepOk, NodeOk, SentOk;
    SilentPart(n, Nothing, o);
    SilentPart(o.node, Nothing, r);
    StepThen(n, Nothing, o.node, Out(r.node, []));
    OwnCurrent(r.node, o.sent + r.sent);
    SendAfter(n, Nothing, r.node, o.sent + r.sent);
  }

  lemma {:induction false} PurgeAllStep(n: Node, ds: seq<Addr>, env: Env)
    requires NodeOk(n) && forall d | d in ds :: d in n.table
    ensures StepOk(n, Nothing, PurgeAll(n, ds, env)) && OwnRequests(n, PurgeAll(n, ds, env).sent)
    decreases |ds|
  {
    if ds == [] {
      SameTable(n, n);
    } else {
      var o := PurgeOne(n, ds[0], env);
      PurgeOneStep(n, ds[0], env);
      var r := PurgeAll(o.node, ds[1..], env);
      PurgeAllStep(o.node, ds[1..], env);
      PurgesCompose(n, o, r);
    }
  }

  lemma RtResolveStep(n: Node, d: Addr, mine: bool, env: Env)
    requires NodeOk(n)
    ensures StepOk(n, Nothing, RtResolve(n, d, mine, env))
  {
    AddEntry(n, d);
    var n1 := RtAdd(n, d);
    var e := n1.table[d];
    var o := RtResolve(n, d, mine, env);
    assert EntryOk(e, n.maxPaths);
    if e.up {
      UsedStep(n1, d, mine, env.now);
      StepThen(n, Nothing, n1, o);
    } else if mine {
      SendRequestStep(n1, d, env);
      StepThen(n, Nothing, n1, o);
    } else {
      SendAfter(n, Nothing, n1, o.sent);
    }
  }
}
