/** What each AOMDV handler brings about, told by what was in the table and in the packet and not by how the handler
    goes about it: which paths are taken up, refused or lost, who is answered and who is passed on, what is sent. */
module AomdvEffects {
  import opened RoutingBase
  import opened AomdvPaths
  import opened AomdvNode
  import opened AomdvProps

  // ---------- tables and entries ----------

  /** A second entry is there besides those before, at the head of the list, if `d` was new. */
  predicate Entered(n: Node, n': Node, d: Addr) {
    && n'.table.Keys == n.table.Keys + {d}
    && n'.dests == if d in n.table then n.dests else [d] + n.dests
  }

  predicate OnlyTable(n: Node, n': Node) {
    n' == n.(table := n'.table) && n'.table.Keys == n.table.Keys
  }

  predicate SameSearch(e: Entry, e': Entry) {
    e'.reqTimeout == e.reqTimeout && e'.reqCnt == e.reqCnt && e'.reqLastTtl == e.reqLastTtl
  }

  /** `n` has a live route to `d`, under the number asked for or a later one. */
  predicate Serves(n: Node, d: Addr, asked: nat) {
    d in n.table && n.table[d].up && n.table[d].seqno >= asked
  }

  predicate In(ps: seq<Path>, nexthop: Addr, lasthop: Addr) {
    exists k | 0 <= k < |ps| :: ps[k].nexthop == nexthop && ps[k].lasthop == lasthop
  }

  /** The length of the longest path. */
  predicate Longest(ps: seq<Path>, h: Hops) {
    h.Fin? && (forall k | 0 <= k < |ps| :: ps[k].hopcount <= h.n) && exists k | 0 <= k < |ps| :: ps[k].hopcount == h.n
  }

  /** A path of this length is not too much longer than any other. */
  predicate Near(ps: seq<Path>, hops: nat, lenDiff: int) {
    forall k | 0 <= k < |ps| :: hops - ps[k].hopcount <= lenDiff
  }

  /** There is room for one more path of this length. */
  predicate Room(n: Node, e: Entry, hops: nat) {
    |e.paths| < n.maxPaths && Near(e.paths, hops, n.lenDiff)
  }

  // ---------- a path offered ----------

  /** The offer is newer, or as new and shorter than what this node has told others. */
  predicate Takes(e: Entry, seqno: nat, p: Path) {
    seqno > e.seqno || (seqno == e.seqno && (e.adv.Inf? || p.hopcount <= e.adv.n))
  }

  /** A known path is the one that gets a longer life. */
  predicate Prolonged(ps: seq<Path>, p: Path, ps': seq<Path>) {
    && |ps'| == |ps|
    && forall k | 0 <= k < |ps| ::
         if ps[k].nexthop == p.nexthop && ps[k].lasthop == p.lasthop
         then ps'[k].expire >= p.expire && ps'[k].expire >= ps[k].expire && SamePath(ps[k], ps'[k])
              && (ps'[k].expire == p.expire || ps'[k] == ps[k])
         else ps'[k] == ps[k]
  }

  /** The paths once `p` is offered: `p` alone if it is newer; else `p` gets a longer life if it is known, and is added at
      the end if it shares neither end with another and there is room. */
  predicate PathsAfter(n: Node, e: Entry, seqno: nat, p: Path, ps: seq<Path>) {
    if seqno > e.seqno then ps == [p]
    else if !Takes(e, seqno, p) then ps == e.paths
    else if In(e.paths, p.nexthop, p.lasthop) then Prolonged(e.paths, p, ps)
    else if NewDisjoint(e.paths, p.nexthop, p.lasthop) && Room(n, e, p.hopcount) then ps == e.paths + [p]
    else ps == e.paths
  }

  /** The hop count told to others is fixed when it is told first. */
  predicate ToldAs(was: Hops, ps: seq<Path>, now: Hops) {
    if was.Fin? then now == was else Longest(ps, now)
  }

  predicate FirstTill(ps: seq<Path>, until: real, ps': seq<Path>) {
    ps' == if ps == [] then [] else ps[0 := ps[0].(expire := until)]
  }

  /** What an offer leaves in the entry. `on` says that the packet is worth more than the path it came over: the search
      for the destination is over then, and packets that wait for it leave over the first path. */
  ghost predicate TakenUp(n: Node, e: Entry, d: Addr, seqno: nat, p: Path, env: Env, on: bool, e': Entry) {
    && (exists ps | PathsAfter(n, e, seqno, p, ps) ::
          && (if on && d in env.waiting then FirstTill(ps, env.now + ACTIVE_ROUTE_TIMEOUT, e'.paths) else e'.paths == ps)
          && (if seqno > e.seqno || |ps| > |e.paths| then Longest(ps, e'.lastHops) else e'.lastHops == e.lastHops))
    && e'.seqno == Max(e.seqno, seqno) && e'.up == (e.up || seqno > e.seqno)
    && (if on then e'.reqTimeout == 0.0 && e'.reqLastTtl == 0 && e'.reqCnt == 0 else SameSearch(e, e'))
    && e'.highest == e.highest && e'.expire == e.expire
  }

  /** What the entry has told others before it is told anew. */
  function Untold(e: Entry, seqno: nat): Hops {
    if seqno > e.seqno then Inf else e.adv
  }

  predicate Advertising(e: Entry, seqno: nat, told: bool, e': Entry) {
    if told then ToldAs(Untold(e, seqno), e'.paths, e'.adv) else e'.adv == Untold(e, seqno)
  }

  lemma MaxIsLongest(ps: seq<Path>)
    requires ps != [] && forall k | 0 <= k < |ps| :: ps[k].hopcount >= 1
    ensures Longest(ps, MaxHopcount(ps))
  {
    assert ps[0].hopcount <= MaxHop(ps);
  }

  lemma MinIsNear(ps: seq<Path>, hops: nat, lenDiff: int)
    requires ps != []
    ensures hops - MinHopcount(ps).Num() <= lenDiff <==> Near(ps, hops, lenDiff)
  {
    assert ps[0].hopcount >= MinHopcount(ps).n;
  }

  lemma FindIs(ps: seq<Path>, nexthop: Addr, lasthop: Addr)
    ensures Find(ps, nexthop, lasthop) < |ps| <==> In(ps, nexthop, lasthop)
  {
  }

  lemma RefreshedTells(e: Entry, k: nat, p: Path)
    requires Disjoint(e.paths) && k < |e.paths| && e.paths[k].nexthop == p.nexthop && e.paths[k].lasthop == p.lasthop
    ensures Prolonged(e.paths, p, Refreshed(e, k, p.expire).paths)
  {
  }

  lemma OfferedTells(n: Node, e: Entry, seqno: nat, p: Path)
    requires EntryOk(e, n.maxPaths) && p.hopcount >= 1 && (e.seqno == seqno ==> e.up)
    ensures var e' := Offered(n, e, seqno, p);
      && PathsAfter(n, e, seqno, p, e'.paths) && e'.seqno == Max(e.seqno, seqno) && e'.up == (e.up || seqno > e.seqno)
      && e'.adv == Untold(e, seqno) && e'.highest == e.highest && e'.expire == e.expire && SameSearch(e, e')
      && e'.error == e.error
      && (if seqno > e.seqno || |e'.paths| > |e.paths| then Longest(e'.paths, e'.lastHops) else e'.lastHops == e.lastHops)
  {
    hide MaxHopcount, MinHopcount, Find;
    var e' := Offered(n, e, seqno, p);
    FindIs(e.paths, p.nexthop, p.lasthop);
    if e.seqno < seqno {
      MaxIsLongest([p]);
    } else if Takes(e, seqno, p) {
      MinIsNear(e.paths, p.hopcount, n.lenDiff);
      MaxIsLongest(e.paths + [p]);
      var k := Find(e.paths, p.nexthop, p.lasthop);
      if k < |e.paths| { RefreshedTells(e, k, p); }
    }
  }

  /** A settled entry lets waiting packets leave over its first path, and its search is over. */
  lemma SettledTells(n: Node, e: Entry, d: Addr, seqno: nat, p: Path, env: Env, on: bool)
    requires EntryOk(e, n.maxPaths) && p.hopcount >= 1 && (e.seqno == seqno ==> e.up) && (on ==> Takes(e, seqno, p))
    ensures var e' := if on then Settled(Offered(n, e, seqno, p), d, env) else Offered(n, e, seqno, p);
      && TakenUp(n, e, d, seqno, p, env, on, e') && e'.adv == Untold(e, seqno) && e'.error == e.error
  {
    hide Offered, PathsAfter, Longest;
    OfferedTells(n, e, seqno, p);
    var f := Offered(n, e, seqno, p);
    assert PathsAfter(n, e, seqno, p, f.paths);
  }

  lemma OfferKeepsEnds(n: Node, e: Entry, d: Addr, seqno: nat, p: Path, env: Env, on: bool, e': Entry)
    requires EntryOk(e, n.maxPaths) && TakenUp(n, e, d, seqno, p, env, on, e') && Takes(e, seqno, p)
    ensures In(e'.paths, p.nexthop, p.lasthop) <==>
      || seqno > e.seqno || In(e.paths, p.nexthop, p.lasthop)
      || (NewDisjoint(e.paths, p.nexthop, p.lasthop) && Room(n, e, p.hopcount))
  {
    var ps: seq<Path> :| PathsAfter(n, e, seqno, p, ps)
      && if on && d in env.waiting then FirstTill(ps, env.now + ACTIVE_ROUTE_TIMEOUT, e'.paths) else e'.paths == ps;
    assert In(e'.paths, p.nexthop, p.lasthop) <==> In(ps, p.nexthop, p.lasthop) by {
      if In(ps, p.nexthop, p.lasthop) {
        var k :| 0 <= k < |ps| && ps[k].nexthop == p.nexthop && ps[k].lasthop == p.lasthop;
        assert e'.paths[k].nexthop == p.nexthop;
      }
    }
    if seqno > e.seqno {
      assert ps[0] == p;
    } else if In(e.paths, p.nexthop, p.lasthop) {
      var k :| 0 <= k < |e.paths| && e.paths[k].nexthop == p.nexthop && e.paths[k].lasthop == p.lasthop;
      assert ps[k].nexthop == p.nexthop;
    } else if |ps| > |e.paths| {
      assert ps[|e.paths|] == p;
    }
  }

  // ---------- requests ----------

  /** The path back over which a request came; who hears the source itself is its own first hop. */
  function PathBack(n: Node, m: Msg, env: Env): Path
    requires m.Rreq?
  {
    Path(m.sender, m.hopCount + 1, env.now + REV_ROUTE_LIFE, if m.hopCount == 0 then n.index else m.firstHop)
  }

  /** Whether a request is worth more than the path it came over: it is, unless what it offers is old, or the path is too
      much longer than those known, or shares an end with one of them and its destination, which this node is, knows no
      path with that last hop that is as long. */
  predicate GoesOn(n: Node, e: Entry, m: Msg, p: Path)
    requires m.Rreq?
  {
    && Takes(e, m.srcSeqno, p)
    && (|| m.srcSeqno > e.seqno || In(e.paths, p.nexthop, p.lasthop)
        || (if NewDisjoint(e.paths, p.nexthop, p.lasthop)
            then Near(e.paths, p.hopcount, n.lenDiff) && (n.lenDiff >= 0 || |e.paths| >= n.maxPaths)
            else m.dst == n.index ==>
                   exists k | 0 <= k < |e.paths| :: e.paths[k].lasthop == p.lasthop && p.hopcount <= e.paths[k].hopcount))
  }

  /** What goes out on a request that goes on, `n` being the node afterwards, `seen` whether it had heard the request
      before, `counted` whether it had let a reply of this discovery through, `kept` whether it keeps the path back. The
      destination answers every one of them. A node with a live route that is new enough answers once for each discovery,
      and only if it keeps the path back. Any other node passes on the first copy, unless its time to live is over. */
  predicate RequestForwarded(m: Msg, env: Env, seen: bool, counted: bool, kept: bool, n: Node, sent: seq<Msg>)
    requires m.Rreq? && m.src in n.table
  {
    if m.dst == n.index then
      sent == [Rrep(n.index, m.sender, m.src, NETWORK_DIAMETER, 0, m.sender, m.bcastId, n.index, n.seqno, MY_ROUTE_TIMEOUT)]
    else if Serves(n, m.dst, m.dstSeqno) then
      && |sent| == (if kept && !counted then 1 else 0)
      && (|sent| == 1 ==>
            var rt := n.table[m.dst];
            && rt.paths != [] && rt.adv.Fin? && sent[0].Rrep? && sent[0].dstSeqno >= m.dstSeqno
            && sent[0] == Rrep(n.index, m.sender, m.src, NETWORK_DIAMETER, rt.adv.n, rt.paths[0].lasthop, m.bcastId, m.dst,
                               rt.seqno, rt.paths[0].expire - env.now))
    else
      && |sent| == (if seen || m.ttl == 1 then 0 else 1)
      && (|sent| == 1 ==>
            var rt := n.table[m.src];
            && rt.paths != [] && rt.adv.Fin? && sent[0].Rreq?
            && sent[0] == Rreq(n.index, m.ttl - 1, rt.adv.n, rt.paths[0].lasthop, m.bcastId, m.dst, sent[0].dstSeqno, m.src,
                               m.srcSeqno)
            && sent[0].dstSeqno >= m.dstSeqno && sent[0].dstSeqno >= EntryOf(n, m.dst).seqno
            && (sent[0].dstSeqno == m.dstSeqno || sent[0].dstSeqno == EntryOf(n, m.dst).seqno))
  }

  /** A reply from the table goes out. */
  predicate FromTable(n: Node, m: Msg, sent: seq<Msg>)
    requires m.Rreq?
  {
    m.dst != n.index && sent != [] && sent[0].Rrep?
  }

  /** The route back is told to others: with the request passed on, or with the reply if the request asks for its source. */
  predicate TellsBack(m: Msg, seen: bool, n: Node, sent: seq<Msg>)
    requires m.Rreq?
  {
    m.dst != n.index && if Serves(n, m.dst, m.dstSeqno) then sent != [] && m.dst == m.src else !seen
  }

  /** What answering or passing on changes in the table: what is told is fixed, and a route that others were told of must
      be reported when it is lost. */
  ghost predicate OnlyTold(n: Node, m: Msg, seen: bool, n': Node, sent: seq<Msg>)
    requires m.Rreq? && m.src in n.table
  {
    && n'.table.Keys == n.table.Keys
    && (forall d | d in n.table ::
          && n'.table[d] == n.table[d].(adv := n'.table[d].adv, error := n'.table[d].error)
          && n'.table[d].error == (n.table[d].error || (d == m.dst && FromTable(n, m, sent)))
          && (if (d == m.src && TellsBack(m, seen, n', sent)) || (d == m.dst && FromTable(n, m, sent))
              then ToldAs(n.table[d].adv, n.table[d].paths, n'.table[d].adv) else n'.table[d].adv == n.table[d].adv))
  }

  /** The record of a discovery is marked, and nothing else changes. */
  predicate Marked(cache: seq<BcastId>, src: Addr, id: nat, cache': seq<BcastId>) {
    && |cache'| == |cache| && Counted(cache', src, id)
    && forall k | 0 <= k < |cache| ::
         && cache'[k] == cache[k].(count := cache'[k].count)
         && (cache[k].src != src || cache[k].id != id ==> cache'[k] == cache[k])
  }

  /** The records of discoveries: this one is among them, and marked once a reply from the table is sent. */
  predicate Recorded(n: Node, m: Msg, env: Env, mark: bool, cache: seq<BcastId>)
    requires m.Rreq?
  {
    var known := if Cached(n.bcache, m.src, m.bcastId) then n.bcache
                 else [BcastId(m.src, m.bcastId, env.now + BCAST_ID_SAVE, 0)] + n.bcache;
    if mark then Marked(known, m.src, m.bcastId, cache) else cache == known
  }

  /** The destination's own number: unchanged elsewhere, never below the one asked for, raised only if it was behind. */
  predicate OwnRaised(n: Node, m: Msg, on: bool, n': Node)
    requires m.Rreq?
  {
    if on && m.dst == n.index && n.seqno < m.dstSeqno then m.dstSeqno < n'.seqno <= m.dstSeqno + 2 else n'.seqno == n.seqno
  }

  ghost predicate RequestEffect(n: Node, m: Msg, env: Env, o: Out)
    requires m.Rreq?
  {
    if m.src == n.index then o == Out(n, [])
    else
      var n', e, p := o.node, EntryOf(n, m.src), PathBack(n, m, env);
      var on, seen, replied := GoesOn(n, e, m, p), Cached(n.bcache, m.src, m.bcastId), FromTable(n, m, o.sent);
      && Entered(n, n', m.src)
      && n' == n.(table := n'.table, dests := n'.dests, bcache := n'.bcache, seqno := n'.seqno)
      && TakenUp(n, e, m.src, m.srcSeqno, p, env, on, n'.table[m.src])
      && Advertising(e, m.srcSeqno, on && TellsBack(m, seen, n', o.sent), n'.table[m.src])
      && n'.table[m.src].error == (e.error || (replied && m.dst == m.src))
      && (forall d | d in n.table && d != m.src ::
            if d == m.dst && replied
            then && n'.table[d] == n.table[d].(adv := n'.table[d].adv, error := true)
                 && ToldAs(n.table[d].adv, n.table[d].paths, n'.table[d].adv)
            else n'.table[d] == n.table[d])
      && Recorded(n, m, env, replied, n'.bcache)
      && OwnRaised(n, m, on, n')
      && if on then RequestForwarded(m, env, seen, Counted(n.bcache, m.src, m.bcastId),
                                     In(n'.table[m.src].paths, p.nexthop, p.lasthop), n', o.sent)
         else o.sent == []
  }

  /** A path that shares no end is added if there is room. */
  lemma FreshOffer(n: Node, e: Entry, p: Path)
    requires p.hopcount >= 1 && Takes(e, e.seqno, p) && NewDisjoint(e.paths, p.nexthop, p.lasthop)
    requires !In(e.paths, p.nexthop, p.lasthop)
    ensures Offered(n, e, e.seqno, p).paths == if Fits(n, e, p.hopcount) then e.paths + [p] else e.paths
  {
    FindIs(e.paths, p.nexthop, p.lasthop);
  }

  /** The reverse entry the handler leaves, and whether it goes on. */
  lemma ReverseTells(n: Node, e: Entry, m: Msg, env: Env)
    requires m.Rreq? && EntryOk(e, n.maxPaths) && (e.seqno == m.srcSeqno ==> e.up)
    ensures var r, p := UpdateReverse(n, e, m, FirstHop(n, m), env), PathBack(n, m, env);
      && r.entry == Offered(n, e, m.srcSeqno, p) && (r.goOn <==> GoesOn(n, e, m, p))
      && (r.goOn ==> (r.inHand <==> || m.srcSeqno > e.seqno || In(e.paths, p.nexthop, p.lasthop)
                                    || (NewDisjoint(e.paths, p.nexthop, p.lasthop) && Room(n, e, p.hopcount))))
  {
    hide MinHopcount, Find, FindLast, Offered, Disjoint, NewDisjoint, In, Near;
    var p := PathBack(n, m, env);
    FindIs(e.paths, p.nexthop, p.lasthop);
    if m.srcSeqno == e.seqno && Takes(e, m.srcSeqno, p) {
      MinIsNear(e.paths, p.hopcount, n.lenDiff);
      if NewDisjoint(e.paths, p.nexthop, p.lasthop) && !In(e.paths, p.nexthop, p.lasthop) {
        FreshOffer(n, e, p);
        if Fits(n, e, p.hopcount) { NearAlso(e.paths, p, n.lenDiff); }
      } else {
        LastIs(e.paths, p);
      }
    }
  }

  lemma NearAlso(ps: seq<Path>, p: Path, lenDiff: int)
    requires Near(ps, p.hopcount, lenDiff)
    ensures p.hopcount - MinHopcount(ps + [p]).Num() <= lenDiff <==> lenDiff >= 0
  {
    var qs := ps + [p];
    MinIsNear(qs, p.hopcount, lenDiff);
    assert qs[|ps|] == p;
    if lenDiff >= 0 {
      assert forall k | 0 <= k < |qs| :: p.hopcount - qs[k].hopcount <= lenDiff;
    }
  }

  lemma LastIs(ps: seq<Path>, p: Path)
    requires Disjoint(ps)
    ensures var j := FindLast(ps, p.lasthop);
      (j < |ps| && p.hopcount <= ps[j].hopcount) <==>
        exists k | 0 <= k < |ps| :: ps[k].lasthop == p.lasthop && p.hopcount <= ps[k].hopcount
  {
    var j := FindLast(ps, p.lasthop);
    if k :| 0 <= k < |ps| && ps[k].lasthop == p.lasthop && p.hopcount <= ps[k].hopcount {
      assert j <= k;
      assert j == k;
    }
  }

  lemma AdvertisedTells(e: Entry, maxPaths: int)
    requires EntryOk(e, maxPaths) && e.up
    ensures var f := Advertised(e); f == e.(adv := f.adv) && ToldAs(e.adv, e.paths, f.adv) && f.adv.Fin? && e.paths != []
  {
    hide MaxHopcount;
    MaxIsLongest(e.paths);
  }

  ghost predicate AnswerOk(n: Node, m: Msg, seen: bool, kept: bool, env: Env, o: Out)
    requires m.Rreq? && m.src in n.table
  {
    && o.node == n.(table := o.node.table, bcache := o.node.bcache, seqno := o.node.seqno)
    && OnlyTold(n, m, seen, o.node, o.sent)
    && RequestForwarded(m, env, seen, Counted(n.bcache, m.src, m.bcastId), kept, o.node, o.sent)
    && OwnRaised(n, m, true, o.node)
    && Cached(n.bcache, m.src, m.bcastId)
    && o.node.bcache == (if FromTable(n, m, o.sent) then MarkCount(n.bcache, m.src, m.bcastId) else n.bcache)
  }

  lemma OwnTells(n: Node, m: Msg, seen: bool, kept: bool, env: Env)
    requires m.Rreq? && m.src in n.table && Cached(n.bcache, m.src, m.bcastId) && m.dst == n.index && n.seqno % 2 == 0
    ensures AnswerOk(n, m, seen, kept, env, AnswerAsDestination(n, m))
  {
    hide Counted, Cached, MarkCount, ToldAs;
  }

  lemma TableTells(n: Node, m: Msg, seen: bool, env: Env)
    requires m.Rreq? && m.src in n.table && Cached(n.bcache, m.src, m.bcastId) && m.dst != n.index
    requires Serves(n, m.dst, m.dstSeqno) && EntryOk(n.table[m.dst], n.maxPaths) && !Counted(n.bcache, m.src, m.bcastId)
    ensures AnswerOk(n, m, seen, true, env, AnswerFromTable(n, m, env))
  {
    hide Counted, Cached, MarkCount, ToldAs, Advertised, EntryOk;
    AdvertisedTells(n.table[m.dst], n.maxPaths);
  }

  lemma PassTells(n: Node, m: Msg, kept: bool, env: Env)
    requires m.Rreq? && m.src in n.table && Cached(n.bcache, m.src, m.bcastId) && m.dst != n.index
    requires n.table[m.src].up && EntryOk(n.table[m.src], n.maxPaths) && !Serves(n, m.dst, m.dstSeqno)
    ensures AnswerOk(n, m, false, kept, env, PassRequest(n, m))
  {
    hide Counted, Cached, MarkCount, ToldAs, Advertised, EntryOk;
    AdvertisedTells(n.table[m.src], n.maxPaths);
  }

  lemma AnswerTells(n: Node, m: Msg, seen: bool, kept: bool, env: Env)
    requires m.Rreq? && m.src in n.table && Cached(n.bcache, m.src, m.bcastId) && n.table[m.src].up
    requires forall d | d in n.table :: EntryOk(n.table[d], n.maxPaths)
    requires n.seqno % 2 == 0
    ensures AnswerOk(n, m, seen, kept, env, AnswerRequest(n, m, seen, kept, env))
  {
    hide EntryOk, Counted, Cached, MarkCount, ToldAs, AnswerFromTable, PassRequest, AnswerAsDestination;
    if m.dst == n.index {
      OwnTells(n, m, seen, kept, env);
    } else if Serves(n, m.dst, m.dstSeqno) {
      if kept && !Counted(n.bcache, m.src, m.bcastId) { TableTells(n, m, seen, env); }
    } else if !seen {
      PassTells(n, m, kept, env);
    }
  }

  /** What the handler has noted before it looks at the path. */
  lemma NotedTells(n: Node, m: Msg, env: Env)
    requires m.Rreq?
    ensures var n1 := Noted(n, m, env);
      && Entered(n, n1, m.src) && n1 == n.(table := n1.table, dests := n1.dests, bcache := n1.bcache)
      && n1.table[m.src] == EntryOf(n, m.src) && (forall d | d in n.table :: n1.table[d] == n.table[d])
      && Recorded(n, m, env, false, n1.bcache) && Cached(n1.bcache, m.src, m.bcastId)
      && (Counted(n1.bcache, m.src, m.bcastId) <==> Counted(n.bcache, m.src, m.bcastId))
  {
    if !Cached(n.bcache, m.src, m.bcastId) {
      var c := Noted(n, m, env).bcache;
      assert c[1..] == n.bcache;
    }
  }

  lemma MarkTells(cache: seq<BcastId>, src: Addr, id: nat)
    requires Cached(cache, src, id)
    ensures Marked(cache, src, id, MarkCount(cache, src, id))
  {
    var k, c := IdGet(cache, src, id), MarkCount(cache, src, id);
    assert forall j | 0 <= j < |c| :: c[j].src == cache[j].src && c[j].id == cache[j].id;
    assert IdGet(c, src, id) == k;
  }

  /** Nothing but what is advertised and the report mark changes between the two halves of the handler. */
  lemma TakenUpTold(n: Node, e: Entry, d: Addr, seqno: nat, p: Path, env: Env, on: bool, f: Entry, g: Entry)
    requires TakenUp(n, e, d, seqno, p, env, on, f) && g == f.(adv := g.adv, error := g.error)
    ensures TakenUp(n, e, d, seqno, p, env, on, g)
  {
  }

  lemma SameTuning(n: Node, n1: Node, e: Entry, m: Msg, p: Path, env: Env, e': Entry, on: bool)
    requires m.Rreq? && n1.maxPaths == n.maxPaths && n1.lenDiff == n.lenDiff && n1.index == n.index
    ensures GoesOn(n1, e, m, p) <==> GoesOn(n, e, m, p)
    ensures PathBack(n1, m, env) == PathBack(n, m, env)
    ensures TakenUp(n1, e, m.src, m.srcSeqno, p, env, on, e') ==> TakenUp(n, e, m.src, m.srcSeqno, p, env, on, e')
  {
    hide Longest, FirstTill, Near;
    if TakenUp(n1, e, m.src, m.srcSeqno, p, env, on, e') {
      var ps: seq<Path> :| PathsAfter(n1, e, m.srcSeqno, p, ps)
        && (if on && m.src in env.waiting then FirstTill(ps, env.now + ACTIVE_ROUTE_TIMEOUT, e'.paths) else e'.paths == ps)
        && (if m.srcSeqno > e.seqno || |ps| > |e.paths| then Longest(ps, e'.lastHops) else e'.lastHops == e.lastHops);
      assert PathsAfter(n, e, m.srcSeqno, p, ps);
    }
  }

  lemma EntryFits(n: Node, d: Addr)
    requires NodeOk(n)
    ensures EntryOk(EntryOf(n, d), n.maxPaths) && n.seqno % 2 == 0
  {
    assert d !in n.table ==> EntryOf(n, d) == FRESH_ENTRY;
  }

  /** An entry under a live number is live. */
  lemma LiveNumber(n: Node, d: Addr, seqno: nat)
    requires NodeOk(n) && seqno % 2 == 0 && seqno >= 2
    ensures EntryOf(n, d).seqno == seqno ==> EntryOf(n, d).up
  {
    EntryFits(n, d);
  }

  /** What the first half of the handler leaves, taken by itself. */
  lemma HalfTells(n: Node, m: Msg, env: Env)
    requires NodeOk(n) && m.Rreq? && MsgOk(m)
    ensures var n1 := Noted(n, m, env);
      var r, e, p := UpdateReverse(n1, n1.table[m.src], m, FirstHop(n1, m), env), EntryOf(n, m.src), PathBack(n, m, env);
      var f := if r.goOn then Settled(r.entry, m.src, env) else r.entry;
      && (r.goOn <==> GoesOn(n, e, m, p)) && TakenUp(n, e, m.src, m.srcSeqno, p, env, r.goOn, f)
      && f.adv == Untold(e, m.srcSeqno) && f.error == e.error
      && (r.goOn ==> (r.inHand <==> In(f.paths, p.nexthop, p.lasthop)) && f.up)
  {
    hide Noted, UpdateReverse, Settled, Offered, NodeOk, EntryOk, TakenUp, GoesOn;
    var n1, e, p := Noted(n, m, env), EntryOf(n, m.src), PathBack(n, m, env);
    NotedTells(n, m, env);
    EntryFits(n, m.src);
    LiveNumber(n, m.src, m.srcSeqno);
    ReverseTells(n1, e, m, env);
    var r := UpdateReverse(n1, e, m, FirstHop(n1, m), env);
    var f := if r.goOn then Settled(r.entry, m.src, env) else r.entry;
    OffersTaken(n1, e, m, p, r.goOn);
    SettledTells(n1, e, m.src, m.srcSeqno, p, env, r.goOn);
    if r.goOn {
      OfferKeepsEnds(n1, e, m.src, m.srcSeqno, p, env, true, f);
      TakenUpLives(n1, e, m.src, m.srcSeqno, p, env, true, f);
    }
    SameTuning(n, n1, e, m, p, env, f, r.goOn);
  }

  lemma OffersTaken(n: Node, e: Entry, m: Msg, p: Path, on: bool)
    requires m.Rreq? && (on ==> GoesOn(n, e, m, p))
    ensures on ==> Takes(e, m.srcSeqno, p)
  {
  }

  lemma TakenUpLives(n: Node, e: Entry, d: Addr, seqno: nat, p: Path, env: Env, on: bool, f: Entry)
    requires TakenUp(n, e, d, seqno, p, env, on, f) && Takes(e, seqno, p) && (e.seqno == seqno ==> e.up)
    ensures f.up && f.seqno == seqno
  {
  }

  /** The node between the two halves of the handler, when it goes on. */
  ghost predicate Halfway(n: Node, m: Msg, env: Env, n2: Node, kept: bool)
    requires m.Rreq? && m.src in n2.table
  {
    var e, p, f := EntryOf(n, m.src), PathBack(n, m, env), n2.table[m.src];
    && Entered(n, n2, m.src) && n2 == n.(table := n2.table, dests := n2.dests, bcache := n2.bcache)
    && (forall d | d in n.table && d != m.src :: n2.table[d] == n.table[d])
    && GoesOn(n, e, m, p) && TakenUp(n, e, m.src, m.srcSeqno, p, env, true, f)
    && f.adv == Untold(e, m.srcSeqno) && f.error == e.error && f.up
    && Recorded(n, m, env, false, n2.bcache) && Cached(n2.bcache, m.src, m.bcastId)
    && (Counted(n2.bcache, m.src, m.bcastId) <==> Counted(n.bcache, m.src, m.bcastId))
    && (kept <==> In(f.paths, p.nexthop, p.lasthop))
  }

  /** The two halves of the handler together. */
  lemma Composed(n: Node, m: Msg, env: Env, n2: Node, kept: bool, o: Out)
    requires m.Rreq? && m.src != n.index && m.src in n2.table && Halfway(n, m, env, n2, kept)
    requires AnswerOk(n2, m, Cached(n.bcache, m.src, m.bcastId), kept, env, o)
    ensures RequestEffect(n, m, env, o)
  {
    hide TakenUp, GoesOn, Counted, Cached, MarkCount, Marked, In, ToldAs, EntryOf;
    var e, p := EntryOf(n, m.src), PathBack(n, m, env);
    var f, g := n2.table[m.src], o.node.table[m.src];
    TakenUpTold(n, e, m.src, m.srcSeqno, p, env, true, f, g);
    if FromTable(n2, m, o.sent) { MarkTells(n2.bcache, m.src, m.bcastId); }
  }

  lemma Settling(n: Node, m: Msg, env: Env)
    requires NodeOk(n) && m.Rreq? && MsgOk(m)
    ensures var n1 := Noted(n, m, env); m.src in n1.table
    ensures var n1 := Noted(n, m, env);
      var r := UpdateReverse(n1, n1.table[m.src], m, FirstHop(n1, m), env);
      NodeOk(With(n1, m.src, Settled(r.entry, m.src, env)))
  {
    hide StepOk, AomdvProps.Learned, UpdateReverse, EntryOf, Noted;
    var n1 := Noted(n, m, env);
    NotedStep(n, m, env);
    NotedTable(n, m, env);
    hide NodeOk;
    var r := UpdateReverse(n1, n1.table[m.src], m, FirstHop(n1, m), env);
    UpdateReverseOk(n1, m, FirstHop(n1, m), env);
    LearnSettled(n, m, n1, m.src, r.entry, env);
  }

  lemma Entries(n: Node)
    requires NodeOk(n)
    ensures n.seqno % 2 == 0 && forall d | d in n.table :: EntryOk(n.table[d], n.maxPaths)
  {
  }

  /** Which paths are taken up, who is answered and who is passed on when a request comes in. */
  lemma RequestTells(n: Node, m: Msg, env: Env)
    requires NodeOk(n) && m.Rreq? && MsgOk(m)
    ensures RequestEffect(n, m, env, RecvRequest(n, m, env))
  {
    hide Noted, UpdateReverse, Settled, NodeOk, EntryOk, TakenUp, GoesOn, AnswerRequest, AnswerOk, Counted, Cached, MarkCount,
      Recorded, RequestForwarded, In, ToldAs, EntryOf;
    if m.src != n.index {
      var n1, e, p := Noted(n, m, env), EntryOf(n, m.src), PathBack(n, m, env);
      NotedTells(n, m, env);
      HalfTells(n, m, env);
      var r := UpdateReverse(n1, n1.table[m.src], m, FirstHop(n1, m), env);
      if r.goOn {
        var n2 := With(n1, m.src, Settled(r.entry, m.src, env));
        Settling(n, m, env);
        Entries(n2);
        AnswerTells(n2, m, Cached(n.bcache, m.src, m.bcastId), r.inHand, env);
        Composed(n, m, env, n2, r.inHand, RecvRequest(n, m, env));
      }
    }
  }

  /** The first copy of a request that this node cannot answer is passed on, once: one hop further, one hop of its time to
      live spent, asking for no less than it did and than this node knows of. Later copies are not. */
  lemma FirstCopyOn(n: Node, m: Msg, env: Env)
    requires NodeOk(n) && m.Rreq? && MsgOk(m) && m.src != n.index && m.dst != n.index && m.dst != m.src
    requires !Serves(n, m.dst, m.dstSeqno)
    ensures var o, on := RecvRequest(n, m, env), GoesOn(n, EntryOf(n, m.src), m, PathBack(n, m, env));
      && |o.sent| == (if on && !Cached(n.bcache, m.src, m.bcastId) && m.ttl != 1 then 1 else 0)
      && (o.sent != [] ==>
            var r := o.sent[0];
            && r.Rreq? && r.sender == n.index && r.src == m.src && r.srcSeqno == m.srcSeqno && r.bcastId == m.bcastId
            && r.dst == m.dst && r.ttl == m.ttl - 1
            && r.dstSeqno >= m.dstSeqno && r.dstSeqno >= EntryOf(n, m.dst).seqno)
  {
    hide RecvRequest, GoesOn, TakenUp, Advertising, Recorded, OwnRaised, Counted, Cached, In, NodeOk;
    RequestTells(n, m, env);
    var n' := RecvRequest(n, m, env).node;
    assert EntryOf(n', m.dst).seqno == EntryOf(n, m.dst).seqno;
    assert Serves(n', m.dst, m.dstSeqno) <==> Serves(n, m.dst, m.dstSeqno);
  }

  /** The destination answers every copy that goes on, and nothing else. */
  lemma DestinationAnswers(n: Node, m: Msg, env: Env)
    requires NodeOk(n) && m.Rreq? && MsgOk(m) && m.src != n.index && m.dst == n.index
    ensures var o := RecvRequest(n, m, env);
      && |o.sent| == (if GoesOn(n, EntryOf(n, m.src), m, PathBack(n, m, env)) then 1 else 0)
      && (o.sent != [] ==> o.sent[0].Rrep? && o.sent[0].dst == n.index && o.sent[0].ipDst == m.src
                           && o.sent[0].dstSeqno >= m.dstSeqno && o.sent[0].dstSeqno >= n.seqno)
  {
    hide RecvRequest, GoesOn, TakenUp, Advertising, Recorded, Counted, Cached, In, NodeOk;
    RequestTells(n, m, env);
  }

  // ---------- replies ----------

  function PathOn(m: Msg, env: Env): Path
    requires m.Rrep?
  {
    Path(m.sender, m.hopCount + 1, env.now + m.lifetime, m.firstHop)
  }

  /** The path a reply came over is kept: it is new, or known, or there is room for it. */
  predicate Keeps(n: Node, e: Entry, seqno: nat, p: Path) {
    && Takes(e, seqno, p)
    && (|| seqno > e.seqno || In(e.paths, p.nexthop, p.lasthop)
        || (NewDisjoint(e.paths, p.nexthop, p.lasthop) && Room(n, e, p.hopcount)))
  }

  /** The reply goes on to who asked: its path is kept, there is a live route back, and it is the first of its discovery. */
  predicate GoesBack(n: Node, m: Msg, env: Env, n': Node)
    requires m.Rrep?
  {
    && Keeps(n, EntryOf(n, m.dst), m.dstSeqno, PathOn(m, env))
    && m.ipDst != n.index && Serves(n', m.ipDst, 0)
    && Cached(n.bcache, m.ipDst, m.bcastId) && !Counted(n.bcache, m.ipDst, m.bcastId)
  }

  /** When the reply goes back over the very route it tells of, that route's first path is used. */
  function Using(m: Msg, env: Env, back: bool): Env
    requires m.Rrep?
  {
    if back && m.ipDst == m.dst then env.(waiting := env.waiting + {m.dst}) else env
  }

  ghost predicate ReplyEffect(n: Node, m: Msg, env: Env, o: Out)
    requires m.Rrep?
  {
    if m.dst == n.index then o == Out(n, [])
    else
      var n', e, p := o.node, EntryOf(n, m.dst), PathOn(m, env);
      var on, back := Keeps(n, e, m.dstSeqno, p), GoesBack(n, m, env, n');
      && Entered(n, n', m.dst) && n' == n.(table := n'.table, dests := n'.dests, bcache := n'.bcache)
      && TakenUp(n, e, m.dst, m.dstSeqno, p, Using(m, env, back), on, n'.table[m.dst])
      && Advertising(e, m.dstSeqno, back, n'.table[m.dst]) && n'.table[m.dst].error == (e.error || back)
      && (forall d | d in n.table && d != m.dst ::
            if d == m.ipDst && back
            then && n'.table[d] == n.table[d].(paths := n'.table[d].paths)
                 && FirstTill(n.table[d].paths, env.now + ACTIVE_ROUTE_TIMEOUT, n'.table[d].paths)
            else n'.table[d] == n.table[d])
      && (if back then Marked(n.bcache, m.ipDst, m.bcastId, n'.bcache) else n'.bcache == n.bcache)
      && (back ==> n'.table[m.dst].adv.Fin? && n'.table[m.dst].paths != [] && n'.table[m.ipDst].paths != [])
      && o.sent == if back && m.ttl != 1
           then [Rrep(n.index, n'.table[m.ipDst].paths[0].nexthop, m.ipDst, m.ttl - 1, n'.table[m.dst].adv.n,
                      n'.table[m.dst].paths[0].lasthop, m.bcastId, m.dst, m.dstSeqno, m.lifetime)]
           else []
  }

  lemma KeepsIs(n: Node, e: Entry, m: Msg, env: Env)
    requires m.Rrep? && EntryOk(e, n.maxPaths) && (e.seqno == m.dstSeqno ==> e.up)
    ensures UpdateForward(n, e, m, env).goOn <==> Keeps(n, e, m.dstSeqno, PathOn(m, env))
    ensures UpdateForward(n, e, m, env).entry == Offered(n, e, m.dstSeqno, PathOn(m, env))
  {
    hide MinHopcount, Find, Offered, NewDisjoint;
    FindIs(e.paths, m.sender, m.firstHop);
    if e.up { MinIsNear(e.paths, m.hopCount + 1, n.lenDiff); }
  }

  /** What the second half of the handler adds to what the first left in `n`. */
  ghost predicate RelayOk(n: Node, m: Msg, env: Env, o: Out)
    requires m.Rrep? && m.dst in n.table
  {
    var n', f := o.node, n.table[m.dst];
    var back := && m.ipDst != n.index && Serves(n', m.ipDst, 0)
                && Cached(n.bcache, m.ipDst, m.bcastId) && !Counted(n.bcache, m.ipDst, m.bcastId);
    && n' == n.(table := n'.table, bcache := n'.bcache) && n'.table.Keys == n.table.Keys
    && (forall d | d in n.table && d != m.dst && (d != m.ipDst || !back) :: n'.table[d] == n.table[d])
    && (if !back then n'.table[m.dst] == f && n'.bcache == n.bcache && o.sent == []
        else
          && n'.table[m.dst] == f.(adv := n'.table[m.dst].adv, error := true, paths := n'.table[m.dst].paths)
          && ToldAs(f.adv, f.paths, n'.table[m.dst].adv) && n'.table[m.dst].adv.Fin?
          && n'.table[m.ipDst].paths != [] && n'.table[m.dst].paths != []
          && (m.ipDst != m.dst ==>
                && n'.table[m.dst].paths == f.paths
                && n'.table[m.ipDst] == n.table[m.ipDst].(paths := n'.table[m.ipDst].paths))
          && FirstTill(n.table[m.ipDst].paths, env.now + ACTIVE_ROUTE_TIMEOUT, n'.table[m.ipDst].paths)
          && Marked(n.bcache, m.ipDst, m.bcastId, n'.bcache)
          && o.sent == if m.ttl == 1 then []
               else [Rrep(n.index, n'.table[m.ipDst].paths[0].nexthop, m.ipDst, m.ttl - 1, n'.table[m.dst].adv.n,
                          n'.table[m.dst].paths[0].lasthop, m.bcastId, m.dst, m.dstSeqno, m.lifetime)])
  }

  lemma RelayTells(n: Node, m: Msg, env: Env)
    requires m.Rrep? && m.dst in n.table && n.table[m.dst].up
    requires forall d | d in n.table :: EntryOk(n.table[d], n.maxPaths)
    ensures RelayOk(n, m, env, RelayReply(n, m, env))
  {
    hide EntryOk, Advertised, Counted, Cached, MarkCount, ToldAs, Marked;
    AdvertisedTells(n.table[m.dst], n.maxPaths);
    if m.ipDst in n.table && n.table[m.ipDst].up { AdvertisedTells(n.table[m.ipDst], n.maxPaths); }
    if Cached(n.bcache, m.ipDst, m.bcastId) { MarkTells(n.bcache, m.ipDst, m.bcastId); }
  }

  /** A path whose first is used twice, by waiting packets and by the reply. */
  lemma UsedAgain(n: Node, e: Entry, m: Msg, p: Path, env: Env, f: Entry, g: Entry)
    requires m.Rrep? && TakenUp(n, e, m.dst, m.dstSeqno, p, env, true, f)
    requires g == f.(adv := g.adv, error := g.error, paths := g.paths)
    requires FirstTill(f.paths, env.now + ACTIVE_ROUTE_TIMEOUT, g.paths)
    ensures TakenUp(n, e, m.dst, m.dstSeqno, p, env.(waiting := env.waiting + {m.dst}), true, g)
  {
    hide Longest, PathsAfter;
    var ps: seq<Path> :| PathsAfter(n, e, m.dstSeqno, p, ps)
      && (if m.dst in env.waiting then FirstTill(ps, env.now + ACTIVE_ROUTE_TIMEOUT, f.paths) else f.paths == ps)
      && (if m.dstSeqno > e.seqno || |ps| > |e.paths| then Longest(ps, f.lastHops) else f.lastHops == e.lastHops);
    assert FirstTill(ps, env.now + ACTIVE_ROUTE_TIMEOUT, g.paths);
  }

  lemma SameTuningOn(n: Node, n1: Node, e: Entry, m: Msg, p: Path, env: Env, e': Entry, on: bool)
    requires m.Rrep? && n1.maxPaths == n.maxPaths && n1.lenDiff == n.lenDiff
    ensures Keeps(n1, e, m.dstSeqno, p) <==> Keeps(n, e, m.dstSeqno, p)
    ensures TakenUp(n1, e, m.dst, m.dstSeqno, p, env, on, e') ==> TakenUp(n, e, m.dst, m.dstSeqno, p, env, on, e')
  {
    hide Longest, FirstTill, Near;
    if TakenUp(n1, e, m.dst, m.dstSeqno, p, env, on, e') {
      var ps: seq<Path> :| PathsAfter(n1, e, m.dstSeqno, p, ps)
        && (if on && m.dst in env.waiting then FirstTill(ps, env.now + ACTIVE_ROUTE_TIMEOUT, e'.paths) else e'.paths == ps)
        && (if m.dstSeqno > e.seqno || |ps| > |e.paths| then Longest(ps, e'.lastHops) else e'.lastHops == e.lastHops);
      assert PathsAfter(n, e, m.dstSeqno, p, ps);
    }
  }

  /** The first half: the path is taken up or not. */
  lemma ForwardTells(n: Node, m: Msg, env: Env)
    requires NodeOk(n) && m.Rrep? && MsgOk(m) && m.dst != n.index
    ensures var n1 := RtAdd(n, m.dst);
      var r, e, p := UpdateForward(n1, n1.table[m.dst], m, env), EntryOf(n, m.dst), PathOn(m, env);
      var f := if r.goOn then Settled(r.entry, m.dst, env) else r.entry;
      && (r.goOn <==> Keeps(n, e, m.dstSeqno, p)) && TakenUp(n, e, m.dst, m.dstSeqno, p, env, r.goOn, f)
      && f.adv == Untold(e, m.dstSeqno) && f.error == e.error && (r.goOn ==> f.up)
      && NodeOk(With(n1, m.dst, Settled(r.entry, m.dst, env)))
  {
    hide UpdateForward, Settled, Offered, EntryOk, TakenUp, Keeps, AomdvProps.Learned, StepOk;
    var n1, e, p := RtAdd(n, m.dst), EntryOf(n, m.dst), PathOn(m, env);
    AddEntry(n, m.dst);
    EntryFits(n, m.dst);
    LiveNumber(n, m.dst, m.dstSeqno);
    hide NodeOk;
    var r := UpdateForward(n1, n1.table[m.dst], m, env);
    UpdateForwardOk(n1, m, env);
    LearnSettled(n, m, n1, m.dst, r.entry, env);
    KeepsIs(n1, e, m, env);
    var f := if r.goOn then Settled(r.entry, m.dst, env) else r.entry;
    KeptTakes(n1, e, m.dstSeqno, p);
    SettledTells(n1, e, m.dst, m.dstSeqno, p, env, r.goOn);
    SameTuningOn(n, n1, e, m, p, env, f, r.goOn);
    if r.goOn { TakenUpLives(n, e, m.dst, m.dstSeqno, p, env, true, f); }
  }

  lemma KeptTakes(n: Node, e: Entry, seqno: nat, p: Path)
    ensures Keeps(n, e, seqno, p) ==> Takes(e, seqno, p)
  {
  }

  lemma StillTold(was: Hops, ps: seq<Path>, until: real, ps': seq<Path>, now: Hops)
    requires ToldAs(was, ps, now) && FirstTill(ps, until, ps')
    ensures ToldAs(was, ps', now)
  {
    if was.Inf? {
      var k :| 0 <= k < |ps| && ps[k].hopcount == now.n;
      assert ps'[k].hopcount == now.n;
    }
  }

  lemma Relayed(n: Node, m: Msg, env: Env, n2: Node, o: Out)
    requires m.Rrep? && m.dst != n.index && m.dst in n2.table && RelayOk(n2, m, env, o)
    requires Entered(n, n2, m.dst) && n2 == n.(table := n2.table, dests := n2.dests)
    requires forall d | d in n.table && d != m.dst :: n2.table[d] == n.table[d]
    requires var e, f := EntryOf(n, m.dst), n2.table[m.dst];
      && Keeps(n, e, m.dstSeqno, PathOn(m, env)) && TakenUp(n, e, m.dst, m.dstSeqno, PathOn(m, env), env, true, f)
      && f.adv == Untold(e, m.dstSeqno) && f.error == e.error
    ensures ReplyEffect(n, m, env, o)
  {
    hide TakenUp, Keeps, Counted, Cached, Marked, ToldAs, EntryOf, PathOn;
    var e, p, f, g := EntryOf(n, m.dst), PathOn(m, env), n2.table[m.dst], o.node.table[m.dst];
    if GoesBack(n, m, env, o.node) && m.ipDst == m.dst {
      UsedAgain(n, e, m, p, env, f, g);
      StillTold(f.adv, f.paths, env.now + ACTIVE_ROUTE_TIMEOUT, g.paths, g.adv);
    } else {
      TakenUpTold(n, e, m.dst, m.dstSeqno, p, env, true, f, g);
    }
  }

  /** Which replies are taken up and which go on. */
  lemma ReplyTells(n: Node, m: Msg, env: Env)
    requires NodeOk(n) && m.Rrep? && MsgOk(m)
    ensures ReplyEffect(n, m, env, RecvReply(n, m, env))
  {
    hide UpdateForward, Settled, RelayReply, RelayOk, NodeOk, EntryOk, TakenUp, Keeps, Counted, Cached, Marked, ToldAs, EntryOf;
    if m.dst != n.index {
      ForwardTells(n, m, env);
      var n1 := RtAdd(n, m.dst);
      var r := UpdateForward(n1, n1.table[m.dst], m, env);
      if r.goOn {
        var n2 := With(n1, m.dst, Settled(r.entry, m.dst, env));
        Entries(n2);
        RelayTells(n2, m, env);
        Relayed(n, m, env, n2, RelayReply(n2, m, env));
      }
    }
  }

  // ---------- lost paths ----------

  /** The first path over this next hop is gone. */
  ghost predicate PathLost(ps: seq<Path>, id: Addr, ps': seq<Path>) {
    exists k | 0 <= k < |ps| :: ps[k].nexthop == id && ps' == ps[..k] + ps[k + 1..]
  }

  /** A route without any path left, under a number. */
  predicate Down(e: Entry, seqno: nat, e': Entry) {
    e' == e.(seqno := seqno, up := false, adv := Inf, paths := [], numPaths := 0, expire := 0.0,
             highest := e'.highest, error := e'.error)
  }

  /** One path less. */
  ghost predicate Thinned(e: Entry, id: Addr, e': Entry) {
    PathLost(e.paths, id, e'.paths) && e' == e.(paths := e'.paths, numPaths := e.numPaths - 1, highest := e'.highest)
  }

  predicate Over(e: Entry, id: Addr) {
    e.up && HasNext(e.paths, id)
  }

  /** The last path of a route is lost with this next hop. */
  predicate Emptied(e: Entry, id: Addr) {
    Over(e, id) && |e.paths| == 1
  }

  lemma WithoutLoses(ps: seq<Path>, id: Addr)
    requires HasNext(ps, id)
    ensures PathLost(ps, id, Without(ps, id)) && |Without(ps, id)| == |ps| - 1
  {
    var k := FirstNext(ps, id);
    WithoutCuts(ps, k, id);
  }

  function FirstNext(ps: seq<Path>, id: Addr): (k: nat)
    requires HasNext(ps, id)
    ensures k < |ps| && ps[k].nexthop == id && forall j | 0 <= j < k :: ps[j].nexthop != id
  {
    if ps[0].nexthop == id then 0
    else
      assert forall j | 1 <= j < |ps| :: ps[1..][j - 1] == ps[j];
      1 + FirstNext(ps[1..], id)
  }

  /** What every entry keeps, whatever numbers it is under. */
  predicate Sound(e: Entry) {
    Disjoint(e.paths) && e.numPaths == |e.paths| && (e.up <==> e.paths != [])
  }

  predicate AllCounted(n: Node) {
    forall d | d in n.table :: Sound(n.table[d])
  }

  /** The destinations an error packet tells of. */
  function Reported(sent: seq<Msg>): seq<Unreachable> {
    if |sent| == 1 && sent[0].Rerr? then sent[0].unreachable else []
  }

  /** One error packet, or none if there is nothing to tell. */
  predicate OneError(n: Node, sent: seq<Msg>) {
    var us := Reported(sent);
    Once(us) && sent == if us == [] then [] else [Rerr(n.index, us)]
  }

  // ---------- link failures ----------

  /** The number a route gets when its last path fails. */
  function FailedNumber(e: Entry): nat {
    if e.seqno + 1 < e.highest then e.highest else e.seqno + 1
  }

  ghost predicate Failed(e: Entry, id: Addr, e': Entry) {
    if !Over(e, id) then e' == e
    else if |e.paths| > 1 then Thinned(e, id, e') && e'.highest == e.highest
    else Down(e, FailedNumber(e), e') && e'.highest == e.highest && !e'.error
  }

  predicate FailureTold(n: Node, id: Addr, u: Unreachable) {
    u.dst in n.table && Emptied(n.table[u.dst], id) && n.table[u.dst].error && u.seqno == FailedNumber(n.table[u.dst])
  }

  /** After a link failure every path over the lost neighbour is gone and no other; a route that has none left is down under
      a higher number, and one error tells those that others rely on. */
  ghost predicate FailureEffect(n: Node, id: Addr, o: Out) {
    && OnlyTable(n, o.node)
    && (forall d | d in n.table :: Failed(n.table[d], id, o.node.table[d]))
    && OneError(n, o.sent)
    && forall u: Unreachable :: u in Reported(o.sent) <==> FailureTold(n, id, u)
  }

  ghost predicate FailsOf(n: Node, id: Addr, ds: seq<Addr>, l: Losses) {
    && OnlyTable(n, l.node) && Once(l.lost)
    && (forall d | d in n.table :: if d in ds then Failed(n.table[d], id, l.node.table[d]) else l.node.table[d] == n.table[d])
    && forall u: Unreachable :: u in l.lost <==> u.dst in ds && FailureTold(n, id, u)
  }

  lemma FailOneTells(n: Node, id: Addr, d: Addr)
    requires d in n.table && Sound(n.table[d])
    ensures FailsOf(n, id, [d], FailOne(n, id, d))
  {
    hide Without, Disjoint;
    if Over(n.table[d], id) { WithoutLoses(n.table[d].paths, id); }
  }

  /** Two walks over different destinations, one after the other. */
  lemma FailsJoin(n: Node, id: Addr, d: Addr, ds: seq<Addr>, l: Losses, r: Losses)
    requires d !in ds && FailsOf(n, id, [d], l) && FailsOf(l.node, id, ds, r)
    ensures FailsOf(n, id, [d] + ds, Losses(r.node, l.lost + r.lost))
  {
    hide Failed, Emptied, FailedNumber;
    var us := l.lost + r.lost;
    forall j, k | 0 <= j < k < |us| ensures us[j].dst != us[k].dst {
      if j < |l.lost| {
        assert l.lost[j] in l.lost;
        if k >= |l.lost| { assert r.lost[k - |l.lost|] in r.lost; }
      }
    }
  }

  lemma {:induction false} FailAllTells(n: Node, id: Addr, ds: seq<Addr>)
    requires Distinct(ds) && forall d | d in ds :: d in n.table && Sound(n.table[d])
    ensures FailsOf(n, id, ds, FailAll(n, id, ds))
    decreases |ds|
  {
    hide Sound, Failed, FailOne;
    if ds != [] {
      var l := FailOne(n, id, ds[0]);
      FailOneTells(n, id, ds[0]);
      forall d | d in ds[1..] ensures d != ds[0] && d in l.node.table && Sound(l.node.table[d]) {
        var k :| 1 <= k < |ds| && ds[k] == d;
      }
      FailAllTells(l.node, id, ds[1..]);
      FailsJoin(n, id, ds[0], ds[1..], l, FailAll(l.node, id, ds[1..]));
      assert ds == [ds[0]] + ds[1..];
    }
  }

  lemma EntriesCounted(n: Node)
    requires NodeOk(n)
    ensures AllCounted(n) && AomdvNode.Listed(n, n.dests) && Distinct(n.dests)
    ensures forall d :: d in n.dests <==> d in n.table
  {
  }

  lemma FailureTells(n: Node, id: Addr)
    requires NodeOk(n)
    ensures FailureEffect(n, id, HandleLinkFailure(n, id))
  {
    hide Failed, FailAll, NodeOk, Sound, Emptied;
    EntriesCounted(n);
    FailAllTells(n, id, n.dests);
  }

  // ---------- route errors ----------

  /** The error concerns a path of the route: it leads over the sender, and the route is no newer than what is reported. */
  predicate Hit(e: Entry, d: Addr, sender: Addr, us: seq<Unreachable>) {
    Over(e, sender) && Naming(us, d, e.seqno) < |us|
  }

  /** The number the error names the route under. */
  function Named(e: Entry, d: Addr, us: seq<Unreachable>): nat
    requires Naming(us, d, e.seqno) < |us|
  {
    us[Naming(us, d, e.seqno)].seqno
  }

  ghost predicate Withdrawn(e: Entry, d: Addr, sender: Addr, us: seq<Unreachable>, e': Entry) {
    if !Hit(e, d, sender, us) then e' == e
    else
      && e'.highest == Max(e.highest, Named(e, d, us))
      && if |e.paths| > 1 then Thinned(e, sender, e') else Down(e, e'.highest, e') && !e'.error
  }

  ghost predicate Passed(n: Node, sender: Addr, us: seq<Unreachable>, u: Unreachable) {
    && u.dst in n.table && Hit(n.table[u.dst], u.dst, sender, us) && |n.table[u.dst].paths| == 1 && n.table[u.dst].error
    && u.seqno == Max(n.table[u.dst].highest, Named(n.table[u.dst], u.dst, us))
  }

  /** After an error from `sender` the paths over it of the routes named under their number or a later one are gone and no
      other; a route that has none left is down under the highest number reported, and one error tells those that others
      rely on. */
  ghost predicate ErrorEffect(n: Node, sender: Addr, us: seq<Unreachable>, o: Out) {
    && OnlyTable(n, o.node)
    && (forall d | d in n.table :: Withdrawn(n.table[d], d, sender, us, o.node.table[d]))
    && OneError(n, o.sent)
    && forall u: Unreachable :: u in Reported(o.sent) <==> Passed(n, sender, us, u)
  }

  ghost predicate LossesOf(n: Node, sender: Addr, us: seq<Unreachable>, l: Losses) {
    && OnlyTable(n, l.node) && Once(l.lost)
    && (forall d | d in n.table :: Withdrawn(n.table[d], d, sender, us, l.node.table[d]))
    && forall u: Unreachable :: u in l.lost <==> Passed(n, sender, us, u)
  }

  /** A route that lost its only path over `id` has no other over it. */
  lemma LostOnce(e: Entry, id: Addr)
    requires Sound(e) && Over(e, id)
    ensures var qs := Without(e.paths, id);
      PathLost(e.paths, id, qs) && |qs| == |e.paths| - 1 && Disjoint(qs) && !HasNext(qs, id)
  {
    WithoutLoses(e.paths, id);
    WithoutKeeps(e.paths, id);
  }

  lemma NamingOne(u: Unreachable, d: Addr, least: nat)
    ensures Naming([u], d, least) == if u.dst == d && u.seqno >= least then 0 else 1
  {
  }

  /** The entry named itself. */
  lemma LoseEntryTells(n: Node, sender: Addr, u: Unreachable)
    requires u.dst in n.table && Sound(n.table[u.dst])
    ensures var l, e := LoseOne(n, sender, u), n.table[u.dst];
      && l.node == With(n, u.dst, l.node.table[u.dst]) && l.node.table.Keys == n.table.Keys
      && Withdrawn(e, u.dst, sender, [u], l.node.table[u.dst]) && Sound(l.node.table[u.dst])
      && !Hit(l.node.table[u.dst], u.dst, sender, [u])
      && l.lost == (if Hit(e, u.dst, sender, [u]) && |e.paths| == 1 && e.error
                    then [Unreachable(u.dst, Max(e.highest, u.seqno))] else [])
  {
    hide Without, Disjoint, Naming, PathLost, HasNext;
    var e := n.table[u.dst];
    NamingOne(u, u.dst, e.seqno);
    if Over(e, sender) {
      LostOnce(e, sender);
      if e.seqno > u.seqno { SameEntry(n, u.dst); }
    } else {
      SameEntry(n, u.dst);
    }
  }

  lemma SameEntry(n: Node, d: Addr)
    requires d in n.table
    ensures With(n, d, n.table[d]) == n
  {
  }

  lemma NotNamed(e: Entry, d: Addr, sender: Addr, u: Unreachable)
    requires u.dst != d
    ensures !Hit(e, d, sender, [u])
  {
    NamingOne(u, d, e.seqno);
  }

  lemma LoseOneTells(n: Node, sender: Addr, u: Unreachable)
    requires AllCounted(n)
    ensures LossesOf(n, sender, [u], LoseOne(n, sender, u)) && AllCounted(LoseOne(n, sender, u).node)
  {
    hide LoseOne, Sound, Hit, Naming, Thinned, Down;
    var l := LoseOne(n, sender, u);
    forall d | d in n.table && d != u.dst ensures !Hit(n.table[d], d, sender, [u]) { NotNamed(n.table[d], d, sender, u); }
    if u.dst in n.table {
      LoseEntryTells(n, sender, u);
      NamedOne(n.table[u.dst], u.dst, sender, u);
    } else {
      NoEntry(n, sender, u);
    }
  }

  lemma NamedOne(e: Entry, d: Addr, sender: Addr, u: Unreachable)
    ensures Hit(e, d, sender, [u]) ==> Naming([u], d, e.seqno) < 1 && Named(e, d, [u]) == u.seqno
  {
    NamingOne(u, d, e.seqno);
  }

  lemma NoEntry(n: Node, sender: Addr, u: Unreachable)
    requires u.dst !in n.table
    ensures LoseOne(n, sender, u) == Losses(n, [])
  {
  }

  lemma WithdrawnTwice(e: Entry, d: Addr, sender: Addr, u: Unreachable, us: seq<Unreachable>, f: Entry, g: Entry)
    requires Withdrawn(e, d, sender, [u], f) && Withdrawn(f, d, sender, us, g) && Sound(e)
    ensures Withdrawn(e, d, sender, [u] + us, g)
    ensures Hit(e, d, sender, [u] + us) <==> Hit(e, d, sender, [u]) || Hit(f, d, sender, us)
    ensures Hit(e, d, sender, [u]) ==> !Hit(f, d, sender, us) && f == g
    ensures !Hit(e, d, sender, [u]) ==> e == f
    ensures Hit(e, d, sender, [u]) ==> Naming([u], d, e.seqno) < 1 && Named(e, d, [u] + us) == Named(e, d, [u])
    ensures Hit(f, d, sender, us) ==> Hit(e, d, sender, [u] + us) && Named(e, d, [u] + us) == Named(f, d, us)
  {
    hide HasNext, Disjoint, Thinned, Down;
    assert ([u] + us)[1..] == us;
    NamingOne(u, d, e.seqno);
    if Hit(e, d, sender, [u]) { GoneOver(e, sender, f); }
  }

  lemma GoneOver(e: Entry, id: Addr, f: Entry)
    requires Sound(e) && Over(e, id) && (Thinned(e, id, f) || Down(e, f.highest, f))
    ensures !Over(f, id)
  {
  }

  lemma LossesJoin(n: Node, sender: Addr, u: Unreachable, us: seq<Unreachable>, l: Losses, r: Losses)
    requires AllCounted(n) && LossesOf(n, sender, [u], l) && LossesOf(l.node, sender, us, r)
    ensures LossesOf(n, sender, [u] + us, Losses(r.node, l.lost + r.lost))
  {
    hide Withdrawn, Hit, Sound, Naming;
    forall d | d in n.table
      ensures Withdrawn(n.table[d], d, sender, [u] + us, r.node.table[d])
      ensures Hit(n.table[d], d, sender, [u] + us) <==> Hit(n.table[d], d, sender, [u]) || Hit(l.node.table[d], d, sender, us)
      ensures Hit(n.table[d], d, sender, [u]) ==> !Hit(l.node.table[d], d, sender, us) && l.node.table[d] == r.node.table[d]
      ensures !Hit(n.table[d], d, sender, [u]) ==> n.table[d] == l.node.table[d]
    {
      WithdrawnTwice(n.table[d], d, sender, u, us, l.node.table[d], r.node.table[d]);
    }
    var lost := l.lost + r.lost;
    forall x: Unreachable ensures x in lost <==> Passed(n, sender, [u] + us, x) {
      if x.dst in n.table {
        WithdrawnTwice(n.table[x.dst], x.dst, sender, u, us, l.node.table[x.dst], r.node.table[x.dst]);
      }
    }
    forall j, k | 0 <= j < k < |lost| ensures lost[j].dst != lost[k].dst {
      if j < |l.lost| {
        assert l.lost[j] in l.lost;
        if k >= |l.lost| { assert r.lost[k - |l.lost|] in r.lost; }
      }
    }
  }

  lemma {:induction false} LoseAllTells(n: Node, sender: Addr, us: seq<Unreachable>)
    requires AllCounted(n)
    ensures LossesOf(n, sender, us, LoseAll(n, sender, us))
    decreases |us|
  {
    hide LoseOne, AllCounted, Thinned, Down;
    if us != [] {
      LoseOneTells(n, sender, us[0]);
      var l := LoseOne(n, sender, us[0]);
      LoseAllTells(l.node, sender, us[1..]);
      LossesJoin(n, sender, us[0], us[1..], l, LoseAll(l.node, sender, us[1..]));
      assert us == [us[0]] + us[1..];
    }
  }

  lemma ErrorTells(n: Node, m: Msg)
    requires NodeOk(n) && m.Rerr?
    ensures ErrorEffect(n, m.sender, m.unreachable, RecvError(n, m))
  {
    hide Withdrawn, Hit, NodeOk, AllCounted, LoseAll;
    EntriesCounted(n);
    LoseAllTells(n, m.sender, m.unreachable);
  }

  // ---------- lost neighbours ----------

  /** A stuck packet that may leave over another path. */
  predicate Leaves(n: Node, p: Stuck, d: Addr) {
    p.data && p.dst == d && d != n.index && d in n.table && n.table[d].up && p.salvaged < MAX_SALVAGE_COUNT
  }

  /** A route over which stuck packets leave: its first path lives on, and errors must be told if one came from elsewhere. */
  predicate Used(e: Entry, foreign: bool, now: real, e': Entry) {
    && e' == e.(paths := e'.paths, error := e.error || foreign)
    && FirstTill(e.paths, now + ACTIVE_ROUTE_TIMEOUT, e'.paths)
  }

  predicate AnyLeaves(n: Node, ps: seq<Stuck>, d: Addr) {
    exists k | 0 <= k < |ps| :: Leaves(n, ps[k], d)
  }

  predicate AnyForeign(n: Node, ps: seq<Stuck>, d: Addr) {
    exists k | 0 <= k < |ps| :: Leaves(n, ps[k], d) && !ps[k].mine
  }

  ghost predicate Salvaged(n: Node, ps: seq<Stuck>, now: real, n': Node) {
    && OnlyTable(n, n')
    && forall d | d in n.table ::
         if AnyLeaves(n, ps, d) then Used(n.table[d], AnyForeign(n, ps, d), now, n'.table[d]) else n'.table[d] == n.table[d]
  }

  lemma SalvageOneTells(n: Node, p: Stuck, now: real)
    ensures Salvaged(n, [p], now, SalvageOne(n, p, now))
  {
    OneLeaves(n, p);
    hide AnyLeaves, AnyForeign;
  }

  lemma OneLeaves(n: Node, p: Stuck)
    ensures forall d :: AnyLeaves(n, [p], d) <==> Leaves(n, p, d)
    ensures forall d :: AnyForeign(n, [p], d) <==> Leaves(n, p, d) && !p.mine
  {
    assert [p][0] == p;
    forall d ensures AnyLeaves(n, [p], d) <==> Leaves(n, p, d) { if Leaves(n, p, d) { assert Leaves(n, [p][0], d); } }
  }

  lemma MoreLeave(n: Node, n1: Node, p: Stuck, ps: seq<Stuck>, d: Addr)
    requires n1.index == n.index && (d in n1.table <==> d in n.table) && (d in n.table ==> n1.table[d].up == n.table[d].up)
    ensures AnyLeaves(n, [p] + ps, d) <==> AnyLeaves(n, [p], d) || AnyLeaves(n1, ps, d)
    ensures AnyForeign(n, [p] + ps, d) <==> AnyForeign(n, [p], d) || AnyForeign(n1, ps, d)
  {
    var qs := [p] + ps;
    assert forall k | 0 <= k < |ps| :: qs[k + 1] == ps[k] && (Leaves(n, ps[k], d) <==> Leaves(n1, ps[k], d));
    assert qs[0] == [p][0];
    if AnyForeign(n1, ps, d) {
      var k :| 0 <= k < |ps| && Leaves(n1, ps[k], d) && !ps[k].mine;
      assert Leaves(n, qs[k + 1], d);
    }
    if AnyLeaves(n1, ps, d) {
      var k :| 0 <= k < |ps| && Leaves(n1, ps[k], d);
      assert Leaves(n, qs[k + 1], d);
    }
  }

  lemma ForeignLeaves(n: Node, ps: seq<Stuck>, d: Addr)
    ensures AnyForeign(n, ps, d) ==> AnyLeaves(n, ps, d)
  {
  }

  lemma SalvageJoin(n: Node, p: Stuck, ps: seq<Stuck>, now: real, n1: Node, n2: Node)
    requires Salvaged(n, [p], now, n1) && Salvaged(n1, ps, now, n2)
    ensures Salvaged(n, [p] + ps, now, n2)
  {
    hide AnyLeaves, AnyForeign;
    forall d | d in n.table
      ensures if AnyLeaves(n, [p] + ps, d) then Used(n.table[d], AnyForeign(n, [p] + ps, d), now, n2.table[d])
              else n2.table[d] == n.table[d]
    {
      MoreLeave(n, n1, p, ps, d);
      ForeignLeaves(n, [p], d);
      ForeignLeaves(n1, ps, d);
    }
  }

  lemma {:induction false} SalvageAllTells(n: Node, ps: seq<Stuck>, now: real)
    ensures Salvaged(n, ps, now, SalvageAll(n, ps, now))
    decreases |ps|
  {
    hide Salvaged, SalvageOne;
    if ps == [] {
      SalvageNone(n, now);
    } else {
      var n1 := SalvageOne(n, ps[0], now);
      SalvageOneTells(n, ps[0], now);
      SalvageAllTells(n1, ps[1..], now);
      SalvageJoin(n, ps[0], ps[1..], now, n1, SalvageAll(n1, ps[1..], now));
      assert ps == [ps[0]] + ps[1..];
    }
  }

  lemma SalvageNone(n: Node, now: real)
    ensures Salvaged(n, [], now, n)
  {
  }

  /** The link failure, after which stuck packets leave over the paths that are left. */
  ghost predicate NeighborLost(n: Node, id: Addr, stuck: seq<Stuck>, now: real, o: Out) {
    && Forgotten(n.nbrs, id, o.node.nbrs)
    && exists n1 ::
         && FailureEffect(n.(seqno := n.seqno + 2, nbrs := o.node.nbrs), id, Out(n1, o.sent))
         && Salvaged(n1, stuck, now, o.node)
  }

  lemma NeighborTells(n: Node, id: Addr, stuck: seq<Stuck>, now: real)
    requires NodeOk(n)
    ensures NeighborLost(n, id, stuck, now, NbDelete(n, id, stuck, now))
  {
    hide FailureEffect, HandleLinkFailure, SalvageAll;
    var m := n.(seqno := n.seqno + 2, nbrs := NbWithout(n.nbrs, id));
    WithoutForgets(n.nbrs, id);
    FailureTells(m, id);
    KeepsNeighbors(m, id);
    SalvageAllTells(HandleLinkFailure(m, id).node, stuck, now);
  }

  lemma KeepsNeighbors(n: Node, id: Addr)
    requires NodeOk(n)
    ensures HandleLinkFailure(n, id).node.nbrs == n.nbrs
  {
    FailureTells(n, id);
  }

  // ---------- hellos ----------

  /** The sender of a hello is a neighbour for some more time, and the hello is a reply about it over the one hop between. */
  ghost predicate HelloEffect(n: Node, m: Msg, env: Env, o: Out)
    requires m.Hello?
  {
    var nbs := o.node.nbrs;
    && (if forall k | 0 <= k < |n.nbrs| :: n.nbrs[k].addr != m.sender
        then nbs == [Neighbor(m.sender, env.now + NEW_NEIGHBOR_LIFE)] + n.nbrs
        else exists k | 0 <= k < |n.nbrs| ::
               && n.nbrs[k].addr == m.sender && (forall j | 0 <= j < k :: n.nbrs[j].addr != m.sender)
               && nbs == n.nbrs[k := Neighbor(m.sender, env.now + NEIGHBOR_LIFE)])
    && ReplyEffect(n.(nbrs := nbs), Rrep(m.sender, n.index, n.index, 1, 0, n.index, 0, m.sender, m.seqno, HELLO_LIFE), env, o)
  }

  lemma HelloTells(n: Node, m: Msg, env: Env)
    requires NodeOk(n) && m.Hello? && MsgOk(m)
    ensures HelloEffect(n, m, env, RecvHello(n, m, env))
  {
    hide ReplyEffect, RecvReply;
    assert NbFind(n.nbrs, m.sender) <= |n.nbrs|;
    var n1 := HeardHello(n, m.sender, env.now);
    ReplyTells(n1, HelloAsReply(n, m), env);
    ReplyKeepsNeighbors(n1, HelloAsReply(n, m), env);
  }

  lemma ReplyKeepsNeighbors(n: Node, m: Msg, env: Env)
    requires NodeOk(n) && m.Rrep? && MsgOk(m)
    ensures RecvReply(n, m, env).node.nbrs == n.nbrs
  {
    hide RecvReply, TakenUp, Advertising, Marked;
    ReplyTells(n, m, env);
  }

  // ---------- searches ----------

  /** A search may start: there is no route, and the last one has timed out. */
  predicate Due(e: Entry, env: Env) {
    !e.up && e.reqTimeout <= env.now
  }

  /** A request goes out: a search may start, and not too many were in vain. */
  predicate Asks(e: Entry, env: Env) {
    Due(e, env) && e.reqCnt <= RREQ_RETRIES
  }

  /** What a search leaves in the entry: a ring two hops wider, or the whole network from TTL_THRESHOLD on, which counts as
      a try; a time to wait that grows with ring and tries; a rest after too many tries. */
  predicate Searched(e: Entry, d: Addr, env: Env, e': Entry) {
    if Asks(e, env) then
      var last := Max(e.reqLastTtl, e.lastHops.Num());
      && e' == e.(reqLastTtl := e'.reqLastTtl, reqCnt := e'.reqCnt, reqTimeout := e'.reqTimeout, expire := 0.0)
      && e'.reqLastTtl == (if last < TTL_THRESHOLD then last + 2 else NETWORK_DIAMETER)
      && e'.reqCnt == (if last < TTL_THRESHOLD then e.reqCnt else e.reqCnt + 1)
      && e'.reqTimeout == env.now + Patience(e'.reqLastTtl, e'.reqCnt, PerHopTime(d, env), MAX_RREQ_TIMEOUT)
    else if Due(e, env) then e' == e.(reqCnt := 0, reqTimeout := env.now + MAX_RREQ_TIMEOUT)
    else e' == e
  }

  /** The requests a node has sent, all its own: each under the next id, the next even number of the node, and the ring
      and the number that the entry for its destination holds; the receiver fills in the first hop. */
  predicate Asked(n: Node, n': Node, sent: seq<Msg>) {
    && n' == n.(table := n'.table, dests := n'.dests, bid := n.bid + |sent|, seqno := n.seqno + 2 * |sent|)
    && forall k | 0 <= k < |sent| ::
         && sent[k].Rreq? && sent[k].dst in n'.table
         && var e := n'.table[sent[k].dst];
            sent[k] == Rreq(n.index, e.reqLastTtl, 0, 0, n.bid + k, sent[k].dst, e.seqno, n.index, n.seqno + 2 * (k + 1))
  }

  predicate AskedFor(sent: seq<Msg>, d: Addr) {
    exists k | 0 <= k < |sent| :: sent[k].Rreq? && sent[k].dst == d
  }

  ghost predicate SearchEffect(n: Node, d: Addr, env: Env, o: Out)
    requires d in n.table
  {
    && o.node.table.Keys == n.table.Keys && o.node.dests == n.dests
    && (forall x | x in n.table && x != d :: o.node.table[x] == n.table[x])
    && Searched(n.table[d], d, env, o.node.table[d])
    && Asked(n, o.node, o.sent) && |o.sent| == (if Asks(n.table[d], env) then 1 else 0)
    && (Asks(n.table[d], env) ==> AskedFor(o.sent, d))
  }

  lemma SearchTells(n: Node, d: Addr, env: Env)
    requires d in n.table && n.table[d].lastHops.Num() >= 1
    ensures SearchEffect(n, d, env, SendRequest(n, d, env))
  {
    hide SearchTimeout, Patience;
    var o := SendRequest(n, d, env);
    if Asks(n.table[d], env) {
      var e' := o.node.table[d];
      WaitIs(e'.reqLastTtl, e'.reqCnt, PerHopTime(d, env), env.now, MAX_RREQ_TIMEOUT);
      assert o.sent[0].dst == d;
    }
  }

  // ---------- the periodic walk ----------

  /** Exactly the unexpired paths, none of them twice. */
  ghost predicate Unexpiring(ps: seq<Path>, now: real, ps': seq<Path>) {
    (forall p :: p in ps' <==> p in ps && p.expire >= now) && Disjoint(ps')
  }

  /** A route past its time loses its expired paths, and goes down under a higher, odd number if it has none left; a live one
      that packets wait for is used; a dead one that packets wait for is searched; anything else stays. */
  ghost predicate Purged(e: Entry, d: Addr, env: Env, e': Entry) {
    if e.up && e.expire < env.now then
      if exists p :: p in e.paths && p.expire >= env.now
      then Unexpiring(e.paths, env.now, e'.paths) && e' == e.(paths := e'.paths, numPaths := |e'.paths|)
      else
        && Down(e, e'.seqno, e') && e'.highest == e.highest && e'.error == e.error
        && e'.seqno % 2 == 1 && FailedNumber(e) <= e'.seqno <= FailedNumber(e) + 1
    else if d !in env.waiting then e' == e
    else if e.up then e' == e.(paths := e'.paths) && FirstTill(e.paths, env.now + ACTIVE_ROUTE_TIMEOUT, e'.paths)
    else Searched(e, d, env, e')
  }

  ghost predicate PurgesOf(n: Node, ds: seq<Addr>, env: Env, o: Out) {
    && o.node.table.Keys == n.table.Keys && o.node.dests == n.dests && Asked(n, o.node, o.sent)
    && (forall d | d in n.table :: if d in ds then Purged(n.table[d], d, env, o.node.table[d]) else o.node.table[d] == n.table[d])
    && (forall d :: AskedFor(o.sent, d) <==> d in ds && d in n.table && d in env.waiting && Asks(n.table[d], env))
    && forall j, k | 0 <= j < k < |o.sent| :: o.sent[j].Rreq? && o.sent[k].Rreq? ==> o.sent[j].dst != o.sent[k].dst
  }

  /** The walk drops every expired path of a route past its time and no other, and asks once for each destination without a
      route that packets wait for and that may be asked for again. */
  ghost predicate PurgeEffect(n: Node, env: Env, o: Out) {
    PurgesOf(n, n.dests, env, o)
  }

  predicate Searchable(e: Entry) {
    Sound(e) && e.lastHops.Num() >= 1
  }

  lemma PurgedTells(n: Node, d: Addr, env: Env)
    requires d in n.table && Searchable(n.table[d])
    ensures Purged(n.table[d], d, env, PurgeOne(n, d, env).node.table[d])
  {
    hide SendRequest, Searched, Unexpired, Disjoint;
    SearchTells(n, d, env);
    var e := n.table[d];
    UnexpiredKeeps(e.paths, env.now);
    var live := Unexpired(e.paths, env.now);
    assert live != [] ==> live[0] in live;
  }

  lemma PurgeOneTells(n: Node, d: Addr, env: Env)
    requires d in n.table && Searchable(n.table[d])
    ensures PurgesOf(n, [d], env, PurgeOne(n, d, env))
  {
    hide SendRequest, Searched, Unexpired, Purged;
    PurgedTells(n, d, env);
    SearchTells(n, d, env);
  }

  lemma PurgesJoin(n: Node, d: Addr, ds: seq<Addr>, env: Env, o: Out, r: Out)
    requires d in n.table && d !in ds && PurgesOf(n, [d], env, o) && PurgesOf(o.node, ds, env, r)
    ensures PurgesOf(n, [d] + ds, env, Out(r.node, o.sent + r.sent))
  {
    hide Purged;
    var sent := o.sent + r.sent;
    forall x ensures AskedFor(sent, x) <==> AskedFor(o.sent, x) || AskedFor(r.sent, x) {
      if AskedFor(o.sent, x) {
        var k :| 0 <= k < |o.sent| && o.sent[k].Rreq? && o.sent[k].dst == x;
        assert sent[k].dst == x;
      }
      if AskedFor(r.sent, x) {
        var k :| 0 <= k < |r.sent| && r.sent[k].Rreq? && r.sent[k].dst == x;
        assert sent[|o.sent| + k].dst == x;
      }
    }
  }

  lemma {:induction false} PurgeAllTells(n: Node, ds: seq<Addr>, env: Env)
    requires Distinct(ds) && forall d | d in ds :: d in n.table && Searchable(n.table[d])
    ensures PurgesOf(n, ds, env, PurgeAll(n, ds, env))
    decreases |ds|
  {
    hide Purged, Searchable, PurgeOne;
    if ds != [] {
      var o := PurgeOne(n, ds[0], env);
      PurgeOneTells(n, ds[0], env);
      forall d | d in ds[1..] ensures d != ds[0] && d in o.node.table && Searchable(o.node.table[d]) {
        var k :| 1 <= k < |ds| && ds[k] == d;
      }
      PurgeAllTells(o.node, ds[1..], env);
      PurgesJoin(n, ds[0], ds[1..], env, o, PurgeAll(o.node, ds[1..], env));
      assert ds == [ds[0]] + ds[1..];
    }
  }

  lemma PurgeTells(n: Node, env: Env)
    requires NodeOk(n)
    ensures AomdvNode.Listed(n, n.dests) && PurgeEffect(n, env, RtPurge(n, env))
  {
    PurgeAllTells(n, n.dests, env);
  }

  // ---------- data packets ----------

  /** A data packet leaves over the first path of a live route; without one its own source searches, and any other node tells
      that the destination is lost. */
  ghost predicate ResolveEffect(n: Node, d: Addr, mine: bool, env: Env, o: Out) {
    var e := EntryOf(n, d);
    && Entered(n, o.node, d)
    && (forall x | x in n.table && x != d :: o.node.table[x] == n.table[x])
    && if e.up || !mine then
         && o.node == n.(table := o.node.table, dests := o.node.dests)
         && (if e.up then Used(e, !mine, env.now, o.node.table[d]) else o.node.table[d] == e)
         && o.sent == (if e.up then [] else [Rerr(n.index, [Unreachable(d, e.seqno)])])
       else
         && Searched(e, d, env, o.node.table[d])
         && Asked(n, o.node, o.sent) && |o.sent| == (if Asks(e, env) then 1 else 0)
         && (Asks(e, env) ==> AskedFor(o.sent, d))
  }

  lemma ResolveTells(n: Node, d: Addr, mine: bool, env: Env)
    requires NodeOk(n)
    ensures ResolveEffect(n, d, mine, env, RtResolve(n, d, mine, env))
  {
    hide SendRequest, Searched, EntryOk;
    EntryFits(n, d);
    var n1 := RtAdd(n, d);
    LastFits(n1.table[d], n.maxPaths);
    SearchTells(n1, d, env);
  }

  lemma LastFits(e: Entry, maxPaths: int)
    requires EntryOk(e, maxPaths)
    ensures e.lastHops.Num() >= 1
  {
  }
}
